/** What a mutated pod is given, in the names, paths and values that Kubernetes and the containers see, and what the
    two webhooks answer. */
module Delivery {
  import opened Metadata
  import opened Owners
  import opened Pods
  import opened Injection
  import opened Mutator
  import opened MutationLaws
  import opened Workers
  import opened Validator
  import Text

  // ------------------------------------------------------------------ what a pod says

  function KeyFor(e: Extractor, word: string): string {
    "cain." + e.domain + "/" + word
  }

  /** The value that a pod is annotated with, or another one. */
  function Note(e: Extractor, meta: Meta, word: string, otherwise: string): string {
    if KeyFor(e, word) in meta.annotations then meta.annotations[KeyFor(e, word)] else otherwise
  }

  predicate AsksForInjection(e: Extractor, meta: Meta) {
    KeyFor(e, "enabled") in meta.labels && meta.labels[KeyFor(e, "enabled")] == "true"
  }

  predicate AsksForJvm(e: Extractor, meta: Meta) {
    Note(e, meta, "jvm", "") == "true"
  }

  predicate AsksForPython(e: Extractor, meta: Meta) {
    Note(e, meta, "python", "") == "true"
  }

  predicate AsksForRedhat(e: Extractor, meta: Meta) {
    Note(e, meta, "family", "") == "redhat"
  }

  function RawName(e: Extractor, meta: Meta): string {
    Note(e, meta, "secret-volume-name", "ca")
  }

  function BundleName(e: Extractor, meta: Meta): string {
    Note(e, meta, "ca-volume-name", "ca-certs")
  }

  /** The directory and the file of the truststore. */
  function TruststorePlace(e: Extractor, meta: Meta): (string, string) {
    if KeyFor(e, "jvm-path") in meta.annotations then
      var path := meta.annotations[KeyFor(e, "jvm-path")];
      (e.paths.dir(path), e.paths.base(path))
    else ("/jvm-truststore/", "truststore.jks")
  }

  predicate TruststoreWanted(e: Extractor, pod: PodValue) {
    && AsksForJvm(e, pod.meta)
    && RawName(e, pod.meta) != "cain-truststore" && BundleName(e, pod.meta) != "cain-truststore"
    && forall i :: 0 <= i < |pod.volumes| ==> pod.volumes[i].name != "cain-truststore"
  }

  predicate ExtrasHaveSlashes(e: Extractor, meta: Meta) {
    KeyFor(e, "extra-ca-secrets") in meta.annotations ==>
      forall entry :: entry in Text.Split(meta.annotations[KeyFor(e, "extra-ca-secrets")], ',') ==> '/' in entry
  }

  lemma WantedIsWanted(cfg: Config, pod: PodValue)
    ensures TruststoreWanted(cfg.extractor, pod) <==> WantsJvm(cfg, pod)
  {
  }

  lemma SlashesAreWellFormed(cfg: Config, meta: Meta)
    ensures ExtrasHaveSlashes(cfg.extractor, meta) <==> WellFormedExtras(cfg, meta)
  {
    forall entry: string
      ensures WellFormedEntry(entry) <==> '/' in entry
    {
      Text.SplitHasSecond(entry, '/');
    }
  }

  // ------------------------------------------------------------------ the answers of the two webhooks

  /** The answer of the mutator, for every pod and any two snapshots of the cluster. */
  lemma MutatorAnswers(cfg: Config, review: Review, first: Cluster, second: Cluster, pod: PodValue)
    ensures var outcome := Admit(cfg, review, first, second, pod).0;
            if review.cancelled then outcome == Errored
            else if !AsksForInjection(cfg.extractor, pod.meta) || review.namespace == "kube-system" then
              outcome == Untouched
            else if !review.isPod then outcome == Warned("Provided resource was not a Pod")
            else if exists i :: 0 <= i < |pod.initContainers| && pod.initContainers[i].name == "ca-cert-gen" then
              outcome == Warned("Pod already mutated for CA injection")
            else
              match RootOf(first, AsObject(pod.meta))
              case TooDeep => outcome == Overflowed
              case Failed(_) => outcome == Warned("adding CA secret volumes failed")
              case Root(_) =>
                if !ExtrasHaveSlashes(cfg.extractor, pod.meta) then outcome == Panicked
                else if !TruststoreWanted(cfg.extractor, pod) then outcome == Mutated
                else
                  match RootOf(second, AsObject(pod.meta))
                  case TooDeep => outcome == Overflowed
                  case Failed(_) => outcome == Warned("adding JVM secret and ENV failed")
                  case Root(_) => outcome == Mutated
  {
    WantedIsWanted(cfg, pod);
    SlashesAreWellFormed(cfg, pod.meta);
    if WellFormedExtras(cfg, pod.meta) {
      JvmGuard(cfg, pod, RootName(first, pod));
    }
  }

  /** The answer of the validator, and when it sends anything. */
  lemma ValidatorAnswers(settings: Settings, review: Review, c: Cluster, meta: Meta)
    ensures var (verdict, script) := Plan(settings, review, c, meta);
            var handled := !review.cancelled && AsksForInjection(settings.extractor, meta) && review.isPod;
            var root := RootOf(c, AsObject(meta));
            && (verdict == Valid <==>
                  && !review.cancelled
                  && (|| !AsksForInjection(settings.extractor, meta)
                      || (review.isPod && review.operation == Delete)
                      || (review.isPod && review.operation == Create && root.Root?)))
            && (verdict == Stopped <==> review.cancelled)
            && (verdict == NotAPod <==>
                  !review.cancelled && AsksForInjection(settings.extractor, meta) && !review.isPod)
            && (verdict == Refused <==> handled && review.operation != Create && review.operation != Delete)
            && (verdict.NoRoot? <==> handled && review.operation == Create && root.Failed?)
            && (verdict.NoRoot? ==> verdict.error == root.error)
            && (verdict == Endless <==> handled && review.operation == Create && root.TooDeep?)
            && (script != [] <==>
                  && handled && !review.dryRun
                  && (|| (review.operation == Delete && meta.owners == [])
                      || (review.operation == Create && root.Root?)))
  {
  }

  // ------------------------------------------------------------------ volumes

  /** The old volumes, then the projection of the raw secrets, an empty directory for the bundle, and the truststore
      if it is wanted. */
  lemma VolumesDelivered(cfg: Config, first: Cluster, second: Cluster, pod: PodValue, after: PodValue)
    requires Inject(cfg, first, second, pod) == (Mutated, after)
    ensures var n, e := |pod.volumes|, cfg.extractor;
            && |after.volumes| == n + (if TruststoreWanted(e, pod) then 3 else 2)
            && after.volumes[..n] == pod.volumes
            && after.volumes[n].name == RawName(e, pod.meta)
            && after.volumes[n].source.Projected? && after.volumes[n].source.mode == 420
            && after.volumes[n + 1] == Volume(BundleName(e, pod.meta), EmptyDir)
            && (TruststoreWanted(e, pod) ==>
                  var file := TruststorePlace(e, pod.meta).1;
                  after.volumes[n + 2] ==
                  Volume("cain-truststore",
                         FromSecret(RootName(second, pod) + "-truststore-cert", [KeyToPath(file, file)], 420)))
  {
    MutatedIsComplete(cfg, first, second, pod);
    WantedIsWanted(cfg, pod);
    var added := AddedVolumes(cfg, pod, RootName(first, pod), RootName(second, pod));
    assert after.volumes == pod.volumes + added;
    VolumesAreNamed(cfg, pod.meta, RootName(first, pod), RootName(second, pod));
  }

  lemma VolumesAreNamed(cfg: Config, meta: Meta, rootName: string, jvmRootName: string)
    requires WellFormedExtras(cfg, meta)
    ensures var e, volumes := cfg.extractor, CaVolumes(cfg, meta, rootName);
            && volumes[0].name == RawName(e, meta)
            && volumes[0].source.Projected? && volumes[0].source.mode == 420
            && volumes[1] == Volume(BundleName(e, meta), EmptyDir)
    ensures var file := TruststorePlace(cfg.extractor, meta).1;
            TruststoreVolume(cfg, meta, jvmRootName)
            == Volume("cain-truststore", FromSecret(jvmRootName + "-truststore-cert", [KeyToPath(file, file)], 420))
  {
  }

  /** The path is the prefix, this number in decimal, and the ending of a certificate. */
  ghost predicate FileNumbered(path: string, prefix: string, n: int) {
    exists number: string ::
      && (forall i :: 0 <= i < |number| ==> '0' <= number[i] <= '9')
      && Text.Value(number) == n
      && path == prefix + number + ".crt"
  }

  lemma PathsAreNumbered(i: nat)
    ensures FileNumbered(DefaultPath(i), "injected_ca-", i) && FileNumbered(ExtraPath(i), "injected_extra_ca-", i)
  {
    Text.ValueOfDecimal(i);
  }

  /** The files of the projection are numbered from zero in each of the two groups, and all of them are certificates. */
  lemma FilesDelivered(cfg: Config, meta: Meta, rootName: string, i: nat)
    requires WellFormedExtras(cfg, meta) && i < |Sources(cfg, meta, rootName)|
    ensures var items, keys := Sources(cfg, meta, rootName)[i].items, |cfg.caSecret.keys|;
            && |items| == 1
            && (i < keys ==> FileNumbered(items[0].path, "injected_ca-", i))
            && (i >= keys ==> FileNumbered(items[0].path, "injected_extra_ca-", i - keys))
  {
    var items, keys := Sources(cfg, meta, rootName)[i].items, |cfg.caSecret.keys|;
    if i < keys {
      PathsAreNumbered(i);
      assert items[0].path == DefaultPath(i);
    } else {
      PathsAreNumbered(i - keys);
      assert items[0].path == ExtraPath(i - keys);
    }
  }

  // ------------------------------------------------------------------ the bundle

  /** Where a container of the family looks for its certificates. */
  function BundlePlace(redhat: bool): string {
    if redhat then "/etc/pki/ca-trust/extracted" else "/etc/ssl/certs/"
  }

  /** The CA container reads the raw secrets and writes the bundle: it mounts the first of two volumes read-only where
      its family takes new certificates from, and the second one, writable, at the path that its environment names. */
  ghost predicate MakesBundle(cfg: Config, redhat: bool, ca: Container, raw: Volume, bundle: Volume) {
    && ca.name == "ca-cert-gen"
    && ca.image == (if redhat then cfg.redhatInitImage else cfg.debianInitImage)
    && ca.resources == cfg.resources
    && ca.env == [EnvVar("TMP_CERTS_DIR", "/tmp/ca-certs/", "")]
    && |ca.mounts| == 2
    && ca.mounts[0] == Mount(
         raw.name,
         if redhat then "/usr/share/pki/ca-trust-source/anchors" else "/usr/local/share/ca-certificates/injected",
         true, "")
    && ca.mounts[1] == Mount(bundle.name, ca.env[0].value, false, "")
  }

  /** Every old container finds the bundle, by the first mount that it gained: the empty directory that the CA
      container fills, where its family looks for certificates. The raw secrets are mounted by the CA container only,
      unless the pod gives both volumes one name. */
  ghost predicate BundleReaches(cfg: Config, pod: PodValue, after: PodValue) {
    && |after.volumes| >= |pod.volumes| + 2
    && |after.initContainers| == |pod.initContainers| + 1 && |after.containers| == |pod.containers|
    && var raw, bundle := after.volumes[|pod.volumes|], after.volumes[|pod.volumes| + 1];
       var redhat := AsksForRedhat(cfg.extractor, pod.meta);
       var mount := Mount(bundle.name, BundlePlace(redhat), false, "");
       && raw.source.Projected? && bundle.source == EmptyDir
       && MakesBundle(cfg, redhat, after.initContainers[0], raw, bundle)
       && (forall i :: 0 <= i < |pod.initContainers| ==>
             after.initContainers[i + 1].mounts == pod.initContainers[i].mounts + [mount])
       && (forall i :: 0 <= i < |pod.containers| ==>
             pod.containers[i].mounts + [mount] <= after.containers[i].mounts)
       && (raw.name != bundle.name ==>
             forall i, k :: 0 <= i < |pod.containers|
                            && |pod.containers[i].mounts| <= k < |after.containers[i].mounts| ==>
               after.containers[i].mounts[k].name != raw.name)
  }

  lemma CaPartIsNamed(cfg: Config, meta: Meta)
    ensures BundleMount(cfg, meta)
         == Mount(BundleName(cfg.extractor, meta), BundlePlace(AsksForRedhat(cfg.extractor, meta)), false, "")
    ensures forall raw: Volume, bundle: Volume ::
              raw.name == RawName(cfg.extractor, meta) && bundle.name == BundleName(cfg.extractor, meta) ==>
                MakesBundle(cfg, AsksForRedhat(cfg.extractor, meta), InitContainer(cfg, meta), raw, bundle)
  {
  }

  lemma BundleWhenComplete(cfg: Config, pod: PodValue, after: PodValue, rootName: string, jvmRootName: string)
    requires Complete(cfg, pod, after, rootName, jvmRootName)
    ensures BundleReaches(cfg, pod, after)
  {
    var n := |pod.volumes|;
    var added := AddedVolumes(cfg, pod, rootName, jvmRootName);
    assert after.volumes[n] == added[0] && after.volumes[n + 1] == added[1];
    CaPartIsNamed(cfg, pod.meta);
    forall i | 0 <= i < |pod.containers|
      ensures pod.containers[i].mounts + [BundleMount(cfg, pod.meta)] <= after.containers[i].mounts
      ensures forall k :: |pod.containers[i].mounts| < k < |after.containers[i].mounts| ==>
                after.containers[i].mounts[k].name != RawName(cfg.extractor, pod.meta)
    {
      assert after.containers[i] == FinalContainer(cfg, pod, pod.containers[i]);
      MountsWhenFinal(cfg, pod, pod.containers[i]);
    }
  }

  lemma MountsWhenFinal(cfg: Config, pod: PodValue, before: Container)
    ensures var mounts := FinalContainer(cfg, pod, before).mounts;
            && before.mounts + [BundleMount(cfg, pod.meta)] <= mounts
            && forall k :: |before.mounts| < k < |mounts| ==> mounts[k].name != RawName(cfg.extractor, pod.meta)
  {
    WantedIsWanted(cfg, pod);
    assert AddedMounts(cfg, pod)[..1] == [BundleMount(cfg, pod.meta)];
  }

  lemma BundleDelivered(cfg: Config, first: Cluster, second: Cluster, pod: PodValue, after: PodValue)
    requires Inject(cfg, first, second, pod) == (Mutated, after)
    ensures BundleReaches(cfg, pod, after)
  {
    MutatedIsComplete(cfg, first, second, pod);
    BundleWhenComplete(cfg, pod, after, RootName(first, pod), RootName(second, pod));
  }

  // ------------------------------------------------------------------ environments

  /** The bundle as a file in its directory. */
  function BundleFile(redhat: bool): string {
    BundlePlace(redhat) + if redhat then "/ca-bundle.trust.crt" else "ca-certificates.crt"
  }

  lemma BundleFileIsNamed()
    ensures BundleFile(false) == "/etc/ssl/certs/ca-certificates.crt"
    ensures BundleFile(true) == "/etc/pki/ca-trust/extracted/ca-bundle.trust.crt"
  {
  }

  /** How an environment grows, and what the Python variables hold: a file in the directory of the bundle. */
  ghost predicate PythonFinds(cfg: Config, pod: PodValue, before: seq<EnvVar>, env: seq<EnvVar>) {
    var python, redhat := AsksForPython(cfg.extractor, pod.meta), AsksForRedhat(cfg.extractor, pod.meta);
    var jvm := TruststoreWanted(cfg.extractor, pod)
               && forall k :: 0 <= k < |before| ==> before[k].name != cfg.jvmEnvVariable;
    && |env| == |before| + (if jvm then 1 else 0) + (if python then 2 else 0)
    && (python ==>
          && env[|env| - 2] == EnvVar("REQUESTS_CA_BUNDLE", BundleFile(redhat), "")
          && env[|env| - 1] == EnvVar("SSL_CERT_FILE", BundleFile(redhat), ""))
  }

  lemma PythonWhenFinal(cfg: Config, pod: PodValue, before: seq<EnvVar>)
    ensures PythonFinds(cfg, pod, before, FinalEnv(cfg, pod, before))
  {
    WantedIsWanted(cfg, pod);
    JvmEnvLaw(before, cfg.jvmEnvVariable, TruststoreOptions(cfg, pod.meta));
    PythonPartIsNamed(cfg, pod.meta);
  }

  lemma PythonPartIsNamed(cfg: Config, meta: Meta)
    ensures cfg.extractor.IsPythonEnabled(meta) <==> AsksForPython(cfg.extractor, meta)
    ensures PythonEnv(cfg, meta)
         == [EnvVar("REQUESTS_CA_BUNDLE", BundleFile(AsksForRedhat(cfg.extractor, meta)), ""),
             EnvVar("SSL_CERT_FILE", BundleFile(AsksForRedhat(cfg.extractor, meta)), "")]
  {
    BundleFileIsNamed();
  }

  lemma PythonDelivered(cfg: Config, first: Cluster, second: Cluster, pod: PodValue, after: PodValue, i: nat)
    requires Inject(cfg, first, second, pod) == (Mutated, after) && i < |pod.containers|
    ensures |after.containers| == |pod.containers|
    ensures PythonFinds(cfg, pod, pod.containers[i].env, after.containers[i].env)
  {
    ContainerDelivered(cfg, first, second, pod, after, i);
    PythonWhenFinal(cfg, pod, pod.containers[i].env);
  }

  lemma ContainerDelivered(cfg: Config, first: Cluster, second: Cluster, pod: PodValue, after: PodValue, i: nat)
    requires Inject(cfg, first, second, pod) == (Mutated, after) && i < |pod.containers|
    ensures |after.containers| == |pod.containers|
    ensures after.containers[i] == FinalContainer(cfg, pod, pod.containers[i])
  {
    MutatedIsComplete(cfg, first, second, pod);
  }

  /** An entry that is the first of its name stays the first when others are added behind. */
  lemma FirstStays(env: seq<EnvVar>, added: seq<EnvVar>, name: string, j: nat)
    requires j < |env| && env[j].name == name
    requires forall k :: 0 <= k < j ==> env[k].name != name
    ensures FirstIndex(env + added, name) == j
  {
    var longer := env + added;
    assert forall k :: 0 <= k <= j ==> longer[k] == env[k];
  }

  /** The container can open the truststore of this volume with this password: the first variable of the JVM name
      ends in options that name the mounted file and the password. */
  ghost predicate TruststoreOpens(cfg: Config, before: Container, after: Container, volume: Volume, password: string) {
    var j, k := FirstIndex(after.env, cfg.jvmEnvVariable), FirstIndex(before.env, cfg.jvmEnvVariable);
    && volume.source.FromSecret? && |volume.source.items| == 1
    && |after.mounts| == |before.mounts| + 2
    && var file, mount := volume.source.items[0].path, after.mounts[|before.mounts| + 1];
       && mount.name == volume.name && mount.readOnly
       && j == k < |after.env|
       && after.env[j].value
          == (if k < |before.env| then before.env[k].value + " " else "")
             + ("-Djavax.net.ssl.trustStore=" + cfg.extractor.paths.join(mount.path, file)
                + " -Djavax.net.ssl.password=" + password)
  }

  lemma TruststoreWhenFinal(cfg: Config, pod: PodValue, before: Container, rootName: string)
    requires WantsJvm(cfg, pod)
    ensures var password := Note(cfg.extractor, pod.meta, "truststore-password", cfg.extractor.truststorePassword);
            var volume := TruststoreVolume(cfg, pod.meta, rootName);
            TruststoreOpens(cfg, before, FinalContainer(cfg, pod, before), volume, password)
    ensures var after := FinalContainer(cfg, pod, before);
            && |after.mounts| == |before.mounts| + 2
            && after.mounts[|before.mounts| + 1].path == TruststorePlace(cfg.extractor, pod.meta).0
  {
    var options := TruststoreOptions(cfg, pod.meta);
    var updated := JvmEnv(before.env, cfg.jvmEnvVariable, options);
    var j := FirstIndex(before.env, cfg.jvmEnvVariable);
    var added := if cfg.extractor.IsPythonEnabled(pod.meta) then PythonEnv(cfg, pod.meta) else [];
    JvmEnvLaw(before.env, cfg.jvmEnvVariable, options);
    FirstStays(updated, added, cfg.jvmEnvVariable, j);
    assert FinalContainer(cfg, pod, before).env == updated + added;
    assert j < |before.env| ==> before.env[j].value + " " + options == (before.env[j].value + " ") + options;
  }

  /** The truststore of a mutated pod fits what the validator asks for: every container can open it with the password
      of the certificate message that is planned for the pod. */
  lemma TruststoreDelivered(cfg: Config, data: Data, review: Review, first: Cluster, second: Cluster, third: Cluster,
                            pod: PodValue, after: PodValue, script: seq<Send>, i: nat)
    requires Admit(cfg, review, first, second, pod) == (Mutated, after)
    requires review.operation == Create && !review.dryRun
    requires script == Plan(Settings(cfg.extractor, cfg.caSecret, data), review, third, after.meta).1
    requires TruststoreWanted(cfg.extractor, pod) && RootOf(third, AsObject(pod.meta)).Root?
    requires i < |pod.containers|
    ensures |after.volumes| == |pod.volumes| + 3 && |after.containers| == |pod.containers|
    ensures |script| == 2 && script[1].ToCertCreator?
    ensures var volume, password := after.volumes[|pod.volumes| + 2], script[1].info.truststorePassword;
            && TruststoreOpens(cfg, pod.containers[i], after.containers[i], volume, password)
            && password == Note(cfg.extractor, pod.meta, "truststore-password", cfg.extractor.truststorePassword)
            && after.containers[i].mounts[|pod.containers[i].mounts| + 1].path
               == TruststorePlace(cfg.extractor, pod.meta).0
  {
    WantedIsWanted(cfg, pod);
    TruststoreWhenFinal(cfg, pod, pod.containers[i], RootName(second, pod));
    ContainerDelivered(cfg, first, second, pod, after, i);
    TruststoreVolumeDelivered(cfg, first, second, pod, after);
  }

  lemma TruststoreVolumeDelivered(cfg: Config, first: Cluster, second: Cluster, pod: PodValue, after: PodValue)
    requires Inject(cfg, first, second, pod) == (Mutated, after) && WantsJvm(cfg, pod)
    ensures after.meta == pod.meta && |after.volumes| == |pod.volumes| + 3
    ensures after.volumes[|pod.volumes| + 2] == TruststoreVolume(cfg, pod.meta, RootName(second, pod))
  {
    MutatedIsComplete(cfg, first, second, pod);
  }
}
