/** What the mutation guarantees, for every pod, configuration and cluster. */
module MutationLaws {
  import opened Wrappers
  import opened Metadata
  import opened Pods
  import opened Injection
  import opened Mutator
  import opened Owners
  import Text

  // ------------------------------------------------------------------ the complete mutation

  /** The truststore is wanted unless the pod already has a volume of its name, among its own volumes or as
      one of the two CA volumes. */
  predicate WantsJvm(cfg: Config, pod: PodValue) {
    && cfg.extractor.IsJvmEnabled(pod.meta)
    && !Named(pod.volumes, TRUSTSTORE_VOLUME_NAME)
    && cfg.extractor.SecretVolumeName(pod.meta) != TRUSTSTORE_VOLUME_NAME
    && cfg.extractor.CaVolumeName(pod.meta) != TRUSTSTORE_VOLUME_NAME
  }

  function AddedVolumes(cfg: Config, pod: PodValue, rootName: string, jvmRootName: string): seq<Volume>
    requires WellFormedExtras(cfg, pod.meta)
  {
    CaVolumes(cfg, pod.meta, rootName)
    + if WantsJvm(cfg, pod) then [TruststoreVolume(cfg, pod.meta, jvmRootName)] else []
  }

  function AddedMounts(cfg: Config, pod: PodValue): seq<Mount> {
    [BundleMount(cfg, pod.meta)] + if WantsJvm(cfg, pod) then [TruststoreMount(cfg, pod.meta)] else []
  }

  function FinalEnv(cfg: Config, pod: PodValue, env: seq<EnvVar>): seq<EnvVar> {
    (if WantsJvm(cfg, pod) then JvmEnv(env, cfg.jvmEnvVariable, TruststoreOptions(cfg, pod.meta)) else env)
    + if cfg.extractor.IsPythonEnabled(pod.meta) then PythonEnv(cfg, pod.meta) else []
  }

  /** Old init containers follow the CA container in order and gain the bundle mount and nothing else. */
  ghost predicate InitComplete(cfg: Config, pod: PodValue, after: seq<Container>) {
    && |after| == |pod.initContainers| + 1
    && after[0] == InitContainer(cfg, pod.meta)
    && forall i :: 0 <= i < |pod.initContainers| ==>
         after[i + 1]
         == pod.initContainers[i].(mounts := pod.initContainers[i].mounts + [BundleMount(cfg, pod.meta)])
  }

  function FinalContainer(cfg: Config, pod: PodValue, c: Container): Container {
    c.(mounts := c.mounts + AddedMounts(cfg, pod), env := FinalEnv(cfg, pod, c.env))
  }

  /** Old containers gain mounts at the end of their mounts and have their environment updated. */
  ghost predicate ContainersComplete(cfg: Config, pod: PodValue, after: seq<Container>) {
    && |after| == |pod.containers|
    && forall i :: 0 <= i < |pod.containers| ==> after[i] == FinalContainer(cfg, pod, pod.containers[i])
  }

  /** The exact frame of a mutation: metadata and old volumes stay, and nothing else changes than is said here. */
  ghost predicate Complete(cfg: Config, pod: PodValue, after: PodValue, rootName: string, jvmRootName: string) {
    && WellFormedExtras(cfg, pod.meta)
    && after.meta == pod.meta
    && after.volumes == pod.volumes + AddedVolumes(cfg, pod, rootName, jvmRootName)
    && InitComplete(cfg, pod, after.initContainers)
    && ContainersComplete(cfg, pod, after.containers)
  }

  lemma JvmGuard(cfg: Config, pod: PodValue, rootName: string)
    requires WellFormedExtras(cfg, pod.meta)
    ensures ShouldAddJvm(cfg, AddCa(cfg, pod, rootName)) <==> WantsJvm(cfg, pod)
  {
    var n := |pod.volumes|;
    var after := AddCa(cfg, pod, rootName);
    assert after.volumes[n].name == cfg.extractor.SecretVolumeName(pod.meta);
    assert after.volumes[n + 1].name == cfg.extractor.CaVolumeName(pod.meta);
    assert forall i :: 0 <= i < n ==> after.volumes[i] == pod.volumes[i];
  }

  /** The composition of the three steps, container by container. */
  function Composed(cfg: Config, pod: PodValue, rootName: string, jvmRootName: string): PodValue
    requires WellFormedExtras(cfg, pod.meta)
  {
    var withCa := AddCa(cfg, pod, rootName);
    Finish(cfg, if WantsJvm(cfg, pod) then AddJvm(cfg, withCa, jvmRootName) else withCa).1
  }

  lemma ComposedContainers(cfg: Config, pod: PodValue, rootName: string, jvmRootName: string)
    requires WellFormedExtras(cfg, pod.meta)
    ensures ContainersComplete(cfg, pod, Composed(cfg, pod, rootName, jvmRootName).containers)
  {
    forall i | 0 <= i < |pod.containers|
      ensures Composed(cfg, pod, rootName, jvmRootName).containers[i] == FinalContainer(cfg, pod, pod.containers[i])
    {
      var c := pod.containers[i];
      var c1 := WithMount(c, BundleMount(cfg, pod.meta));
      var c2 := if WantsJvm(cfg, pod) then WithJvm(c1, cfg, pod.meta) else c1;
      var c3 := if cfg.extractor.IsPythonEnabled(pod.meta) then WithPython(c2, cfg, pod.meta) else c2;
      assert Composed(cfg, pod, rootName, jvmRootName).containers[i] == c3;
      FinalContainerInSteps(cfg, pod, c);
    }
  }

  lemma FinalContainerInSteps(cfg: Config, pod: PodValue, c: Container)
    ensures var c1 := WithMount(c, BundleMount(cfg, pod.meta));
            var c2 := if WantsJvm(cfg, pod) then WithJvm(c1, cfg, pod.meta) else c1;
            FinalContainer(cfg, pod, c)
            == if cfg.extractor.IsPythonEnabled(pod.meta) then WithPython(c2, cfg, pod.meta) else c2
  {
  }

  lemma ComposedIsComplete(cfg: Config, pod: PodValue, rootName: string, jvmRootName: string)
    requires WellFormedExtras(cfg, pod.meta)
    ensures Complete(cfg, pod, Composed(cfg, pod, rootName, jvmRootName), rootName, jvmRootName)
  {
    var after := Composed(cfg, pod, rootName, jvmRootName);
    var mount := BundleMount(cfg, pod.meta);
    ComposedContainers(cfg, pod, rootName, jvmRootName);
    assert after.initContainers == [InitContainer(cfg, pod.meta)] + MountAll(pod.initContainers, mount);
    assert after.volumes == pod.volumes + AddedVolumes(cfg, pod, rootName, jvmRootName);
  }

  function RootName(c: Cluster, pod: PodValue): string {
    match RootOf(c, AsObject(pod.meta))
    case Root(root) => root.name
    case _ => ""
  }

  /** A reported mutation is the complete one. */
  lemma MutatedIsComplete(cfg: Config, first: Cluster, second: Cluster, pod: PodValue)
    requires Inject(cfg, first, second, pod).0 == Mutated
    ensures RootOf(first, AsObject(pod.meta)).Root?
    ensures WantsJvm(cfg, pod) ==> RootOf(second, AsObject(pod.meta)).Root?
    ensures Complete(cfg, pod, Inject(cfg, first, second, pod).1, RootName(first, pod), RootName(second, pod))
  {
    JvmGuard(cfg, pod, RootName(first, pod));
    ComposedIsComplete(cfg, pod, RootName(first, pod), RootName(second, pod));
  }

  // ------------------------------------------------------------------ all or nothing

  /** The call goes as far as the owner lookup. */
  predicate LooksUp(cfg: Config, review: Review, pod: PodValue) {
    Applies(cfg, review, pod.meta) && !HasInitContainer(pod)
  }

  /** The one way to leave a pod half mutated: the second lookup fails after the first succeeded. */
  predicate SecondLookupLost(cfg: Config, review: Review, first: Cluster, second: Cluster, pod: PodValue) {
    && LooksUp(cfg, review, pod)
    && RootOf(first, AsObject(pod.meta)).Root?
    && WellFormedExtras(cfg, pod.meta)
    && WantsJvm(cfg, pod)
    && !RootOf(second, AsObject(pod.meta)).Root?
  }

  lemma ReportedChangesPod(cfg: Config, first: Cluster, second: Cluster, pod: PodValue)
    requires Inject(cfg, first, second, pod).0 == Mutated
    ensures Inject(cfg, first, second, pod).1 != pod
  {
    MutatedIsComplete(cfg, first, second, pod);
    assert |Inject(cfg, first, second, pod).1.initContainers| > |pod.initContainers|;
  }

  lemma UnreportedKeepsPod(cfg: Config, first: Cluster, second: Cluster, pod: PodValue)
    requires Inject(cfg, first, second, pod).0 != Mutated
    ensures Inject(cfg, first, second, pod).1 != pod <==>
              && !HasInitContainer(pod)
              && RootOf(first, AsObject(pod.meta)).Root?
              && WellFormedExtras(cfg, pod.meta)
              && WantsJvm(cfg, pod)
              && !RootOf(second, AsObject(pod.meta)).Root?
    ensures Inject(cfg, first, second, pod).0 != Warned(WARN_PYTHON)
  {
    if WellFormedExtras(cfg, pod.meta) {
      JvmGuard(cfg, pod, RootName(first, pod));
      assert |AddCa(cfg, pod, RootName(first, pod)).volumes| > |pod.volumes|;
    }
  }

  /** Unless the mutation is reported, the pod is as it was, except exactly when the second lookup is lost. The
      warning about Python never occurs. */
  lemma AllOrNothing(cfg: Config, review: Review, first: Cluster, second: Cluster, pod: PodValue)
    ensures var (outcome, after) := Admit(cfg, review, first, second, pod);
            && (outcome == Mutated ==> after != pod)
            && (outcome != Mutated ==>
                  (after != pod <==> SecondLookupLost(cfg, review, first, second, pod)))
            && outcome != Warned(WARN_PYTHON)
  {
    if Inject(cfg, first, second, pod).0 == Mutated {
      ReportedChangesPod(cfg, first, second, pod);
    } else {
      UnreportedKeepsPod(cfg, first, second, pod);
    }
  }

  /** Unless the mutator panics or does not end, it mutates the pod exactly when it looks for the root and neither
      lookup that it makes is lost. */
  lemma MutatedUnlessLost(cfg: Config, review: Review, first: Cluster, second: Cluster, pod: PodValue)
    requires var outcome := Admit(cfg, review, first, second, pod).0; !outcome.Panicked? && !outcome.Overflowed?
    ensures Admit(cfg, review, first, second, pod).0 == Mutated <==>
              && LooksUp(cfg, review, pod)
              && RootOf(first, AsObject(pod.meta)).Root?
              && (WantsJvm(cfg, pod) ==> RootOf(second, AsObject(pod.meta)).Root?)
  {
    if RootOf(first, AsObject(pod.meta)).Root? && WellFormedExtras(cfg, pod.meta) {
      JvmGuard(cfg, pod, RootName(first, pod));
    }
  }

  /** On a cluster that does not change during the call, the mutation happens exactly when it applies, the pod
      was not mutated before, its root can be found and every extra entry has a slash; an entry without one
      ends in the index panic, and the other failures leave a warning. */
  lemma StableOutcome(cfg: Config, review: Review, c: Cluster, pod: PodValue)
    ensures var (outcome, after) := Admit(cfg, review, c, c, pod);
            var found := LooksUp(cfg, review, pod) && Fetchable(c, AsObject(pod.meta)) && Acyclic(c, AsObject(pod.meta));
            var slashes := forall entry :: entry in cfg.extractor.ExtraSecrets(pod.meta) ==> '/' in entry;
            && (outcome == Mutated <==> found && slashes)
            && (outcome == Panicked <==> found && !slashes)
            && (after != pod <==> outcome == Mutated)
  {
    AllOrNothing(cfg, review, c, c, pod);
    SucceedsExactly(c, AsObject(pod.meta));
    forall entry | entry in cfg.extractor.ExtraSecrets(pod.meta)
      ensures WellFormedEntry(entry) <==> '/' in entry
    {
      Text.SplitHasSecond(entry, '/');
    }
    if RootOf(c, AsObject(pod.meta)).Root? && WellFormedExtras(cfg, pod.meta) {
      JvmGuard(cfg, pod, RootOf(c, AsObject(pod.meta)).ref.name);
    }
  }

  // ------------------------------------------------------------------ idempotence

  datatype Call = Call(review: Review, first: Cluster, second: Cluster)

  /** A sequence of Mutate calls on one pod. */
  function AdmitAll(cfg: Config, calls: seq<Call>, pod: PodValue): (seq<Outcome>, PodValue) {
    if |calls| == 0 then ([], pod)
    else
      var (outcome, after) := Admit(cfg, calls[0].review, calls[0].first, calls[0].second, pod);
      var (outcomes, last) := AdmitAll(cfg, calls[1..], after);
      ([outcome] + outcomes, last)
  }

  /** The answer to a call for a pod that is already mutated. */
  function QuietOutcome(cfg: Config, review: Review, meta: Meta): Outcome {
    if review.cancelled then Errored
    else if !cfg.extractor.IsInjectionEnabled(meta) || review.namespace == "kube-system" then Untouched
    else if !review.isPod then Warned(WARN_NOT_POD)
    else Warned(WARN_ALREADY)
  }

  lemma {:induction false} AlreadyMutatedStays(cfg: Config, calls: seq<Call>, pod: PodValue)
    requires HasInitContainer(pod)
    ensures var (outcomes, last) := AdmitAll(cfg, calls, pod);
            && last == pod
            && |outcomes| == |calls|
            && forall i :: 0 <= i < |calls| ==> outcomes[i] == QuietOutcome(cfg, calls[i].review, pod.meta)
  {
    if |calls| > 0 {
      AlreadyMutatedStays(cfg, calls[1..], pod);
      var outcomes, rest := AdmitAll(cfg, calls, pod).0, AdmitAll(cfg, calls[1..], pod).0;
      assert forall i :: 1 <= i < |calls| ==> outcomes[i] == rest[i - 1] && calls[i] == calls[1..][i - 1];
    }
  }

  lemma MutatedHasInitContainer(cfg: Config, first: Cluster, second: Cluster, pod: PodValue)
    requires Inject(cfg, first, second, pod).0 == Mutated
    ensures HasInitContainer(Inject(cfg, first, second, pod).1)
    ensures Inject(cfg, first, second, pod).1.meta == pod.meta
  {
    MutatedIsComplete(cfg, first, second, pod);
    assert Inject(cfg, first, second, pod).1.initContainers[0].name == INIT_CONTAINER_NAME;
  }

  /** After a reported mutation, no further calls under any clusters change the pod, and each of them that
      reaches it only warns. */
  lemma MutationIsIdempotent(cfg: Config, review: Review, first: Cluster, second: Cluster, pod: PodValue,
                             after: PodValue, calls: seq<Call>)
    requires Admit(cfg, review, first, second, pod) == (Mutated, after)
    ensures var (outcomes, last) := AdmitAll(cfg, calls, after);
            && last == after
            && |outcomes| == |calls|
            && forall i :: 0 <= i < |calls| ==> outcomes[i] == QuietOutcome(cfg, calls[i].review, pod.meta)
  {
    assert HasInitContainer(after) && after.meta == pod.meta by {
      MutatedHasInitContainer(cfg, first, second, pod);
    }
    AlreadyMutatedStays(cfg, calls, after);
  }

  // ------------------------------------------------------------------ referential integrity

  ghost predicate MountsNamed(containers: seq<Container>, volumes: seq<Volume>) {
    forall i, mount :: 0 <= i < |containers| && mount in containers[i].mounts ==> Named(volumes, mount.name)
  }

  /** Every mount of the pod names one of these volumes. */
  ghost predicate MountsResolve(pod: PodValue, volumes: seq<Volume>) {
    MountsNamed(pod.initContainers, volumes) && MountsNamed(pod.containers, volumes)
  }

  lemma AddedMountsNamed(cfg: Config, pod: PodValue, volumes: seq<Volume>, rootName: string, jvmRootName: string)
    requires WellFormedExtras(cfg, pod.meta)
    requires volumes == pod.volumes + AddedVolumes(cfg, pod, rootName, jvmRootName)
    ensures forall mount :: mount in AddedMounts(cfg, pod) ==> Named(volumes, mount.name)
    ensures forall mount :: mount in InitContainer(cfg, pod.meta).mounts ==> Named(volumes, mount.name)
    ensures forall name :: Named(pod.volumes, name) ==> Named(volumes, name)
  {
    var n := |pod.volumes|;
    assert volumes[n].name == cfg.extractor.SecretVolumeName(pod.meta);
    assert volumes[n + 1].name == cfg.extractor.CaVolumeName(pod.meta);
    if WantsJvm(cfg, pod) {
      assert volumes[n + 2].name == TRUSTSTORE_VOLUME_NAME;
    }
    forall name | Named(pod.volumes, name)
      ensures Named(volumes, name)
    {
      var i :| 0 <= i < n && pod.volumes[i].name == name;
      assert volumes[i].name == name;
    }
  }

  lemma MountsWhenComplete(cfg: Config, pod: PodValue, after: PodValue, rootName: string, jvmRootName: string)
    requires Complete(cfg, pod, after, rootName, jvmRootName)
    ensures MountsResolve(after, after.volumes) <==> MountsResolve(pod, after.volumes)
    ensures MountsResolve(pod, pod.volumes) ==> MountsResolve(after, after.volumes)
  {
    AddedMountsNamed(cfg, pod, after.volumes, rootName, jvmRootName);
    assert BundleMount(cfg, pod.meta) == AddedMounts(cfg, pod)[0];
    forall i, mount | 0 <= i < |pod.initContainers|
      ensures mount in after.initContainers[i + 1].mounts <==>
                mount in pod.initContainers[i].mounts || mount == BundleMount(cfg, pod.meta)
    {
    }
    forall i, mount | 0 <= i < |pod.containers|
      ensures mount in after.containers[i].mounts <==>
                mount in pod.containers[i].mounts || mount in AddedMounts(cfg, pod)
    {
    }
    assert MountsNamed(after.containers, after.volumes) <==> MountsNamed(pod.containers, after.volumes);
    if MountsNamed(pod.initContainers, after.volumes) {
      forall i, mount | 0 <= i < |after.initContainers| && mount in after.initContainers[i].mounts
        ensures Named(after.volumes, mount.name)
      {
        if i > 0 {
          assert mount in pod.initContainers[i - 1].mounts || mount == BundleMount(cfg, pod.meta);
        }
      }
    }
  }

  /** All mounts are declared after a mutation exactly when every old mount names an old volume or an added one;
      in particular a pod whose mounts were all declared keeps that property. */
  lemma MountsResolveExactly(cfg: Config, first: Cluster, second: Cluster, pod: PodValue, after: PodValue)
    requires Inject(cfg, first, second, pod) == (Mutated, after)
    ensures MountsResolve(after, after.volumes) <==> MountsResolve(pod, after.volumes)
    ensures MountsResolve(pod, pod.volumes) ==> MountsResolve(after, after.volumes)
  {
    MutatedIsComplete(cfg, first, second, pod);
    MountsWhenComplete(cfg, pod, after, RootName(first, pod), RootName(second, pod));
  }

  ghost predicate UniqueNames(volumes: seq<Volume>) {
    forall i, j :: 0 <= i < j < |volumes| ==> volumes[i].name != volumes[j].name
  }

  /** Adding a volume keeps names unique exactly when its name is new. */
  lemma UniqueSnoc(volumes: seq<Volume>, volume: Volume)
    ensures UniqueNames(volumes + [volume]) <==> UniqueNames(volumes) && !Named(volumes, volume.name)
    ensures forall name :: Named(volumes + [volume], name) <==> Named(volumes, name) || name == volume.name
  {
    var longer := volumes + [volume];
    assert longer[|volumes|] == volume;
    assert forall i :: 0 <= i < |volumes| ==> longer[i] == volumes[i];
  }

  /** What it takes to add the CA volumes and the truststore with unique names. */
  ghost predicate NamesAreFree(cfg: Config, pod: PodValue) {
    && UniqueNames(pod.volumes)
    && cfg.extractor.SecretVolumeName(pod.meta) != cfg.extractor.CaVolumeName(pod.meta)
    && !Named(pod.volumes, cfg.extractor.SecretVolumeName(pod.meta))
    && !Named(pod.volumes, cfg.extractor.CaVolumeName(pod.meta))
  }

  lemma NamesWhenAdded(cfg: Config, pod: PodValue, rootName: string, jvmRootName: string)
    requires WellFormedExtras(cfg, pod.meta)
    ensures UniqueNames(pod.volumes + AddedVolumes(cfg, pod, rootName, jvmRootName)) <==> NamesAreFree(cfg, pod)
  {
    var added := AddedVolumes(cfg, pod, rootName, jvmRootName);
    var one := pod.volumes + [added[0]];
    var two := one + [added[1]];
    UniqueSnoc(pod.volumes, added[0]);
    UniqueSnoc(one, added[1]);
    if WantsJvm(cfg, pod) {
      UniqueSnoc(two, added[2]);
      assert pod.volumes + added == two + [added[2]];
    } else {
      assert pod.volumes + added == two;
    }
  }

  /** Volume names are unique after a mutation exactly when the old names and the two CA volume names were; the
      truststore needs no assumption. */
  lemma UniqueNamesExactly(cfg: Config, first: Cluster, second: Cluster, pod: PodValue, after: PodValue)
    requires Inject(cfg, first, second, pod) == (Mutated, after)
    ensures UniqueNames(after.volumes) <==> NamesAreFree(cfg, pod)
  {
    MutatedIsComplete(cfg, first, second, pod);
    NamesWhenAdded(cfg, pod, RootName(first, pod), RootName(second, pod));
  }

  // ------------------------------------------------------------------ projected sources

  /** The file a source is projected to. */
  function FileOf(source: Projection): string
    requires |source.items| > 0
  {
    source.items[0].path
  }

  lemma PathsDiffer(i: nat, j: nat)
    ensures DefaultPath(i) != ExtraPath(j)
    ensures i != j ==> DefaultPath(i) != DefaultPath(j) && ExtraPath(i) != ExtraPath(j)
  {
    assert DefaultPath(i)[9] == 'c' && ExtraPath(j)[9] == 'e';
    Unpad("injected_ca-", i, j);
    Unpad("injected_extra_ca-", i, j);
  }

  lemma Unpad(prefix: string, i: nat, j: nat)
    ensures prefix + Text.Decimal(i) + ".crt" == prefix + Text.Decimal(j) + ".crt" ==> i == j
  {
    var s, t := prefix + Text.Decimal(i) + ".crt", prefix + Text.Decimal(j) + ".crt";
    if s == t {
      assert Text.Decimal(i) == s[|prefix|..|s| - 4];
      assert Text.Decimal(j) == t[|prefix|..|t| - 4];
      Text.DecimalInjective(i, j);
    }
  }

  /** The entry is the name, a slash and the key, up to its end or a second slash; neither half holds one. */
  predicate Halves(entry: string, name: string, key: string) {
    var prefix := name + "/" + key;
    && '/' !in name && '/' !in key
    && prefix <= entry
    && (prefix == entry || entry[|prefix|] == '/')
  }

  lemma SplitHalves(entry: string)
    requires WellFormedEntry(entry)
    ensures Halves(entry, Text.Split(entry, '/')[0], Text.Split(entry, '/')[1])
  {
    var halves := Text.Split(entry, '/');
    Text.JoinOfSplit(entry, '/');
    var prefix, rest := halves[0] + "/" + halves[1], halves[1..];
    assert rest[0] == halves[1];
    assert entry == halves[0] + ['/'] + Text.Join(rest, '/');
    if |halves| == 2 {
      assert entry == prefix;
    } else {
      assert entry == prefix + ['/'] + Text.Join(rest[1..], '/');
    }
  }

  lemma FilesAreDistinct(cfg: Config, meta: Meta, rootName: string)
    requires WellFormedExtras(cfg, meta)
    ensures var sources := Sources(cfg, meta, rootName);
            && (forall i :: 0 <= i < |sources| ==> |sources[i].items| == 1)
            && (forall i, j :: 0 <= i < j < |sources| ==> FileOf(sources[i]) != FileOf(sources[j]))
  {
    var sources, keys := Sources(cfg, meta, rootName), cfg.caSecret.keys;
    forall i, j | 0 <= i < j < |sources|
      ensures FileOf(sources[i]) != FileOf(sources[j])
    {
      if j < |keys| {
        PathsDiffer(i, j);
      } else if i < |keys| {
        PathsDiffer(i, j - |keys|);
      } else {
        PathsDiffer(i - |keys|, j - |keys|);
      }
    }
  }

  /** The sources are the default keys and then the extra entries, in order and complete, each projected to a
      file of its own. */
  lemma SourcesAreComplete(cfg: Config, meta: Meta, rootName: string)
    requires WellFormedExtras(cfg, meta)
    ensures var sources := Sources(cfg, meta, rootName);
            var keys, extras := cfg.caSecret.keys, cfg.extractor.ExtraSecrets(meta);
            && |sources| == |keys| + |extras|
            && (forall i :: 0 <= i < |sources| ==> |sources[i].items| == 1)
            && (forall i :: 0 <= i < |keys| ==>
                  sources[i].secret == CaSecretName(cfg.caSecret, rootName) && sources[i].items[0].key == keys[i])
            && (forall i :: 0 <= i < |extras| ==>
                  Halves(extras[i], sources[|keys| + i].secret, sources[|keys| + i].items[0].key))
            && (forall i, j :: 0 <= i < j < |sources| ==> FileOf(sources[i]) != FileOf(sources[j]))
  {
    var sources := Sources(cfg, meta, rootName);
    var keys, extras := cfg.caSecret.keys, cfg.extractor.ExtraSecrets(meta);
    FilesAreDistinct(cfg, meta, rootName);
    forall i: nat | i < |keys|
      ensures sources[i].secret == CaSecretName(cfg.caSecret, rootName) && sources[i].items[0].key == keys[i]
    {
      assert sources[i] == DefaultSource(cfg.caSecret, rootName, i);
    }
    forall i: nat | i < |extras|
      ensures Halves(extras[i], sources[|keys| + i].secret, sources[|keys| + i].items[0].key)
    {
      ExtraIsHalved(cfg, meta, rootName, i);
    }
  }

  lemma ExtraIsHalved(cfg: Config, meta: Meta, rootName: string, i: nat)
    requires WellFormedExtras(cfg, meta) && i < |cfg.extractor.ExtraSecrets(meta)|
    ensures var sources, n := Sources(cfg, meta, rootName), |cfg.caSecret.keys| + i;
            && n < |sources|
            && |sources[n].items| == 1
            && Halves(cfg.extractor.ExtraSecrets(meta)[i], sources[n].secret, sources[n].items[0].key)
  {
    var entry := cfg.extractor.ExtraSecrets(meta)[i];
    assert Sources(cfg, meta, rootName)[|cfg.caSecret.keys| + i] == ExtraSource(entry, i);
    SplitHalves(entry);
  }

  /** The documented format of the extra secrets. */
  function PrintExtras(pairs: seq<(string, string)>): string {
    Text.Join(seq(|pairs|, i requires 0 <= i < |pairs| => pairs[i].0 + "/" + pairs[i].1), ',')
  }

  ghost predicate SeparatorFree(pairs: seq<(string, string)>) {
    forall i :: 0 <= i < |pairs| ==>
      '/' !in pairs[i].0 && ',' !in pairs[i].0 && '/' !in pairs[i].1 && ',' !in pairs[i].1
  }

  /** A printed list of pairs comes back as exactly those pairs, in order, exactly when the list is not empty:
      the empty list prints as an empty annotation, whose one entry has no slash. */
  lemma ExtrasRoundTrip(cfg: Config, meta: Meta, rootName: string, pairs: seq<(string, string)>)
    requires SeparatorFree(pairs)
    requires cfg.extractor.Annotation(meta, "extra-ca-secrets") == Some(PrintExtras(pairs))
    ensures WellFormedExtras(cfg, meta) <==> pairs != []
    ensures pairs != [] ==>
      var sources := Sources(cfg, meta, rootName);
      && |sources| == |cfg.caSecret.keys| + |pairs|
      && forall i :: 0 <= i < |pairs| ==>
           var source := sources[|cfg.caSecret.keys| + i];
           source.secret == pairs[i].0 && source.items == [KeyToPath(pairs[i].1, ExtraPath(i))]
  {
    var entries := seq(|pairs|, i requires 0 <= i < |pairs| => pairs[i].0 + "/" + pairs[i].1);
    var extras := cfg.extractor.ExtraSecrets(meta);
    if pairs == [] {
      assert extras == [""];
      assert "" in extras && Text.Split("", '/') == [""];
    } else {
      Text.SplitOfJoin(entries, ',');
      assert extras == entries;
      forall i | 0 <= i < |pairs|
        ensures Text.Split(extras[i], '/') == [pairs[i].0, pairs[i].1]
      {
        Text.SplitPrefix(pairs[i].0, pairs[i].1, '/');
        Text.SplitFree(pairs[i].1, '/');
        assert extras[i] == pairs[i].0 + ['/'] + pairs[i].1;
      }
    }
  }

  // ------------------------------------------------------------------ environment

  function Count(env: seq<EnvVar>, name: string): nat {
    if |env| == 0 then 0 else (if env[0].name == name then 1 else 0) + Count(env[1..], name)
  }

  lemma {:induction false} CountConcat(a: seq<EnvVar>, b: seq<EnvVar>, name: string)
    ensures Count(a + b, name) == Count(a, name) + Count(b, name)
  {
    if |a| == 0 {
      assert a + b == b;
    } else {
      CountConcat(a[1..], b, name);
      assert (a + b)[1..] == a[1..] + b;
    }
  }

  /** The position of the first variable of a name, or the length without one. */
  function FirstIndex(env: seq<EnvVar>, name: string): (j: nat)
    ensures j <= |env|
    ensures j < |env| ==> env[j].name == name
    ensures forall k :: 0 <= k < j ==> env[k].name != name
  {
    if |env| == 0 || env[0].name == name then 0 else FirstIndex(env[1..], name) + 1
  }

  /** The first variable of the name carries the options after its old value, and every other entry keeps its
      place and value. */
  lemma {:induction false} JvmEnvLaw(env: seq<EnvVar>, name: string, options: string)
    ensures var updated, j := JvmEnv(env, name, options), FirstIndex(env, name);
            && |updated| == (if j < |env| then |env| else |env| + 1)
            && updated[j].name == name
            && updated[j].value == (if j < |env| then env[j].value + " " + options else options)
            && forall k :: 0 <= k < |env| && k != j ==> updated[k] == env[k]
  {
    if |env| > 0 && env[0].name != name {
      JvmEnvLaw(env[1..], name, options);
      var updated, rest := JvmEnv(env, name, options), JvmEnv(env[1..], name, options);
      assert updated == [env[0]] + rest;
      assert forall k :: 1 <= k < |env| ==> env[k] == env[1..][k - 1];
    }
  }

  /** There is at least one variable of the name afterwards, and otherwise as many of each name as before. */
  lemma {:induction false} JvmEnvCount(env: seq<EnvVar>, name: string, options: string, counted: string)
    ensures Count(JvmEnv(env, name, options), counted)
         == if counted == name && Count(env, name) == 0 then 1 else Count(env, counted)
  {
    if |env| > 0 {
      var updated := JvmEnv(env, name, options);
      if env[0].name == name {
        assert updated[1..] == env[1..];
      } else {
        JvmEnvCount(env[1..], name, options, counted);
        assert updated[1..] == JvmEnv(env[1..], name, options);
      }
    }
  }

  /** How often a container ends up with the JVM variable, whatever it is called. */
  lemma FinalEnvCount(cfg: Config, pod: PodValue, env: seq<EnvVar>)
    ensures var name := cfg.jvmEnvVariable;
            var python := name in {"REQUESTS_CA_BUNDLE", "SSL_CERT_FILE"} && cfg.extractor.IsPythonEnabled(pod.meta);
            Count(FinalEnv(cfg, pod, env), name)
            == (if WantsJvm(cfg, pod) && Count(env, name) == 0 then 1 else Count(env, name)) + (if python then 1 else 0)
  {
    var name := cfg.jvmEnvVariable;
    var updated :=
      if WantsJvm(cfg, pod) then JvmEnv(env, name, TruststoreOptions(cfg, pod.meta)) else env;
    JvmEnvCount(env, name, TruststoreOptions(cfg, pod.meta), name);
    var added := if cfg.extractor.IsPythonEnabled(pod.meta) then PythonEnv(cfg, pod.meta) else [];
    CountConcat(updated, added, name);
    if |added| > 0 {
      assert Count(added[1..], name) == if name == "SSL_CERT_FILE" then 1 else 0;
    }
  }

  /** With JVM injection the first variable of the configured name carries the options after its old value, and a
      new one carries them if there was none; every other old entry keeps its place and value. */
  ghost predicate EnvUpdated(cfg: Config, pod: PodValue, before: seq<EnvVar>, env: seq<EnvVar>) {
    var name, options := cfg.jvmEnvVariable, TruststoreOptions(cfg, pod.meta);
    var j := FirstIndex(before, name);
    && |before| <= |env|
    && (forall k :: 0 <= k < |before| && (k != j || !WantsJvm(cfg, pod)) ==> env[k] == before[k])
    && (WantsJvm(cfg, pod) ==>
          && j < |env|
          && env[j].name == name
          && env[j].value == if j < |before| then before[j].value + " " + options else options)
  }

  lemma FinalEnvUpdated(cfg: Config, pod: PodValue, before: seq<EnvVar>)
    ensures EnvUpdated(cfg, pod, before, FinalEnv(cfg, pod, before))
  {
    JvmEnvLaw(before, cfg.jvmEnvVariable, TruststoreOptions(cfg, pod.meta));
  }

  /** The environment of a container of a mutated pod: its entries, and how many variables of the JVM name there
      are, whatever it is called. */
  lemma EnvironmentLaw(cfg: Config, first: Cluster, second: Cluster, pod: PodValue, after: PodValue, i: nat)
    requires Inject(cfg, first, second, pod) == (Mutated, after) && i < |pod.containers|
    ensures |after.containers| == |pod.containers|
    ensures EnvUpdated(cfg, pod, pod.containers[i].env, after.containers[i].env)
    ensures var name, before := cfg.jvmEnvVariable, pod.containers[i].env;
            var python := name in {"REQUESTS_CA_BUNDLE", "SSL_CERT_FILE"} && cfg.extractor.IsPythonEnabled(pod.meta);
            Count(after.containers[i].env, name)
            == (if WantsJvm(cfg, pod) && Count(before, name) == 0 then 1 else Count(before, name))
               + (if python then 1 else 0)
  {
    var before := pod.containers[i].env;
    assert |after.containers| == |pod.containers| && after.containers[i].env == FinalEnv(cfg, pod, before) by {
      MutatedIsComplete(cfg, first, second, pod);
    }
    FinalEnvUpdated(cfg, pod, before);
    FinalEnvCount(cfg, pod, before);
  }

  // ------------------------------------------------------------------ concrete pods

  /** A pod that asks for JVM injection, owned by a job. */
  function JvmPod(extractor: Extractor): PodValue {
    PodValue(
      Meta("pod", map[extractor.Tag("enabled") := "true"], map[extractor.Tag("jvm") := "true"], [JOB_A]), [], [], [])
  }

  /** If the job is gone at the second lookup, this pod is left half mutated. */
  lemma JobVanishes(cfg: Config, review: Review)
    requires Applies(cfg, review, JvmPod(cfg.extractor).meta)
    ensures var pod := JvmPod(cfg.extractor);
            var (outcome, after) := Admit(cfg, review, map[Target(JOB_A) := Object("a", [])], map[], pod);
            outcome == Warned(WARN_JVM) && after != pod
  {
    var pod := JvmPod(cfg.extractor);
    var first: Cluster, second: Cluster := map[Target(JOB_A) := Object("a", [])], map[];
    assert |cfg.extractor.Tag("jvm")| != |cfg.extractor.Tag("extra-ca-secrets")|;
    assert |cfg.extractor.Tag("jvm")| != |cfg.extractor.Tag("ca-volume-name")|;
    assert |cfg.extractor.Tag("jvm")| != |cfg.extractor.Tag("secret-volume-name")|;
    assert |"ca"| != |TRUSTSTORE_VOLUME_NAME| && |"ca-certs"| != |TRUSTSTORE_VOLUME_NAME|;
    assert AsObject(pod.meta).owners[1..] == [];
    assert Resolve(first, first[Target(JOB_A)], Some(JOB_A), |first|) == Root(JOB_A);
    assert Scan(first, [JOB_A], None, |first|) == Root(JOB_A);
    assert RootOf(first, AsObject(pod.meta)) == Root(JOB_A);
    assert RootOf(second, AsObject(pod.meta)) == Failed(GetFailed(JOB_A));
    AllOrNothing(cfg, review, first, second, pod);
  }

  /** An empty annotation of extra secrets makes the mutator index out of range, for any pod without owners. */
  lemma EmptyAnnotationPanics(cfg: Config, review: Review, c: Cluster, name: string)
    requires var pod := PodValue(Meta(name, map[cfg.extractor.Tag("enabled") := "true"],
                                      map[cfg.extractor.Tag("extra-ca-secrets") := ""], []), [], [], []);
             Applies(cfg, review, pod.meta)
    ensures var pod := PodValue(Meta(name, map[cfg.extractor.Tag("enabled") := "true"],
                                     map[cfg.extractor.Tag("extra-ca-secrets") := ""], []), [], [], []);
            Admit(cfg, review, c, c, pod) == (Panicked, pod)
  {
    var meta := Meta(name, map[cfg.extractor.Tag("enabled") := "true"],
                     map[cfg.extractor.Tag("extra-ca-secrets") := ""], []);
    assert PrintExtras([]) == "";
    ExtrasRoundTrip(cfg, meta, name, []);
  }
}
