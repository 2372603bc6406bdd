/** The mutating webhook: webhook/mutator.go. Each call of rootOwner sees its own snapshot of the cluster. */
module Mutator {
  import opened Wrappers
  import opened Metadata
  import opened Pods
  import opened Injection
  import opened Owners
  import Text

  /** What an admission review tells a webhook. `isPod` is the outcome of the type assertion and `cancelled`
      whether the context is done. */
  datatype Review = Review(
    namespace: string,
    operation: Operation,
    dryRun: bool,
    isPod: bool,
    cancelled: bool)

  datatype Operation = Create | Delete | Update | Connect

  /** Mutated is a result with a MutatedObject, Untouched an empty result, Errored an error return. Panicked is
      an index out of range and Overflowed an owner recursion without end. */
  datatype Outcome = Errored | Untouched | Warned(warning: string) | Mutated | Panicked | Overflowed

  const WARN_NOT_POD := "Provided resource was not a Pod"
  const WARN_ALREADY := "Pod already mutated for CA injection"
  const WARN_CA := "adding CA secret volumes failed"
  const WARN_JVM := "adding JVM secret and ENV failed"
  const WARN_PYTHON := "adding Python ENV failed"

  // ------------------------------------------------------------------ specification

  /** injectCA on values: `first` is the cluster that addCASecretVolumes sees, `second` the one that
      addJVMSecretAndEnv sees. */
  function Inject(cfg: Config, first: Cluster, second: Cluster, pod: PodValue): (Outcome, PodValue) {
    if HasInitContainer(pod) then (Warned(WARN_ALREADY), pod)
    else
      match RootOf(first, AsObject(pod.meta))
      case TooDeep => (Overflowed, pod)
      case Failed(_) => (Warned(WARN_CA), pod)
      case Root(root) =>
        if !WellFormedExtras(cfg, pod.meta) then (Panicked, pod)
        else
          var withCa := AddCa(cfg, pod, root.name);
          if !ShouldAddJvm(cfg, withCa) then Finish(cfg, withCa)
          else
            match RootOf(second, AsObject(pod.meta))
            case TooDeep => (Overflowed, withCa)
            case Failed(_) => (Warned(WARN_JVM), withCa)
            case Root(jvmRoot) => Finish(cfg, AddJvm(cfg, withCa, jvmRoot.name))
  }

  function Finish(cfg: Config, pod: PodValue): (Outcome, PodValue) {
    (Mutated, if cfg.extractor.IsPythonEnabled(pod.meta) then AddPython(cfg, pod) else pod)
  }

  predicate Applies(cfg: Config, review: Review, meta: Meta) {
    && !review.cancelled
    && cfg.extractor.IsInjectionEnabled(meta)
    && review.namespace != "kube-system"
    && review.isPod
  }

  /** Mutate on values. */
  function Admit(cfg: Config, review: Review, first: Cluster, second: Cluster, pod: PodValue): (Outcome, PodValue) {
    if review.cancelled then (Errored, pod)
    else if !cfg.extractor.IsInjectionEnabled(pod.meta) then (Untouched, pod)
    else if review.namespace == "kube-system" then (Untouched, pod)
    else if !review.isPod then (Warned(WARN_NOT_POD), pod)
    else Inject(cfg, first, second, pod)
  }

  // ------------------------------------------------------------------ the program

  method Mutate(cfg: Config, review: Review, first: Cluster, second: Cluster, pod: Pod) returns (outcome: Outcome)
    requires !Admit(cfg, review, first, second, pod.Value()).0.Overflowed?
    modifies pod
    ensures (outcome, pod.Value()) == Admit(cfg, review, first, second, old(pod.Value()))
  {
    if review.cancelled {
      return Errored;
    }
    if !cfg.extractor.IsInjectionEnabled(pod.meta) {
      return Untouched;
    }
    if review.namespace == "kube-system" {
      return Untouched;
    }
    if !review.isPod {
      return Warned(WARN_NOT_POD);
    }
    outcome := InjectCa(cfg, first, second, pod);
  }

  method InjectCa(cfg: Config, first: Cluster, second: Cluster, pod: Pod) returns (outcome: Outcome)
    requires !Inject(cfg, first, second, pod.Value()).0.Overflowed?
    modifies pod
    ensures (outcome, pod.Value()) == Inject(cfg, first, second, old(pod.Value()))
  {
    for i := 0 to |pod.initContainers|
      invariant pod.Value() == old(pod.Value())
      invariant forall k :: 0 <= k < i ==> pod.initContainers[k].name != INIT_CONTAINER_NAME
    {
      if pod.initContainers[i].name == INIT_CONTAINER_NAME {
        return Warned(WARN_ALREADY);
      }
    }
    var added := AddCaSecretVolumes(cfg, first, pod);
    match added {
      case NotAdded => return Warned(WARN_CA);
      case Crashed => return Panicked;
      case Added =>
    }
    var jvm := ShouldAddJvmCa(cfg, pod);
    if jvm {
      var ok := AddJvmSecretAndEnv(cfg, second, pod);
      if !ok {
        return Warned(WARN_JVM);
      }
    }
    if cfg.extractor.IsPythonEnabled(pod.meta) {
      var ok := AddPythonEnv(cfg, pod);
      if !ok {
        return Warned(WARN_PYTHON);
      }
    }
    return Mutated;
  }

  datatype Addition = Added | NotAdded | Crashed

  method AddCaSecretVolumes(cfg: Config, c: Cluster, pod: Pod) returns (result: Addition)
    requires !RootOf(c, AsObject(pod.meta)).TooDeep?
    modifies pod
    ensures result == (
      if !RootOf(c, AsObject(old(pod.meta))).Root? then NotAdded
      else if !WellFormedExtras(cfg, old(pod.meta)) then Crashed
      else Added)
    ensures result == Added ==>
      pod.Value() == AddCa(cfg, old(pod.Value()), RootOf(c, AsObject(old(pod.meta))).ref.name)
    ensures result != Added ==> pod.Value() == old(pod.Value())
  {
    DepthSuffices(c, AsObject(pod.meta));
    var root := FindRoot(c, AsObject(pod.meta));
    if root.Failed? {
      return NotAdded;
    }
    var volumes := GetCaSecretVolumes(cfg, pod.meta, root.ref.name);
    if volumes.None? {
      return Crashed;
    }
    pod.volumes := pod.volumes + volumes.value;

    var completePath, secretPath, image := "", "", "";
    var family := cfg.extractor.Family(pod.meta);
    if family == DEBIAN {
      secretPath := "/usr/local/share/ca-certificates/injected";
      completePath := "/etc/ssl/certs/";
      image := cfg.debianInitImage;
    } else if family == REDHAT {
      secretPath := "/usr/share/pki/ca-trust-source/anchors";
      completePath := "/etc/pki/ca-trust/extracted";
      image := cfg.redhatInitImage;
    }
    var secretMount := Mount(cfg.extractor.SecretVolumeName(pod.meta), secretPath, true, "");
    var completeMount := Mount(cfg.extractor.CaVolumeName(pod.meta), completePath, false, "");
    var initMount := Mount(cfg.extractor.CaVolumeName(pod.meta), UPDATE_CA_PATH, false, "");
    var initContainer := Container(INIT_CONTAINER_NAME, image, cfg.resources, [secretMount, initMount],
                                   [EnvVar("TMP_CERTS_DIR", UPDATE_CA_PATH, "")], "");
    MountBundle(pod, initContainer, completeMount);
    assert completeMount == BundleMount(cfg, pod.meta) && initContainer == InitContainer(cfg, pod.meta);
    return Added;
  }

  /** The second half of addCASecretVolumes: the loops over the containers. */
  method MountBundle(pod: Pod, initContainer: Container, mount: Mount)
    modifies pod
    ensures pod.meta == old(pod.meta) && pod.volumes == old(pod.volumes)
    ensures pod.initContainers == [initContainer] + MountAll(old(pod.initContainers), mount)
    ensures pod.containers == MountAll(old(pod.containers), mount)
  {
    for i := 0 to |pod.initContainers|
      invariant pod.Value() == old(pod.Value()).(initContainers := pod.initContainers)
      invariant |pod.initContainers| == |old(pod.initContainers)|
      invariant forall k :: 0 <= k < i ==> pod.initContainers[k] == WithMount(old(pod.initContainers)[k], mount)
      invariant forall k :: i <= k < |pod.initContainers| ==> pod.initContainers[k] == old(pod.initContainers)[k]
    {
      var c := pod.initContainers[i];
      pod.initContainers := pod.initContainers[i := c.(mounts := c.mounts + [mount])];
    }
    assert pod.initContainers == MountAll(old(pod.initContainers), mount);
    pod.initContainers := [initContainer] + pod.initContainers;
    label withInit:

    for i := 0 to |pod.containers|
      invariant pod.Value() == old@withInit(pod.Value()).(containers := pod.containers)
      invariant |pod.containers| == |old(pod.containers)|
      invariant forall k :: 0 <= k < i ==> pod.containers[k] == WithMount(old(pod.containers)[k], mount)
      invariant forall k :: i <= k < |pod.containers| ==> pod.containers[k] == old(pod.containers)[k]
    {
      var c := pod.containers[i];
      pod.containers := pod.containers[i := c.(mounts := c.mounts + [mount])];
    }
  }

  /** None is the index out of range of an entry without a slash. */
  method GetCaSecretVolumes(cfg: Config, meta: Meta, rootName: string) returns (volumes: Option<seq<Volume>>)
    ensures volumes.Some? <==> WellFormedExtras(cfg, meta)
    ensures volumes.Some? ==> volumes.value == CaVolumes(cfg, meta, rootName)
  {
    var keys := cfg.caSecret.keys;
    var sources: seq<Projection> := [];
    for i := 0 to |keys|
      invariant |sources| == i
      invariant forall k :: 0 <= k < i ==> sources[k] == DefaultSource(cfg.caSecret, rootName, k)
    {
      sources := sources + [Projection(cfg.caSecret.name + "-" + rootName,
                                       [KeyToPath(keys[i], "injected_ca-" + Text.Decimal(i) + ".crt")])];
    }
    var extras := cfg.extractor.ExtraSecrets(meta);
    for i := 0 to |extras|
      invariant |sources| == |keys| + i
      invariant forall k :: 0 <= k < |keys| ==> sources[k] == DefaultSource(cfg.caSecret, rootName, k)
      invariant forall k :: 0 <= k < i ==>
        WellFormedEntry(extras[k]) && sources[|keys| + k] == ExtraSource(extras[k], k)
    {
      var halves := Text.Split(extras[i], '/');
      if |halves| < 2 {
        assert extras[i] in extras;
        return None;
      }
      sources := sources + [Projection(halves[0],
                                       [KeyToPath(halves[1], "injected_extra_ca-" + Text.Decimal(i) + ".crt")])];
    }
    assert WellFormedExtras(cfg, meta);
    assert sources == Sources(cfg, meta, rootName);
    return Some([Volume(cfg.extractor.SecretVolumeName(meta), Projected(sources, FILE_MODE)),
                 Volume(cfg.extractor.CaVolumeName(meta), EmptyDir)]);
  }

  method ShouldAddJvmCa(cfg: Config, pod: Pod) returns (add: bool)
    ensures add <==> ShouldAddJvm(cfg, pod.Value())
  {
    if !cfg.extractor.IsJvmEnabled(pod.meta) {
      return false;
    }
    add := true;
    for i := 0 to |pod.volumes|
      invariant add <==> forall k :: 0 <= k < i ==> pod.volumes[k].name != TRUSTSTORE_VOLUME_NAME
    {
      if pod.volumes[i].name == TRUSTSTORE_VOLUME_NAME {
        add := false;
      }
    }
  }

  method AddJvmSecretAndEnv(cfg: Config, c: Cluster, pod: Pod) returns (ok: bool)
    requires !RootOf(c, AsObject(pod.meta)).TooDeep?
    modifies pod
    ensures ok <==> RootOf(c, AsObject(old(pod.meta))).Root?
    ensures ok ==> pod.Value() == AddJvm(cfg, old(pod.Value()), RootOf(c, AsObject(old(pod.meta))).ref.name)
    ensures !ok ==> pod.Value() == old(pod.Value())
  {
    DepthSuffices(c, AsObject(pod.meta));
    var root := FindRoot(c, AsObject(pod.meta));
    if root.Failed? {
      return false;
    }
    var (mountPath, file) := cfg.extractor.JvmPath(pod.meta);
    pod.volumes := pod.volumes + [
      Volume(TRUSTSTORE_VOLUME_NAME,
             FromSecret(TruststoreSecretName(root.ref.name), [KeyToPath(file, file)], FILE_MODE))];
    var mount := Mount(TRUSTSTORE_VOLUME_NAME, mountPath, true, "");
    var options := "-Djavax.net.ssl.trustStore=" + cfg.extractor.paths.join(mountPath, file)
                   + " -Djavax.net.ssl.password=" + cfg.extractor.TruststorePassword(pod.meta);
    label withVolume:

    for index := 0 to |pod.containers|
      invariant pod.Value() == old@withVolume(pod.Value()).(containers := pod.containers)
      invariant |pod.containers| == |old(pod.containers)|
      invariant forall k :: 0 <= k < index ==> pod.containers[k] == WithJvm(old(pod.containers)[k], cfg, old(pod.meta))
      invariant forall k :: index <= k < |pod.containers| ==> pod.containers[k] == old(pod.containers)[k]
    {
      AddJvmToContainer(cfg, pod, index, mount, options);
    }
    assert pod.containers == AddJvm(cfg, old(pod.Value()), root.ref.name).containers;
    return true;
  }

  /** The body of the container loop, with the search for the variable and its break. */
  method AddJvmToContainer(cfg: Config, pod: Pod, index: nat, mount: Mount, options: string)
    requires index < |pod.containers|
    modifies pod
    ensures pod.Value() == old(pod.Value()).(containers := old(pod.containers)[index :=
      old(pod.containers)[index].(
        mounts := old(pod.containers)[index].mounts + [mount],
        env := JvmEnv(old(pod.containers)[index].env, cfg.jvmEnvVariable, options))])
  {
    var c := pod.containers[index];
    pod.containers := pod.containers[index := c.(mounts := c.mounts + [mount])];
    var envSet := false;
    var j := 0;
    while j < |pod.containers[index].env|
      invariant !envSet && 0 <= j <= |c.env|
      invariant pod.Value() == old(pod.Value()).(
        containers := old(pod.containers)[index := c.(mounts := c.mounts + [mount])])
      invariant forall k :: 0 <= k < j ==> c.env[k].name != cfg.jvmEnvVariable
    {
      if pod.containers[index].env[j].name == cfg.jvmEnvVariable {
        var variable := pod.containers[index].env[j];
        var env := pod.containers[index].env[j := variable.(value := variable.value + " " + options)];
        pod.containers := pod.containers[index := pod.containers[index].(env := env)];
        envSet := true;
        break;
      }
      j := j + 1;
    }
    JvmEnvAt(c.env, cfg.jvmEnvVariable, options, j);
    if !envSet {
      var env := pod.containers[index].env + [EnvVar(cfg.jvmEnvVariable, options, "")];
      pod.containers := pod.containers[index := pod.containers[index].(env := env)];
    }
  }

  /** JvmEnv by position: j is that of the first variable of the name, or the length if there is none. */
  lemma {:induction false} JvmEnvAt(env: seq<EnvVar>, name: string, options: string, j: nat)
    requires j <= |env| && forall k :: 0 <= k < j ==> env[k].name != name
    ensures j == |env| ==> JvmEnv(env, name, options) == env + [EnvVar(name, options, "")]
    ensures j < |env| && env[j].name == name ==>
      JvmEnv(env, name, options) == env[j := env[j].(value := env[j].value + " " + options)]
  {
    if j > 0 {
      JvmEnvAt(env[1..], name, options, j - 1);
      assert env == [env[0]] + env[1..];
    }
  }

  method AddPythonEnv(cfg: Config, pod: Pod) returns (ok: bool)
    modifies pod
    ensures ok && pod.Value() == AddPython(cfg, old(pod.Value()))
  {
    var file := "";
    var family := cfg.extractor.Family(pod.meta);
    if family == DEBIAN {
      file := "/etc/ssl/certs/ca-certificates.crt";
    } else if family == REDHAT {
      file := "/etc/pki/ca-trust/extracted/ca-bundle.trust.crt";
    } else {
      assert false;
      return false;
    }
    for index := 0 to |pod.containers|
      invariant pod.Value() == old(pod.Value()).(containers := pod.containers)
      invariant |pod.containers| == |old(pod.containers)|
      invariant forall k :: 0 <= k < index ==>
        pod.containers[k] == WithPython(old(pod.containers)[k], cfg, old(pod.meta))
      invariant forall k :: index <= k < |pod.containers| ==> pod.containers[k] == old(pod.containers)[k]
    {
      var c := pod.containers[index];
      c := c.(env := c.env + [EnvVar("REQUESTS_CA_BUNDLE", file, "")]);
      c := c.(env := c.env + [EnvVar("SSL_CERT_FILE", file, "")]);
      pod.containers := pod.containers[index := c];
    }
    assert pod.containers == AddPython(cfg, old(pod.Value())).containers;
    return true;
  }
}
