/** What the mutating webhook makes of a pod, as functions on pod values. */
module Injection {
  import opened Metadata
  import opened Pods
  import opened CASecrets
  import Text

  const INIT_CONTAINER_NAME := "ca-cert-gen"
  const TRUSTSTORE_VOLUME_NAME := "cain-truststore"
  const UPDATE_CA_PATH := "/tmp/ca-certs/"
  const FILE_MODE := 420

  datatype Config = Config(
    extractor: Extractor,
    caSecret: CASecret,
    debianInitImage: string,
    redhatInitImage: string,
    jvmEnvVariable: string,
    resources: string)

  // ------------------------------------------------------------------ names shared by both webhooks

  /** The secret with the default CA for a root object. */
  function CaSecretName(secret: CASecret, rootName: string): string {
    secret.name + "-" + rootName
  }

  /** The secret into which cert-manager writes the truststore for a root object. */
  function TruststoreSecretName(rootName: string): string {
    rootName + "-truststore-cert"
  }

  // ------------------------------------------------------------------ volumes

  function DefaultPath(i: nat): string {
    "injected_ca-" + Text.Decimal(i) + ".crt"
  }

  function ExtraPath(i: nat): string {
    "injected_extra_ca-" + Text.Decimal(i) + ".crt"
  }

  function DefaultSource(secret: CASecret, rootName: string, i: nat): Projection
    requires i < |secret.keys|
  {
    Projection(CaSecretName(secret, rootName), [KeyToPath(secret.keys[i], DefaultPath(i))])
  }

  /** An extra entry names a secret and a key on the two sides of a slash; the source indexes both halves
      without looking whether there are two. */
  predicate WellFormedEntry(entry: string) {
    |Text.Split(entry, '/')| >= 2
  }

  function ExtraSource(entry: string, i: nat): Projection
    requires WellFormedEntry(entry)
  {
    var halves := Text.Split(entry, '/');
    Projection(halves[0], [KeyToPath(halves[1], ExtraPath(i))])
  }

  predicate WellFormedExtras(cfg: Config, meta: Meta) {
    forall entry :: entry in cfg.extractor.ExtraSecrets(meta) ==> WellFormedEntry(entry)
  }

  function Sources(cfg: Config, meta: Meta, rootName: string): seq<Projection>
    requires WellFormedExtras(cfg, meta)
  {
    var extras := cfg.extractor.ExtraSecrets(meta);
    seq(|cfg.caSecret.keys|, i requires 0 <= i < |cfg.caSecret.keys| => DefaultSource(cfg.caSecret, rootName, i))
    + seq(|extras|, i requires 0 <= i < |extras| => ExtraSource(extras[i], i))
  }

  function CaVolumes(cfg: Config, meta: Meta, rootName: string): seq<Volume>
    requires WellFormedExtras(cfg, meta)
  {
    [Volume(cfg.extractor.SecretVolumeName(meta), Projected(Sources(cfg, meta, rootName), FILE_MODE)),
     Volume(cfg.extractor.CaVolumeName(meta), EmptyDir)]
  }

  function TruststoreVolume(cfg: Config, meta: Meta, rootName: string): Volume {
    var file := cfg.extractor.JvmPath(meta).1;
    Volume(TRUSTSTORE_VOLUME_NAME, FromSecret(TruststoreSecretName(rootName), [KeyToPath(file, file)], FILE_MODE))
  }

  // ------------------------------------------------------------------ mounts and environment

  function CompleteCaPath(family: string): string {
    if family == DEBIAN then "/etc/ssl/certs/"
    else if family == REDHAT then "/etc/pki/ca-trust/extracted"
    else ""
  }

  function CompleteCaFile(family: string): string {
    if family == DEBIAN then "/etc/ssl/certs/ca-certificates.crt"
    else "/etc/pki/ca-trust/extracted/ca-bundle.trust.crt"
  }

  function BundleMount(cfg: Config, meta: Meta): Mount {
    Mount(cfg.extractor.CaVolumeName(meta), CompleteCaPath(cfg.extractor.Family(meta)), false, "")
  }

  function TruststoreMount(cfg: Config, meta: Meta): Mount {
    Mount(TRUSTSTORE_VOLUME_NAME, cfg.extractor.JvmPath(meta).0, true, "")
  }

  function TruststoreOptions(cfg: Config, meta: Meta): string {
    var (dir, file) := cfg.extractor.JvmPath(meta);
    "-Djavax.net.ssl.trustStore=" + cfg.extractor.paths.join(dir, file)
    + " -Djavax.net.ssl.password=" + cfg.extractor.TruststorePassword(meta)
  }

  function PythonEnv(cfg: Config, meta: Meta): seq<EnvVar> {
    var file := CompleteCaFile(cfg.extractor.Family(meta));
    [EnvVar("REQUESTS_CA_BUNDLE", file, ""), EnvVar("SSL_CERT_FILE", file, "")]
  }

  function InitContainer(cfg: Config, meta: Meta): Container {
    var redhat := cfg.extractor.Family(meta) == REDHAT;
    Container(
      INIT_CONTAINER_NAME,
      if redhat then cfg.redhatInitImage else cfg.debianInitImage,
      cfg.resources,
      [Mount(cfg.extractor.SecretVolumeName(meta),
             if redhat then "/usr/share/pki/ca-trust-source/anchors" else "/usr/local/share/ca-certificates/injected",
             true, ""),
       Mount(cfg.extractor.CaVolumeName(meta), UPDATE_CA_PATH, false, "")],
      [EnvVar("TMP_CERTS_DIR", UPDATE_CA_PATH, "")],
      "")
  }

  /** The environment with the options appended to the first variable of that name, or else as a new one. */
  function JvmEnv(env: seq<EnvVar>, name: string, options: string): seq<EnvVar> {
    if |env| == 0 then [EnvVar(name, options, "")]
    else if env[0].name == name then [env[0].(value := env[0].value + " " + options)] + env[1..]
    else [env[0]] + JvmEnv(env[1..], name, options)
  }

  function WithMount(c: Container, mount: Mount): Container {
    c.(mounts := c.mounts + [mount])
  }

  function MountAll(containers: seq<Container>, mount: Mount): seq<Container> {
    seq(|containers|, i requires 0 <= i < |containers| => WithMount(containers[i], mount))
  }

  function WithJvm(c: Container, cfg: Config, meta: Meta): Container {
    c.(mounts := c.mounts + [TruststoreMount(cfg, meta)],
       env := JvmEnv(c.env, cfg.jvmEnvVariable, TruststoreOptions(cfg, meta)))
  }

  function WithPython(c: Container, cfg: Config, meta: Meta): Container {
    c.(env := c.env + PythonEnv(cfg, meta))
  }

  // ------------------------------------------------------------------ the pod

  predicate HasInitContainer(pod: PodValue) {
    exists i :: 0 <= i < |pod.initContainers| && pod.initContainers[i].name == INIT_CONTAINER_NAME
  }

  predicate Named(volumes: seq<Volume>, name: string) {
    exists i :: 0 <= i < |volumes| && volumes[i].name == name
  }

  function AddCa(cfg: Config, pod: PodValue, rootName: string): PodValue
    requires WellFormedExtras(cfg, pod.meta)
  {
    var mount := BundleMount(cfg, pod.meta);
    PodValue(
      pod.meta,
      pod.volumes + CaVolumes(cfg, pod.meta, rootName),
      [InitContainer(cfg, pod.meta)] + MountAll(pod.initContainers, mount),
      MountAll(pod.containers, mount))
  }

  predicate ShouldAddJvm(cfg: Config, pod: PodValue) {
    cfg.extractor.IsJvmEnabled(pod.meta) && !Named(pod.volumes, TRUSTSTORE_VOLUME_NAME)
  }

  function AddJvm(cfg: Config, pod: PodValue, rootName: string): PodValue {
    pod.(
      volumes := pod.volumes + [TruststoreVolume(cfg, pod.meta, rootName)],
      containers := seq(|pod.containers|,
        i requires 0 <= i < |pod.containers| => WithJvm(pod.containers[i], cfg, pod.meta)))
  }

  function AddPython(cfg: Config, pod: PodValue): PodValue {
    pod.(containers := seq(|pod.containers|,
      i requires 0 <= i < |pod.containers| => WithPython(pod.containers[i], cfg, pod.meta)))
  }
}
