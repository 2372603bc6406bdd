/** The labels and annotations that steer the injection: metadata/extractor.go. A nil map of the source
    behaves as an empty one. */
module Metadata {
  import opened Wrappers
  import Owners
  import Text

  datatype Meta = Meta(
    name: string,
    labels: map<string, string>,
    annotations: map<string, string>,
    owners: seq<Owners.OwnerRef>)

  const ENABLED_VALUE := "true"
  const DEBIAN := "debian"
  const REDHAT := "redhat"
  const MAX_CN_LENGTH := 63

  /** path/filepath.Dir, Base and Join. */
  datatype Paths = Paths(dir: string -> string, base: string -> string, join: (string, string) -> string)

  function AsObject(meta: Meta): Owners.Object {
    Owners.Object(meta.name, meta.owners)
  }

  function Tail(s: string, length: nat): string {
    if length < |s| then s[|s| - length..] else s
  }

  datatype Extractor = Extractor(domain: string, dnsDomain: string, truststorePassword: string, paths: Paths) {

    function Tag(suffix: string): string {
      "cain." + domain + "/" + suffix
    }

    function Annotation(meta: Meta, suffix: string): Option<string> {
      if Tag(suffix) in meta.annotations then Some(meta.annotations[Tag(suffix)]) else None
    }

    function AnnotationOr(meta: Meta, suffix: string, default: string): string {
      match Annotation(meta, suffix)
      case Some(value) => value
      case None => default
    }

    predicate IsInjectionEnabled(meta: Meta) {
      Tag("enabled") in meta.labels && meta.labels[Tag("enabled")] == ENABLED_VALUE
    }

    predicate IsJvmEnabled(meta: Meta) {
      Annotation(meta, "jvm") == Some(ENABLED_VALUE)
    }

    predicate IsPythonEnabled(meta: Meta) {
      Annotation(meta, "python") == Some(ENABLED_VALUE)
    }

    function Family(meta: Meta): (family: string)
      ensures family in {DEBIAN, REDHAT}
      ensures family == REDHAT <==>
                Tag("family") in meta.annotations && meta.annotations[Tag("family")] == REDHAT
    {
      if Annotation(meta, "family") == Some(REDHAT) then REDHAT else DEBIAN
    }

    /** The extra entries, none of them without the annotation. */
    function ExtraSecrets(meta: Meta): seq<string> {
      match Annotation(meta, "extra-ca-secrets")
      case Some(value) => Text.Split(value, ',')
      case None => []
    }

    function CaVolumeName(meta: Meta): string {
      AnnotationOr(meta, "ca-volume-name", "ca-certs")
    }

    function SecretVolumeName(meta: Meta): string {
      AnnotationOr(meta, "secret-volume-name", "ca")
    }

    function TruststorePassword(meta: Meta): string {
      AnnotationOr(meta, "truststore-password", truststorePassword)
    }

    /** The directory and the file name of the truststore. */
    function JvmPath(meta: Meta): (string, string) {
      match Annotation(meta, "jvm-path")
      case Some(path) => (paths.dir(path), paths.base(path))
      case None => ("/jvm-truststore/", "truststore.jks")
    }

    /** The annotation, or else the name made of the root, its namespace and the domain. */
    function CommonNameSource(meta: Meta, rootName: string, rootNamespace: string): string {
      var suffix := if dnsDomain == "" then domain else dnsDomain;
      AnnotationOr(meta, "jvm-common-name", rootName + "." + rootNamespace + "." + suffix)
    }

    function JvmCommonName(meta: Meta, rootName: string, rootNamespace: string): (name: string)
      ensures var source := CommonNameSource(meta, rootName, rootNamespace);
              && |name| == (if |source| < MAX_CN_LENGTH then |source| else MAX_CN_LENGTH)
              && name == source[|source| - |name|..]
    {
      Tail(CommonNameSource(meta, rootName, rootNamespace), MAX_CN_LENGTH)
    }
  }
}
