/** The parts of a pod that cain reads or changes. The `other` fields stand for the fields of the Kubernetes
    types that cain copies along. */
module Pods {
  import opened Metadata

  datatype Mount = Mount(name: string, path: string, readOnly: bool, other: string)

  datatype EnvVar = EnvVar(name: string, value: string, other: string)

  datatype KeyToPath = KeyToPath(key: string, path: string)

  datatype Projection = Projection(secret: string, items: seq<KeyToPath>)

  datatype VolumeSource =
    | Projected(sources: seq<Projection>, mode: int)
    | EmptyDir
    | FromSecret(secret: string, items: seq<KeyToPath>, mode: int)
    | OtherSource(other: string)

  datatype Volume = Volume(name: string, source: VolumeSource)

  datatype Container = Container(
    name: string,
    image: string,
    resources: string,
    mounts: seq<Mount>,
    env: seq<EnvVar>,
    other: string)

  datatype PodValue = PodValue(
    meta: Meta,
    volumes: seq<Volume>,
    initContainers: seq<Container>,
    containers: seq<Container>)

  /** The pod that the mutating webhook changes in place. */
  class Pod {
    var meta: Meta
    var volumes: seq<Volume>
    var initContainers: seq<Container>
    var containers: seq<Container>

    constructor (value: PodValue)
      ensures Value() == value
    {
      meta := value.meta;
      volumes := value.volumes;
      initContainers := value.initContainers;
      containers := value.containers;
    }

    function Value(): PodValue
      reads this
    {
      PodValue(meta, volumes, initContainers, containers)
    }
  }
}
