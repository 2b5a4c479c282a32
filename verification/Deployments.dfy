/** The parts of a deployment that publishers read and append to in place. */
module Deployments {

  datatype EnvVar = EnvVar(name: string, value: string)

  datatype VolumeSource = SecretSource(secretName: string) | OtherSource(description: string)

  datatype Volume = Volume(name: string, source: VolumeSource)

  datatype VolumeMount = VolumeMount(name: string, mountPath: string, readOnly: bool, subPath: string)

  /** `rest` stands for every field no publisher touches. */
  datatype Container = Container(name: string, env: seq<EnvVar>, volumeMounts: seq<VolumeMount>, rest: string)

  datatype PodTemplate = PodTemplate(
    namespace: string,
    name: string,
    containers: seq<Container>,
    volumes: seq<Volume>,
    rest: string)

  /** The deployment object behind the pointer that publishers receive. */
  class Deployment {
    var namespace: string
    var name: string
    var containers: seq<Container>
    var volumes: seq<Volume>
    var rest: string

    function View(): PodTemplate
      reads this
    {
      PodTemplate(namespace, name, containers, volumes, rest)
    }

    constructor (view: PodTemplate)
      ensures View() == view
    {
      namespace, name := view.namespace, view.name;
      containers, volumes, rest := view.containers, view.volumes, view.rest;
    }
  }
}
