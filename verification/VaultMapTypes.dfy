/** The plain value parts of the VaultMap resource. */
module VaultMapTypes {
  import opened Wrappers

  datatype MapSpec = MapSpec(
    vaultPathPattern: string,
    secretsPublisher: string,
    secretsFilePathPattern: string,
    secretsFileNamePattern: string,
    secretNamePattern: string)

  datatype TypeMeta = TypeMeta(kind: string, apiVersion: string)

  datatype ListMeta = ListMeta(selfLink: string, resourceVersion: string)

  datatype OwnerReference = OwnerReference(
    apiVersion: string,
    kind: string,
    name: string,
    uid: string,
    controller: Option<bool>,
    blockOwnerDeletion: Option<bool>)

  /** The library's own metadata type. The fields of type Option are pointers, maps and slices, None being nil; `plain`
      stands for the remaining fields, which are held by value. */
  datatype ObjectMeta = ObjectMeta(
    name: string,
    namespace: string,
    plain: string,
    deletionTimestamp: Option<string>,
    deletionGracePeriodSeconds: Option<int>,
    labels: Option<map<string, string>>,
    annotations: Option<map<string, string>>,
    ownerReferences: Option<seq<OwnerReference>>,
    initializers: Option<string>,
    finalizers: Option<seq<string>>)
}
