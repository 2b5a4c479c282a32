# vault-inject, modelled and proved in Dafny

vault-inject is a Kubernetes admission webhook that hands secrets from Vault to containers. This project models the parts
of it that hold algorithms or shared state, and proves what they promise for all inputs, all iteration orders and all
interleavings. `dafny verify dfyconfig.toml` checks everything.

**The annotation patch** (`Escape`, `JsonPointer`, `JsonPatch`, `AnnotationPatch`). The webhook writes RFC 6902
operations by hand, with RFC 6901 pointers as plain strings. Documents are trees, each `strings.Replace` is its own
left-to-right scan, and an operation is applied by parsing its path string. The range loop over a Go map is an arbitrary
duplicate-free enumeration of the keys (`MapRange`). The main result, `PatchIsMerge`, says that the patch is the plain merge
of the annotations for every pod, every state of its annotations (absent, null, empty, filled, with null members) and every
order. It is false for a pod without a metadata object (`EmptyPodExample`), and exactly there, provided there is something to
add. `CreatePatch` also shows that nothing to add marshals to `null`, which is not a patch document; the only call in the
webhook passes nil annotations (pkg/webhook/webhook.go:463).

**The publishers** (`Deployments`, `EnvironmentPublisher`, `SecretStore`, `VolumePublisher`, `PublisherRuns`, `SerialOrders`).
The environment publisher appends entries whose meaning is "the last entry of a name wins". The volume publisher is a
check-then-create protocol: it is written as the sequential method the code is, and as a step machine of which any number
interleave on one store, under any schedule and any behaviour of the server, lost responses included. `AloneIsARun` ties the two
together.
What success is worth is settled over all runs. That a file of a stored secret is mounted, through a volume name that is not
ambiguous, fails in general, and so does that the file holds the publisher's own secrets, because the code never looks at
what an existing secret holds and always calls its volume `secrets`. `LinkIntegrity` and `PublishedIntegrity` give the exact
conditions on the requests, the deployments and the initial store; `DisagreementExample` and `StaleSecretExample` are concrete
failures. `SerialOrder` says that the interleaving hardly matters when every request is served: some order of the publishers,
the creators first, gives the same store, the same creations and the same ends, one after another, except that the losers of
races succeed.

**The informer factory** (`InformerFactory`, `FactoryRuns`). The two tables behind the lock, as a class, and as a machine in
which any number of callers interleave; the second loop of `WaitForCacheSync` is outside the lock and takes one step per
informer. Both use the same functions on the tables, so the class methods are the machine's atomic steps. `InformerFor` takes
any function, so an informer may be registered for two types; it is then run twice once both are started
(`SharedInformerExample`), and only then (`RunExactlyWhenStarted`). With functions that make a new informer, as the
repository's own does, none is run twice (`NewInformersRunOnce`).

**Deep copies** (`DeepCopy`). Pointers, embedded structs and slices on the heap. The copy is equal at every depth and shares
nothing with the original, and its items share nothing with one another. The source only demands that the input is not nil;
copying a value onto itself is modelled too. It loses the contents of every slice, map and pointer, in the status and in the
metadata, since the new storage takes the old one's place before the old one is read; `SelfCopyKeeps` says exactly which maps
survive it.

Strings are sequences of Unicode characters, as in RFC 6901. A nil slice or map is `None`. Library functions (templates,
`path.Join`, `json.Marshal`) and the replies of the API server are parameters.

## Model

| member | source | states |
|---|---|---|
| `Escape.EscapeIsSimultaneous` | pkg/webhook/webhook.go:531-534 | the two replacement passes, tilde first, are one simultaneous substitution, for every string |
| `Escape.EscapesOneByOne` | pkg/webhook/webhook.go:531-534 | a tilde becomes `~0` and a slash `~1`, and `~01` decodes to `~1` |
| `Escape.UnescapeEscape` | pkg/webhook/webhook.go:531-534 | decoding as RFC 6901 section 4 says (`~1` first, then `~0`) undoes the escape, for every string |
| `Escape.EscapeIsReferenceToken` | pkg/webhook/webhook.go:530-534 | the escape of any string is a reference token of the RFC 6901 grammar and holds no slash |
| `Escape.EscapeUnescape` | pkg/webhook/webhook.go:530-534 | every reference token is the escape of its own decoding, so the escape is a bijection |
| `JsonPointer.ParseFormat` | pkg/webhook/webhook.go:554 | tokens escaped and joined by slashes parse back to the same tokens, for every token sequence |
| `JsonPointer.FormatParse` | pkg/webhook/webhook.go:554 | every pointer that parses is the formatting of its tokens |
| `JsonPatch.DecodeEncode` | pkg/webhook/webhook.go:423-427 | operations marshalled as JSON objects decode to the same operations |
| `AnnotationPatch.ObjectPath` | pkg/webhook/webhook.go:542 | the path of the whole-object operation is the two tokens metadata, annotations |
| `AnnotationPatch.MemberPath` | pkg/webhook/webhook.go:554 | for every key, the empty one and ones with slashes and tildes included, the path is three tokens and the last decodes to the key |
| `AnnotationPatch.PathsDistinct` | pkg/webhook/webhook.go:554 | two keys have the same path only if they are the same key |
| `AnnotationPatch.WholeAddEffect` | pkg/webhook/webhook.go:538-546 | the whole-object operation creates the annotations object with one entry, or fails for want of a parent exactly when there is no metadata object |
| `AnnotationPatch.MemberOpEffect` | pkg/webhook/webhook.go:548-556 | a member operation sets that one annotation; a key that is there with an empty value gets `add` and is overwritten |
| `AnnotationPatch.OperationKinds` | pkg/webhook/webhook.go:538-556 | the whole-object path occurs only first and only for nil annotations; an operation is `replace` if and only if the pod's own value of the key is not empty, else `add` |
| `AnnotationPatch.OperationsFindTheirTargets` | pkg/webhook/webhook.go:538-557 | when its turn comes, every replace finds its member, every member add its object, and the whole-object add nothing to clobber |
| `AnnotationPatch.PatchIsMerge` | pkg/webhook/webhook.go:536-560 | for every order the patch, applied from its strings, gives the plain merge; it fails if and only if something is added and there is no metadata object; adding nothing changes nothing |
| `AnnotationPatch.EmptyPodExample` | pkg/webhook/webhook.go:538-546 | a concrete pod that decodes, and to which its patch does not apply |
| `AnnotationPatch.OrderIrrelevant` | pkg/webhook/webhook.go:537-558 | any two iteration orders give the same final document |
| `AnnotationPatch.MergedReadsBack` | pkg/webhook/webhook.go:576 | decoding the patched pod gives the old annotations overridden by the added ones |
| `AnnotationPatch.NothingElseChanges` | pkg/webhook/webhook.go:536-560 | every location outside the annotations object is untouched |
| `AnnotationPatch.OnlyAddedChange` | pkg/webhook/webhook.go:536-560 | inside it, added keys hold their new values and all others what they held |
| `AnnotationPatch.Idempotent` | pkg/webhook/webhook.go:536-560 | patching the patched pod again, in any order, changes nothing, and replaces exactly the non-empty values |
| `AnnotationPatch.UpdateAnnotation` | pkg/webhook/webhook.go:536-560 | the loop yields nil for nothing to add and otherwise one operation per key, in one of the possible orders |
| `AnnotationPatch.MarshalledOperation` | pkg/webhook/webhook.go:423-427 | each operation is marshalled as an object of the members op, path and value, and says by its own strings which annotation it sets to what and how |
| `AnnotationPatch.CreatePatch` | pkg/webhook/webhook.go:563-579 | the marshalled value is a patch document if and only if something is added; it has one such object per added key, and applying it to any pod with those annotations is the merge |
| `EnvironmentPublisher.WithEntriesMeans` | pkg/inject/publisher/environment/publisher.go:15-18 | the deployment with entries appended, field by field: the first container's environment is longer by them, and every other field and container is as before; nothing else is |
| `EnvironmentPublisher.PublishSecrets` | pkg/inject/publisher/environment/publisher.go:14-21 | appends one entry per secret to the first container's environment, keeps its other fields, the other containers and the rest of the deployment, never fails, and the container then sees its old environment overridden by the secrets |
| `EnvironmentPublisher.EnvironmentIsOverridden` | pkg/inject/publisher/environment/publisher.go:15-18 | for every order, last-entry-wins lookup after appending is the old lookup overridden by the secrets |
| `EnvironmentPublisher.PublishTwice` | pkg/inject/publisher/environment/publisher.go:15-18 | publishing twice, in any two orders, gives the same lookup as publishing once |
| `EnvironmentPublisher.EntryCount` | pkg/inject/publisher/environment/publisher.go:15-18 | each secret is appended exactly once, with its value, and nothing else is appended |
| `EnvironmentPublisher.OrdersPermute` | pkg/inject/publisher/environment/publisher.go:15-18 | two orders append permutations of each other |
| `SecretStore.Store.List` | pkg/inject/publisher/volume/publisher.go:87 | the items are exactly the secrets of the namespace, or of all namespaces for the empty one |
| `SecretStore.Store.Create` | pkg/inject/publisher/volume/publisher.go:63 | no stored secret changes; no error if and only if the request was served and the key was absent, and then the secret stored is the caller's; a refused request has no effect; after a lost response the error does not tell |
| `SecretStore.SecretExists` | pkg/inject/publisher/volume/publisher.go:86-98 | the search of the listed items answers whether that name is stored in that namespace |
| `VolumePublisher.PrepareMeans` | pkg/inject/publisher/volume/publisher.go:24-52 | the templates see the deployment's namespace and name and its first container's name; the first failure is the outcome; else the secret has the resolved name and one resolved file with the marshalled secrets, to be mounted at the joined path |
| `VolumePublisher.NamesExample` | pkg/inject/publisher/volume/publisher_test.go:16-42 | the test's patterns resolve to the secret `ns.contname` and the file `config.json` |
| `VolumePublisher.UpdatesMean` | pkg/inject/publisher/volume/publisher.go:69-81 | the two updates add one read-only mount to the first container and one volume, and leave every other field, volume, mount and container as it was |
| `VolumePublisher.PublishSecrets` | pkg/inject/publisher/volume/publisher.go:20-84 | the code is the step machine run alone; which error it returns, in every case; on success one volume of the resolved secret and one read-only mount at the joined path are appended, and the secret is stored, the old one if there was one; nothing else of the deployment changes, on error nothing at all |
| `VolumePublisher.AloneFromChecking` | pkg/inject/publisher/volume/publisher.go:54-81 | outcome, store and deployment of a lone publisher, for every reply to its two requests |
| `PublisherRuns.AloneIsARun` | pkg/inject/publisher/volume/publisher.go:20-84 | from any state, a publisher that has the server to itself is one of the interleavings |
| `PublisherRuns.StoreOnlyGrows` | pkg/inject/publisher/volume/publisher.go:59-67 | over every schedule no stored secret disappears or changes |
| `PublisherRuns.InvariantHolds` | pkg/inject/publisher/volume/publisher.go:23-83 | in every reachable state each publisher's plan and deployment are what its phase says, and the log of creations explains the store |
| `PublisherRuns.AtMostOneCreation` | pkg/inject/publisher/volume/publisher.go:46-67 | at most one creation per key takes effect, only for absent keys, and the data is the creator's then and in every later state |
| `PublisherRuns.AllOrNothing` | pkg/inject/publisher/volume/publisher.go:24-83 | in every reachable state a failed publisher left its deployment as it was, and a successful one appended one volume and one mount, changed no other field, and refers to a secret stored then and ever after |
| `PublisherRuns.OthersTurnsLeaveAlone` | pkg/inject/publisher/volume/publisher.go:20-84 | other publishers' turns change neither a publisher nor what it has created, and nor do turns of its own once it has ended |
| `PublisherRuns.OvertakenMeans` | pkg/inject/publisher/volume/publisher.go:54-66 | in every run, a publisher about to create finds its key stored if and only if another publisher has created it |
| `PublisherRuns.RaceLost` | pkg/inject/publisher/volume/publisher.go:59-66 | in every run, if another publisher creates the secret between one's check and one's creating turn, one ends in error for good, with the starting deployment and nothing created; if none does and the request is served, the stored secret is one's own |
| `PublisherRuns.OnlyRacesFail` | pkg/inject/publisher/volume/publisher.go:23-66 | when the server serves every request, a publisher fails only by its own templates or by losing the race to another publisher that created the secret |
| `PublisherRuns.FiveTurnsSuffice` | pkg/inject/publisher/volume/publisher.go:20-84 | five turns of its own end a publisher, whatever the others do |
| `PublisherRuns.FulfilledMeans` | pkg/inject/publisher/volume/publisher.go:69-81 | what a finished publisher has mounted comes down to its volumes at the start and the data stored under its key |
| `PublisherRuns.FinishServed` | pkg/inject/publisher/volume/publisher.go:20-84 | from any state, five served turns on its own end a publisher; it fails only by its templates, else succeeds and creates its secret only if absent; the others are left alone |
| `PublisherRuns.LinkIntegrity` | pkg/inject/publisher/volume/publisher.go:46-81 | over all interleavings every success mounts a file of a stored secret through the one volume of that name, if and only if stored secrets hold the files asked of them, requests for an absent secret agree on the file name, and no deployment has a volume `secrets` before |
| `PublisherRuns.PublishedIntegrity` | pkg/inject/publisher/volume/publisher.go:46-81 | over all interleavings every success mounts the publisher's own secrets, if and only if stored secrets hold those contents already, requests for an absent secret ask for the same one, and no deployment has a volume `secrets` before |
| `PublisherRuns.DisagreementExample` | pkg/inject/publisher/volume/publisher.go:59-81 | two concrete requests for one secret with different files, for which some interleaving ends in success with no file mounted |
| `PublisherRuns.StaleSecretExample` | pkg/inject/publisher/volume/publisher.go:59-61 | a concrete stored secret with the right file and old contents: a file is always mounted, the publisher's own secrets not |
| `PublisherRuns.VolumeNamesStayDistinct` | pkg/inject/publisher/volume/publisher.go:70-73 | in every run, after success volume names are distinct if and only if they were before and none was `secrets`; afterwards one is, so publishing again never leaves them distinct |
| `SerialOrders.AllFinished` | pkg/inject/publisher/volume/publisher.go:20-84 | publishers that run one after another end the same way in every order |
| `SerialOrders.CreatorsFirst` | pkg/inject/publisher/volume/publisher.go:59-66 | the creators of any run, one after another in the order of its log, make the same log and store |
| `SerialOrders.EndedMeans` | pkg/inject/publisher/volume/publisher.go:54-81 | in every served run, whoever has ended is as if served alone, or lost a race; and its key is stored if its templates are good |
| `SerialOrders.SerialOrder` | pkg/inject/publisher/volume/publisher.go:20-84 | every served run in which all have ended has an order of the publishers, creators first, whose serial run has the same store, creations and ends, but that losers of races succeed |
| `InformerFactory.SharedInformerFactory.constructor` | pkg/client/informers/externalversions/factory.go:56-65 | a new factory has nothing registered, started or launched |
| `InformerFactory.SharedInformerFactory.Start` | pkg/client/informers/externalversions/factory.go:68-78 | launches exactly the registered types not yet started; afterwards each is marked and has been launched once, however often it is called |
| `InformerFactory.SharedInformerFactory.LaunchUnstarted` | pkg/client/informers/externalversions/factory.go:72-77 | the range loop has the same effect in every order |
| `InformerFactory.SharedInformerFactory.StartedInformers` | pkg/client/informers/externalversions/factory.go:82-93 | the copy taken under the lock is exactly the started part of the table |
| `InformerFactory.SharedInformerFactory.WaitForCacheSync` | pkg/client/informers/externalversions/factory.go:81-100 | the result has exactly the started types and their answers |
| `InformerFactory.SharedInformerFactory.InformerFor` | pkg/client/informers/externalversions/factory.go:104-117 | returns the registered informer; only if there is none, registers what the caller's function returns, be it new with the caller's settings or in use already |
| `InformerFactory.StartAllKeepsSound` | pkg/client/informers/externalversions/factory.go:68-78 | after a start every registered type is started and each informer has been launched once |
| `InformerFactory.RegisteredKeepsSound` | pkg/client/informers/externalversions/factory.go:108-116 | registering any informer, new or not, keeps the tables sound |
| `InformerFactory.RunOnceMeans` | pkg/client/informers/externalversions/factory.go:43-45 | in sound tables an informer has been run at most once, over all types, if and only if no two started types hold it |
| `InformerFactory.VaultMapInformer.DefaultInformer` | pkg/client/informers/externalversions/vaultinject/v1alpha1/vaultmap.go:79-81 | a new informer with the accessor's namespace and options |
| `InformerFactory.VaultMapInformer.Informer` | pkg/client/informers/externalversions/vaultinject/v1alpha1/vaultmap.go:83-85 | reaches the informer registered for VaultMap, through any accessor value; a new one is for VaultMap, with the factory's resync period and the accessor's namespace and options |
| `InformerFactory.VaultMapInformer.Lister` | pkg/client/informers/externalversions/vaultinject/v1alpha1/vaultmap.go:87-89 | the lister reads the registered informer's indexer, and a new informer has the same settings |
| `InformerFactory.NewWebhook` | pkg/webhook/webhook.go:127-195 | lister, kept HasSynced and event handler all belong to the one registered informer; a new one has the factory's settings; no other informer gets a handler and nothing is started |
| `FactoryRuns.RunExactlyWhenStarted` | pkg/client/informers/externalversions/factory.go:68-78 | over every run an informer is run if and only if it is registered for a type marked started, at most once if and only if for only one such type; started types are registered |
| `FactoryRuns.StartRunsOnce` | pkg/client/informers/externalversions/factory.go:43-45 | over every run, a start leaves an informer run at most once in all if and only if no two types registered before it hold the informer |
| `FactoryRuns.NewMeansOwn` | pkg/client/informers/externalversions/factory.go:104-117 | over every run in which called functions return new informers, types have informers of their own |
| `FactoryRuns.NewInformersRunOnce` | pkg/client/informers/externalversions/factory.go:43-45 | over every such run no informer is run twice |
| `FactoryRuns.SharedInformerExample` | pkg/client/informers/externalversions/factory.go:104-117 | one informer offered for two types is run twice by one start |
| `FactoryRuns.TablesOnlyGrow` | pkg/client/informers/externalversions/factory.go:104-117 | over every run no registration or start mark is lost and no answer is taken back |
| `FactoryRuns.StartedByStart` | pkg/client/informers/externalversions/factory.go:68-78 | a registered type gets started if and only if a start takes the lock later |
| `FactoryRuns.ReturnedInformerRuns` | pkg/webhook/webhook.go:165-166 | a returned informer stays the registered one and is run, once, exactly when it was started already or a start follows |
| `FactoryRuns.AnswersAgree` | pkg/client/informers/externalversions/factory.go:108-116 | all requests for one type get one informer, whatever is offered; if what is offered is new, different types get different ones |
| `FactoryRuns.WaitReportsStarted` | pkg/client/informers/externalversions/factory.go:81-100 | the wait reports exactly the types started when it held the lock, each with the answer of its poll; all through its unlocked loop each informer is still registered, still started and has been run once |
| `FactoryRuns.WaitReturnsWhenPolled` | pkg/client/informers/externalversions/factory.go:95-99 | a wait can return if and only if every type started when it held the lock has been polled |
| `DeepCopy.MapStatus.DeepCopyInto` | pkg/apis/vaultinject/v1alpha1/zz_generated.deepcopy.go:44-52 | an equal status in new storage, nil staying nil and empty staying empty; onto itself, a slice of empty names |
| `DeepCopy.VaultMap.DeepCopyInto` | pkg/apis/vaultinject/v1alpha1/zz_generated.deepcopy.go:65-72 | an equal map whose pod names are in new storage; onto itself, the slices, maps and pointers of status and metadata are blanked |
| `DeepCopy.SelfCopyKeeps` | pkg/apis/vaultinject/v1alpha1/zz_generated.deepcopy.go:65-72 | copying a map onto itself keeps it if and only if it has no pod name to lose and nothing in the metadata's maps, slices and pointers |
| `DeepCopy.SelfCopyExample` | pkg/apis/vaultinject/v1alpha1/zz_generated.deepcopy.go:65-72 | a map without pod names and with one label loses the label |
| `DeepCopy.DeepCopyMap` | pkg/apis/vaultinject/v1alpha1/zz_generated.deepcopy.go:75-82 | nil for nil, else an equal map in new storage |
| `DeepCopy.MakeMaps` | pkg/apis/vaultinject/v1alpha1/zz_generated.deepcopy.go:99 | the new slice holds distinct zero maps in new storage |
| `DeepCopy.CopyItem` | pkg/apis/vaultinject/v1alpha1/zz_generated.deepcopy.go:101 | one round copies one item into its slot, with pod names in new storage, and disturbs no other slot and no original |
| `DeepCopy.CopyItems` | pkg/apis/vaultinject/v1alpha1/zz_generated.deepcopy.go:100-102 | the loop copies every item into its slot, in place, no two slots sharing a slice of pod names |
| `DeepCopy.VaultMapList.DeepCopyInto` | pkg/apis/vaultinject/v1alpha1/zz_generated.deepcopy.go:93-105 | equal fields and items, all storage new and no two items sharing any; onto itself, the items are zeroed |
| `DeepCopy.DeepCopyList` | pkg/apis/vaultinject/v1alpha1/zz_generated.deepcopy.go:108-115 | nil for nil, else a list equal at every depth whose whole storage is new and whose items share none of it |
| `DeepCopy.ChangeApart` | pkg/apis/vaultinject/v1alpha1/zz_generated.deepcopy.go:93-105 | any in-place change of one list leaves a list with separate storage unchanged |
| `DeepCopy.ChangeTheCopy` | pkg/apis/vaultinject/v1alpha1/zz_generated.deepcopy.go:108-115 | whatever is written in the copy, the original is unchanged |
| `DeepCopy.ChangeTheOriginal` | pkg/apis/vaultinject/v1alpha1/zz_generated.deepcopy.go:108-115 | whatever is written in the original, the copy is what the original was |
| `DeepCopy.ChangeOneItem` | pkg/apis/vaultinject/v1alpha1/zz_generated.deepcopy.go:99-102 | whatever is written in one item of a copy, the other items stay what the originals were, even when those shared storage |

## Left out

- HTTP and TLS handling, request decoding, the health file, logging, flags and signals: input and output.
- The loop of `Webhook.Run`: nothing is claimed about its end; the `break` at pkg/webhook/webhook.go:256 leaves only the `select`.
- `initializeDeployment`: it is commented out in the source.
- The bytes of JSON: documents are trees with one value per member name, and text is valid Unicode. Go's case-insensitive matching of member names while decoding a pod, and the replacement of invalid UTF-8 while encoding, are not modelled; nor are the pod's other fields, whose decoding can fail too.
- Template resolution, `path.Join` and `json.Marshal` of the secrets: arbitrary functions, the fallible ones with their errors.
- Kubernetes expands `$(NAME)` inside environment values using earlier entries; the environment here is the plain last-entry-wins lookup.
- Deletion and update of secrets by others while publishers are under way: the store only sees the publishers' own requests. Each publisher has a deployment of its own.
- What an informer does once it runs, and the polling inside `cache.WaitForCacheSync`: its answer is a parameter.
- Slices are whole arrays: two may be one and the same, but spare capacity and slices that overlap in part are not modelled.
- `ObjectMeta`: the library's own copy is not part of this model; it is taken to follow the generator's pattern, field by field. Its maps, slices and pointers are carried as values, so that the copy does not share them is assumed, not proved.
- `DeepCopyObject`, and `DeepCopy` of `MapSpec` and `MapStatus`: wrappers that would add easy members.
- `CreatePublisher`, `GetInitializerConfig`, `GetInitializerSecret`, listers, typed and fake clients, schemes and `ForResource`: single branches and generated wrappers.
- `PatchMutatingWebhookConfig`: what is hard in it is the strategic merge library, which is not part of this model.
