/** Publishing secrets as a mounted volume: resolve, list, create if absent, then two updates of the deployment. */
module VolumePublisher {
  import opened Wrappers
  import opened Deployments
  import opened SecretStore
  import opened VaultMapTypes

  /** What a template may mention. */
  datatype PathConfig = PathConfig(namespace: string, containerName: string, deploymentName: string)

  /** The library functions the publisher calls: template resolution, `path.Join` and `json.Marshal`. */
  datatype Libraries = Libraries(
    resolve: (PathConfig, string) -> Result<string, Error>,
    join: (string, string) -> string,
    marshal: map<string, string> -> Result<string, Error>)

  /** A deployment with a first container; without one the publisher panics before it does anything. */
  type Target = view: PodTemplate | view.containers != []
    witness PodTemplate("", "", [Container("", [], [], "")], [], "")

  /** Everything that is known before the first request to the server. */
  datatype Plan = Plan(key: Key, secret: Secret, fileName: string, fullPath: string)

  function PathConfigOf(target: Target): PathConfig {
    PathConfig(target.namespace, target.containers[0].name, target.name)
  }

  /** Three template resolutions and the marshalling, the first failure ending it. */
  function Prepare(lib: Libraries, spec: MapSpec, target: Target, secrets: map<string, string>): Result<Plan, Error> {
    var config := PathConfigOf(target);
    var secretName :- lib.resolve(config, spec.secretNamePattern);
    var filePath :- lib.resolve(config, spec.secretsFilePathPattern);
    var fileName :- lib.resolve(config, spec.secretsFileNamePattern);
    var fullPath := lib.join(filePath, fileName);
    var json :- lib.marshal(secrets);
    Success(Plan(Key(target.namespace, secretName), Secret("Opaque", map[fileName := json]), fileName, fullPath))
  }

  /** The templates see the deployment's namespace and name and its first container's name. The first failure is the
      outcome; otherwise the secret has the resolved name in the deployment's namespace and one file of the resolved
      name with the marshalled secrets, to be mounted at the joined path. */
  lemma PrepareMeans(
      lib: Libraries, spec: MapSpec, target: Target, secrets: map<string, string>, config: PathConfig)
    requires config.namespace == target.namespace && config.deploymentName == target.name
    requires config.containerName == target.containers[0].name
    ensures var prepared := Prepare(lib, spec, target, secrets);
            var secretName := lib.resolve(config, spec.secretNamePattern);
            var filePath := lib.resolve(config, spec.secretsFilePathPattern);
            var fileName := lib.resolve(config, spec.secretsFileNamePattern);
            var json := lib.marshal(secrets);
            && (prepared.Success? <==> secretName.Success? && filePath.Success? && fileName.Success? && json.Success?)
            && (prepared.Failure? ==>
                  Failure(prepared.error) ==
                    if secretName.Failure? then secretName
                    else if filePath.Failure? then filePath
                    else if fileName.Failure? then fileName
                    else json)
            && (prepared.Success? ==>
                  && prepared.value.key.namespace == target.namespace && prepared.value.key.name == secretName.value
                  && prepared.value.secret.kind == "Opaque"
                  && prepared.value.secret.data.Items == {(fileName.value, json.value)}
                  && prepared.value.fileName == fileName.value
                  && prepared.value.fullPath == lib.join(filePath.value, fileName.value))
  {
    var prepared := Prepare(lib, spec, target, secrets);
    if prepared.Success? {
      var data, name := prepared.value.secret.data, prepared.value.fileName;
      forall item
        ensures item in data.Items <==> item == (name, data[name])
      {
        assert item in data.Items <==> item.0 in data && data[item.0] == item.1;
      }
    }
  }

  /** A resolver that knows one template. */
  function ResolveOne(config: PathConfig, pattern: string): Result<string, Error> {
    if pattern == "{{.Namespace}}.{{.ContainerName}}" then Success(config.namespace + "." + config.containerName)
    else Success(pattern)
  }

  /** The names and patterns of pkg/inject/publisher/volume/publisher_test.go. */
  lemma NamesExample()
    ensures var lib := Libraries(ResolveOne, (dir, file) => dir + file, secrets => Success("{}"));
            var spec := MapSpec("", "volume", "/", "config.json", "{{.Namespace}}.{{.ContainerName}}");
            var target: Target := PodTemplate("ns", "depname", [Container("contname", [], [], "")], [], "");
            var plan := Prepare(lib, spec, target, map[]);
            && plan.Success? && plan.value.key == Key("ns", "ns.contname")
            && plan.value.fileName == "config.json" && plan.value.fullPath == "/config.json"
  {
    assert "ns" + "." + "contname" == "ns.contname";
    assert "/" + "config.json" == "/config.json";
  }

  function NewVolume(plan: Plan): Volume {
    Volume("secrets", SecretSource(plan.key.name))
  }

  function NewMount(plan: Plan): VolumeMount {
    VolumeMount("secrets", plan.fullPath, true, plan.fileName)
  }

  function WithVolume(target: Target, plan: Plan): Target {
    target.(volumes := target.volumes + [NewVolume(plan)])
  }

  function WithMount(target: Target, plan: Plan): Target {
    var first := target.containers[0];
    target.(containers := target.containers[0 := first.(volumeMounts := first.volumeMounts + [NewMount(plan)])])
  }

  /** One volume and one mount more, and everything else as before. */
  ghost predicate VolumeAndMountAdded(before: PodTemplate, after: PodTemplate, plan: Plan) {
    && before.containers != [] && |after.containers| == |before.containers|
    && after.volumes == before.volumes + [Volume("secrets", SecretSource(plan.key.name))]
    && after.containers[0].volumeMounts ==
         before.containers[0].volumeMounts + [VolumeMount("secrets", plan.fullPath, true, plan.fileName)]
    && after.containers[0].name == before.containers[0].name
    && after.containers[0].env == before.containers[0].env
    && after.containers[0].rest == before.containers[0].rest
    && after.containers[1..] == before.containers[1..]
    && after.namespace == before.namespace && after.name == before.name && after.rest == before.rest
  }

  /** The two updates, in their order, are exactly that. */
  lemma UpdatesMean(before: Target, plan: Plan, after: PodTemplate)
    ensures after == WithMount(WithVolume(before, plan), plan) <==> VolumeAndMountAdded(before, after, plan)
  {
    if |after.containers| == |before.containers| {
      assert after.containers == [after.containers[0]] + after.containers[1..];
      assert before.containers == [before.containers[0]] + before.containers[1..];
    }
  }

  /** Where a publisher stands between its atomic steps. */
  datatype Phase =
    | Starting
    | Checking(plan: Plan)
    | Creating(plan: Plan)
    | AddingVolume(plan: Plan)
    | AddingMount(plan: Plan)
    | Done(plan: Plan)
    | Failed(error: Error)

  datatype Publisher = Publisher(spec: MapSpec, secrets: map<string, string>, target: Target, phase: Phase) {
    predicate Ended() {
      phase.Done? || phase.Failed?
    }
  }

  /** The phase and the deployment after one atomic step against a store; the reply matters to the two requests only. */
  function Advance(lib: Libraries, publisher: Publisher, store: Secrets, reply: Reply): Publisher {
    match publisher.phase
    case Starting =>
      (match Prepare(lib, publisher.spec, publisher.target, publisher.secrets)
       case Success(plan) => publisher.(phase := Checking(plan))
       case Failure(error) => publisher.(phase := Failed(error)))
    case Checking(plan) =>
      if !reply.Served? then publisher.(phase := Failed(reply.error))
      else publisher.(phase := if plan.key in store then AddingVolume(plan) else Creating(plan))
    case Creating(plan) =>
      var error := CreateError(store, plan.key, reply);
      publisher.(phase := if error.Some? then Failed(error.value) else AddingVolume(plan))
    case AddingVolume(plan) => publisher.(phase := AddingMount(plan), target := WithVolume(publisher.target, plan))
    case AddingMount(plan) => publisher.(phase := Done(plan), target := WithMount(publisher.target, plan))
    case Done(_) => publisher
    case Failed(_) => publisher
  }

  /** The store after the same step: only the creating step can change it. */
  function StoreAfter(publisher: Publisher, store: Secrets, reply: Reply): Secrets {
    match publisher.phase
    case Creating(plan) => AfterCreate(store, plan.key, plan.secret, reply)
    case _ => store
  }

  /** How many steps are left at most. */
  function StepsLeft(phase: Phase): nat {
    match phase
    case Starting => 5
    case Checking(_) => 4
    case Creating(_) => 3
    case AddingVolume(_) => 2
    case AddingMount(_) => 1
    case _ => 0
  }

  /** A publisher with the server to itself, run to its end. */
  function Alone(lib: Libraries, publisher: Publisher, store: Secrets, listReply: Reply, createReply: Reply)
    : (Publisher, Secrets)
    decreases StepsLeft(publisher.phase)
  {
    if publisher.Ended() then (publisher, store)
    else
      var reply := if publisher.phase.Checking? then listReply else createReply;
      Alone(lib, Advance(lib, publisher, store, reply), StoreAfter(publisher, store, reply), listReply, createReply)
  }

  lemma AloneNext(lib: Libraries, publisher: Publisher, store: Secrets, listReply: Reply, createReply: Reply)
    requires !publisher.Ended()
    ensures var reply := if publisher.phase.Checking? then listReply else createReply;
            var next := Advance(lib, publisher, store, reply);
            && StepsLeft(next.phase) < StepsLeft(publisher.phase)
            && Alone(lib, publisher, store, listReply, createReply)
            == Alone(lib, next, StoreAfter(publisher, store, reply), listReply, createReply)
  {
  }

  /** `VolumePublisher.PublishSecrets` with the server to itself: the machine run alone, so that every interleaving
      result about the machine speaks about this code. */
  method PublishSecrets(
      lib: Libraries, spec: MapSpec, store: Store, deployment: Deployment, secrets: map<string, string>,
      listReply: Reply, createReply: Reply)
    returns (error: Option<Error>)
    requires deployment.containers != []
    modifies store, deployment
    ensures var start := Publisher(spec, secrets, old(deployment.View()), Starting);
            var (publisher, after) := Alone(lib, start, old(store.secrets), listReply, createReply);
            && deployment.View() == publisher.target
            && store.secrets == after
            && error == (match publisher.phase case Failed(e) => Some(e) case _ => None)
    ensures error.Some? ==> deployment.View() == old(deployment.View())
    ensures var prepared := Prepare(lib, spec, old(deployment.View()), secrets);
            && error == (
                 if prepared.Failure? then Some(prepared.error)
                 else if !listReply.Served? then Some(listReply.error)
                 else if prepared.value.key in old(store.secrets) || createReply.Served? then None
                 else Some(createReply.error))
            && (store.secrets == old(store.secrets)
                || (&& prepared.Success? && prepared.value.key !in old(store.secrets)
                    && (error == None || createReply.Lost?)
                    && store.secrets == old(store.secrets)[prepared.value.key := prepared.value.secret]))
    ensures error == None ==>
              var config := PathConfig(
                namespace := old(deployment.namespace),
                deploymentName := old(deployment.name),
                containerName := old(deployment.containers[0].name));
              var secretName := lib.resolve(config, spec.secretNamePattern);
              var filePath := lib.resolve(config, spec.secretsFilePathPattern);
              var fileName := lib.resolve(config, spec.secretsFileNamePattern);
              && secretName.Success? && filePath.Success? && fileName.Success?
              && deployment.volumes == old(deployment.volumes) + [Volume("secrets", SecretSource(secretName.value))]
              && var mount := VolumeMount("secrets", lib.join(filePath.value, fileName.value), true, fileName.value);
                 deployment.containers[0].volumeMounts == old(deployment.containers[0].volumeMounts) + [mount]
    ensures |deployment.containers| == |old(deployment.containers)|
    ensures deployment.containers[1..] == old(deployment.containers[1..])
    ensures deployment.containers[0].name == old(deployment.containers[0].name)
    ensures deployment.containers[0].env == old(deployment.containers[0].env)
    ensures deployment.containers[0].rest == old(deployment.containers[0].rest)
    ensures deployment.namespace == old(deployment.namespace) && deployment.name == old(deployment.name)
    ensures deployment.rest == old(deployment.rest)
    ensures error == None ==>
              && Prepare(lib, spec, old(deployment.View()), secrets).Success?
              && var plan := Prepare(lib, spec, old(deployment.View()), secrets).value;
              && deployment.View() == WithMount(WithVolume(old(deployment.View()), plan), plan)
              && plan.key in store.secrets
              && (plan.key in old(store.secrets) ==> store.secrets == old(store.secrets))
              && (plan.key !in old(store.secrets) ==> store.secrets == old(store.secrets)[plan.key := plan.secret])
  {
    ghost var view: Target := deployment.View();
    ghost var start := Publisher(spec, secrets, view, Starting);
    var namespace := deployment.namespace;
    var config := PathConfig(deployment.namespace, deployment.containers[0].name, deployment.name);
    var secretName := lib.resolve(config, spec.secretNamePattern);
    if secretName.Failure? {
      return Some(secretName.error);
    }
    var filePath := lib.resolve(config, spec.secretsFilePathPattern);
    if filePath.Failure? {
      return Some(filePath.error);
    }
    var fileName := lib.resolve(config, spec.secretsFileNamePattern);
    if fileName.Failure? {
      return Some(fileName.error);
    }
    var fullPath := lib.join(filePath.value, fileName.value);
    var json := lib.marshal(secrets);
    if json.Failure? {
      return Some(json.error);
    }
    var data: map<string, string> := map[];
    data := data[fileName.value := json.value];
    var secret := Secret("Opaque", data);
    ghost var plan := Prepare(lib, spec, view, secrets).value;
    assert plan == Plan(Key(namespace, secretName.value), secret, fileName.value, fullPath);

    var found := SecretExists(store, namespace, secretName.value, listReply);
    AloneFromChecking(lib, start.(phase := Checking(plan)), store.secrets, listReply, createReply);
    if found.Failure? {
      return Some(found.error);
    }
    if !found.value {
      var refused := store.Create(Key(namespace, secretName.value), secret, createReply);
      if refused.Some? {
        return refused;
      }
    }

    deployment.volumes := deployment.volumes + [Volume("secrets", SecretSource(secretName.value))];
    var mount := VolumeMount("secrets", fullPath, true, fileName.value);
    var first := deployment.containers[0];
    deployment.containers := deployment.containers[0 := first.(volumeMounts := first.volumeMounts + [mount])];
    return None;
  }

  /** The rest of a lone run once the plan is made. */
  lemma AloneFromChecking(lib: Libraries, publisher: Publisher, store: Secrets, listReply: Reply, createReply: Reply)
    requires publisher.phase.Checking?
    ensures var plan := publisher.phase.plan;
            var created := plan.key !in store && listReply.Served?;
            var error := if !listReply.Served? then Some(listReply.error)
                         else if created then CreateError(store, plan.key, createReply) else None;
            Alone(lib, publisher, store, listReply, createReply) ==
              (if error.Some? then publisher.(phase := Failed(error.value))
               else publisher.(phase := Done(plan), target := WithMount(WithVolume(publisher.target, plan), plan)),
               if created then AfterCreate(store, plan.key, plan.secret, createReply) else store)
  {
    var plan := publisher.phase.plan;
    if listReply.Served? {
      var next := Advance(lib, publisher, store, listReply);
      assert StoreAfter(publisher, store, listReply) == store;
      if plan.key in store {
        AloneFromAddingVolume(lib, next, store, listReply, createReply);
      } else {
        var after := AfterCreate(store, plan.key, plan.secret, createReply);
        var last := Advance(lib, next, store, createReply);
        assert Alone(lib, next, store, listReply, createReply) == Alone(lib, last, after, listReply, createReply);
        if last.phase.AddingVolume? {
          AloneFromAddingVolume(lib, last, after, listReply, createReply);
        }
      }
    }
  }

  lemma AloneFromAddingVolume(
      lib: Libraries, publisher: Publisher, store: Secrets, listReply: Reply, createReply: Reply)
    requires publisher.phase.AddingVolume?
    ensures var plan := publisher.phase.plan;
            Alone(lib, publisher, store, listReply, createReply) ==
              (publisher.(phase := Done(plan), target := WithMount(WithVolume(publisher.target, plan), plan)), store)
  {
    var mounting := Advance(lib, publisher, store, createReply);
    var done := Advance(lib, mounting, store, createReply);
    assert Alone(lib, done, store, listReply, createReply) == (done, store);
    assert Alone(lib, mounting, store, listReply, createReply) == (done, store);
  }
}
