/** The shared informer factory: a lock-protected memo table of informers and the record of those started. Every method
    that holds the lock is one critical section. */
module InformerFactory {
  /** Go's `reflect.Type` of the object an informer watches. */
  type ReflectType = string

  const VAULT_MAP: ReflectType := "*v1alpha1.VaultMap"

  /** The factory's tables, over any type of informers. `launches` counts the `go informer.Run` statements executed. */
  datatype Tables<I(==)> = Tables(
    informers: map<ReflectType, I>,
    startedInformers: map<ReflectType, bool>,
    launches: multiset<(ReflectType, I)>)

  /** A map read of a missing key gives false. */
  predicate IsStarted<I>(t: Tables<I>, key: ReflectType) {
    key in t.startedInformers && t.startedInformers[key]
  }

  /** The registered types that are not started yet. */
  function Unstarted<I>(t: Tables<I>): set<ReflectType> {
    set key | key in t.informers && !IsStarted(t, key)
  }

  function StartedPart<I>(t: Tables<I>): map<ReflectType, I> {
    map key | key in t.informers && IsStarted(t, key) :: t.informers[key]
  }

  function Pairs<I(==)>(t: Tables<I>, keys: set<ReflectType>): set<(ReflectType, I)>
    requires keys <= t.informers.Keys
  {
    set key | key in keys :: (key, t.informers[key])
  }

  /** After launching the informers of `keys`. */
  function Launched<I(==)>(t: Tables<I>, keys: set<ReflectType>): Tables<I>
    requires keys <= t.informers.Keys
  {
    t.(startedInformers := t.startedInformers + (map key | key in keys :: true),
       launches := t.launches + multiset(Pairs(t, keys)))
  }

  /** `Start`: whatever the order of the range loop, each registered type that was not started is launched once. */
  function StartAll<I(==)>(t: Tables<I>): Tables<I> {
    Launched(t, Unstarted(t))
  }

  /** `InformerFor`: the first caller's informer is kept. */
  function Registered<I>(t: Tables<I>, key: ReflectType, informer: I): Tables<I> {
    if key in t.informers then t else t.(informers := t.informers[key := informer])
  }

  /** What is started is registered. */
  ghost predicate TablesAgree<I>(t: Tables<I>) {
    forall key :: IsStarted(t, key) ==> key in t.informers
  }

  /** Only registered informers are launched, once for each type that is marked started and not at all otherwise. */
  ghost predicate LaunchesMatch<I>(t: Tables<I>) {
    && (forall launch :: launch in t.launches ==> launch.0 in t.informers && t.informers[launch.0] == launch.1)
    && (forall key :: key in t.informers ==> t.launches[(key, t.informers[key])] == if IsStarted(t, key) then 1 else 0)
  }

  ghost predicate Sound<I>(t: Tables<I>) {
    TablesAgree(t) && LaunchesMatch(t)
  }

  /** Over all types, an informer has been launched at most once. */
  ghost predicate RunsAtMostOnce<I>(t: Tables<I>, informer: I) {
    forall a, b :: (a, informer) in t.launches && (b, informer) in t.launches ==>
      a == b && t.launches[(a, informer)] == 1
  }

  ghost predicate StartedWith<I>(t: Tables<I>, key: ReflectType, informer: I) {
    IsStarted(t, key) && key in t.informers && t.informers[key] == informer
  }

  /** No two started types hold this informer. */
  ghost predicate StartedForOneType<I>(t: Tables<I>, informer: I) {
    forall a, b :: StartedWith(t, a, informer) && StartedWith(t, b, informer) ==> a == b
  }

  /** No two registered types hold this informer. */
  ghost predicate HeldForOneType<I>(t: Tables<I>, informer: I) {
    forall a, b :: a in t.informers && b in t.informers && t.informers[a] == t.informers[b] == informer ==> a == b
  }

  /** Types have informers of their own. */
  ghost predicate OwnInformers<I>(t: Tables<I>) {
    forall a, b :: a in t.informers && b in t.informers && t.informers[a] == t.informers[b] ==> a == b
  }

  lemma OneMore<T>(s: set<T>, x: T)
    requires x !in s
    ensures multiset(s + {x}) == multiset(s) + multiset{x}
  {
  }

  lemma OnePairMore<I>(t: Tables<I>, keys: set<ReflectType>, key: ReflectType)
    requires keys <= t.informers.Keys && key in t.informers && key !in keys
    ensures (key, t.informers[key]) !in Pairs(t, keys)
    ensures Pairs(t, keys + {key}) == Pairs(t, keys) + {(key, t.informers[key])}
  {
  }

  lemma LaunchedOne<I>(t: Tables<I>, keys: set<ReflectType>, key: ReflectType)
    requires keys <= t.informers.Keys && key in t.informers && key !in keys
    ensures var before, after := Launched(t, keys), Launched(t, keys + {key});
            && after.startedInformers == before.startedInformers[key := true]
            && after.launches == before.launches + multiset{(key, t.informers[key])}
  {
    OnePairMore(t, keys, key);
    OneMore(Pairs(t, keys), (key, t.informers[key]));
  }

  lemma LaunchCount<I>(t: Tables<I>, keys: set<ReflectType>, launch: (ReflectType, I))
    requires keys <= t.informers.Keys
    ensures Launched(t, keys).launches[launch]
         == t.launches[launch] + if launch.0 in keys && t.informers[launch.0] == launch.1 then 1 else 0
  {
    assert launch in Pairs(t, keys) <==> launch.0 in keys && t.informers[launch.0] == launch.1;
  }

  lemma StartsNothing<I>(t: Tables<I>)
    ensures Launched(t, Unstarted(t) - t.informers.Keys) == t
  {
    var now := Launched(t, Unstarted(t) - t.informers.Keys);
    forall launch: (ReflectType, I)
      ensures now.launches[launch] == t.launches[launch]
    {
      LaunchCount(t, Unstarted(t) - t.informers.Keys, launch);
    }
    assert now.launches == t.launches;
  }

  function LaunchedIfNew<I(==)>(t: Tables<I>, key: ReflectType): Tables<I>
    requires key in t.informers
  {
    if IsStarted(t, key) then t
    else t.(startedInformers := t.startedInformers[key := true],
            launches := t.launches + multiset{(key, t.informers[key])})
  }

  /** One iteration of the range loop in `Start`, when the types in `rest` are still to come. */
  lemma LaunchNext<I>(t: Tables<I>, rest: set<ReflectType>, key: ReflectType)
    requires rest <= t.informers.Keys && key in rest
    ensures var now := Launched(t, Unstarted(t) - rest);
            Launched(t, Unstarted(t) - (rest - {key})) == LaunchedIfNew(now, key)
  {
    var done := Unstarted(t) - rest;
    assert IsStarted(Launched(t, done), key) <==> IsStarted(t, key);
    if IsStarted(t, key) {
      assert Unstarted(t) - (rest - {key}) == done;
    } else {
      assert Unstarted(t) - (rest - {key}) == done + {key};
      LaunchedOne(t, done, key);
    }
  }

  lemma StartAllMarks<I>(t: Tables<I>)
    requires TablesAgree(t)
    ensures TablesAgree(StartAll(t))
    ensures forall key :: IsStarted(StartAll(t), key) <==> key in t.informers
  {
  }

  lemma StartAllKeepsSound<I>(t: Tables<I>)
    requires Sound(t)
    ensures Sound(StartAll(t))
    ensures forall key :: IsStarted(StartAll(t), key) <==> key in t.informers
  {
    var keys := Unstarted(t);
    var after := StartAll(t);
    StartAllMarks(t);
    forall launch | launch in after.launches
      ensures launch.0 in t.informers && t.informers[launch.0] == launch.1
    {
      LaunchCount(t, keys, launch);
    }
    forall key | key in t.informers
      ensures after.launches[(key, t.informers[key])] == 1
    {
      LaunchCount(t, keys, (key, t.informers[key]));
      assert IsStarted(t, key) <==> key !in keys;
    }
    assert LaunchesMatch(after);
  }

  /** Whatever informer the caller's function returns, registering it keeps the tables sound. */
  lemma RegisteredKeepsSound<I>(t: Tables<I>, key: ReflectType, informer: I)
    requires Sound(t)
    ensures Sound(Registered(t, key, informer))
  {
    if key !in t.informers {
      assert (key, informer) !in t.launches;
    }
  }

  lemma LaunchedMeansStarted<I>(t: Tables<I>, key: ReflectType, informer: I)
    requires Sound(t)
    ensures (key, informer) in t.launches <==> StartedWith(t, key, informer)
    ensures t.launches[(key, informer)] <= 1
  {
    var launch := (key, informer);
    if launch in t.launches {
      assert launch.0 in t.informers && t.informers[launch.0] == launch.1;
    }
  }

  /** An informer has been run at most once exactly when no two started types hold it. */
  lemma RunOnceMeans<I>(t: Tables<I>, informer: I)
    requires Sound(t)
    ensures RunsAtMostOnce(t, informer) <==> StartedForOneType(t, informer)
  {
    if StartedForOneType(t, informer) {
      forall a, b | (a, informer) in t.launches && (b, informer) in t.launches
        ensures a == b && t.launches[(a, informer)] == 1
      {
        LaunchedMeansStarted(t, a, informer);
        LaunchedMeansStarted(t, b, informer);
      }
    } else {
      var a, b :| StartedWith(t, a, informer) && StartedWith(t, b, informer) && a != b;
      LaunchedMeansStarted(t, a, informer);
      LaunchedMeansStarted(t, b, informer);
    }
  }

  /** The store an informer fills and its lister reads. */
  class Indexer {
    constructor () {
    }
  }

  class SharedIndexInformer {
    const objectType: ReflectType
    const resync: int
    const namespace: string
    const tweak: string
    const indexer: Indexer
    var handlers: nat

    constructor (objectType: ReflectType, resync: int, namespace: string, tweak: string)
      ensures this.objectType == objectType && this.resync == resync
      ensures this.namespace == namespace && this.tweak == tweak && handlers == 0
      ensures fresh(indexer)
    {
      this.objectType, this.resync := objectType, resync;
      this.namespace, this.tweak := namespace, tweak;
      indexer := new Indexer();
      handlers := 0;
    }

    method AddEventHandler()
      modifies this
      ensures handlers == old(handlers) + 1
    {
      handlers := handlers + 1;
    }
  }

  class SharedInformerFactory {
    const namespace: string
    const tweakListOptions: string
    const defaultResync: int
    var informers: map<ReflectType, SharedIndexInformer>
    var startedInformers: map<ReflectType, bool>
    ghost var launches: multiset<(ReflectType, SharedIndexInformer)>

    ghost function View(): Tables<SharedIndexInformer>
      reads this
    {
      Tables(informers, startedInformers, launches)
    }

    ghost predicate Valid()
      reads this
    {
      Sound(View())
    }

    constructor (defaultResync: int, namespace: string, tweakListOptions: string)
      ensures Valid() && View() == Tables(map[], map[], multiset{})
      ensures this.namespace == namespace && this.tweakListOptions == tweakListOptions
      ensures this.defaultResync == defaultResync
    {
      this.defaultResync, this.namespace, this.tweakListOptions := defaultResync, namespace, tweakListOptions;
      informers, startedInformers, launches := map[], map[], multiset{};
    }

    /** Safe to call any number of times, concurrently with everything else. */
    method Start()
      requires Valid()
      modifies this
      ensures Valid() && View() == StartAll(old(View()))
      ensures informers == old(informers)
      ensures forall key :: key in informers ==>
                && key in startedInformers && startedInformers[key]
                && launches[(key, informers[key])] == 1
    {
      StartAllKeepsSound(View());
      LaunchUnstarted();
    }

    /** The range loop of `Start`. */
    method LaunchUnstarted()
      modifies this
      ensures View() == StartAll(old(View()))
    {
      ghost var before := View();
      ghost var now := before;
      StartsNothing(before);
      var rest := informers.Keys;
      while rest != {}
        invariant rest <= informers.Keys && informers == before.informers
        invariant View() == now && now == Launched(before, Unstarted(before) - rest)
        decreases rest
      {
        var informerType :| informerType in rest;
        var informer := informers[informerType];
        LaunchNext(before, rest, informerType);
        now := LaunchedIfNew(now, informerType);
        if !(informerType in startedInformers && startedInformers[informerType]) {
          launches := launches + multiset{(informerType, informer)};
          startedInformers := startedInformers[informerType := true];
        }
        assert View() == now;
        rest := rest - {informerType};
      }
      assert Unstarted(before) - rest == Unstarted(before);
    }

    /** The informer registered for `key`, obtained from the caller's `newFunc` if there is none yet. */
    method InformerFor(key: ReflectType, newFunc: NewInformerFunc) returns (informer: SharedIndexInformer)
      requires Valid()
      modifies this
      ensures Valid() && View() == Registered(old(View()), key, informer)
      ensures key in informers && informers[key] == informer
      ensures informers == if key in old(informers) then old(informers) else old(informers)[key := informer]
      ensures startedInformers == old(startedInformers) && launches == old(launches)
      ensures key !in old(informers) ==>
                match newFunc
                case Returning(other) => informer == other
                case Default(accessor) =>
                  && fresh(informer) && informer.handlers == 0
                  && informer.objectType == VAULT_MAP && informer.resync == defaultResync
                  && informer.namespace == accessor.namespace && informer.tweak == accessor.tweakListOptions
    {
      if key in informers {
        informer := informers[key];
        return;
      }
      match newFunc {
        case Returning(other) => informer := other;
        case Default(accessor) => informer := accessor.DefaultInformer(defaultResync);
      }
      RegisteredKeepsSound(View(), key, informer);
      informers := informers[key := informer];
    }

    /** The copy that `WaitForCacheSync` takes under the lock. */
    method StartedInformers() returns (started: map<ReflectType, SharedIndexInformer>)
      ensures started == StartedPart(View())
      ensures forall key :: key in started <==> key in informers && key in startedInformers && startedInformers[key]
      ensures forall key :: key in started ==> started[key] == informers[key]
    {
      started := map[];
      var rest := informers.Keys;
      while rest != {}
        invariant rest <= informers.Keys
        invariant forall key :: key in started <==> key in informers && key !in rest && IsStarted(View(), key)
        invariant forall key :: key in started ==> started[key] == informers[key]
        decreases rest
      {
        var informerType :| informerType in rest;
        if informerType in startedInformers && startedInformers[informerType] {
          started := started[informerType := informers[informerType]];
        }
        rest := rest - {informerType};
      }
    }

    /** With no call in between: the answers are about exactly the started types. `synced` stands for the library's
        polling of one informer's HasSynced until it holds or the channel closes. */
    method WaitForCacheSync(synced: map<ReflectType, bool>) returns (res: map<ReflectType, bool>)
      requires forall key :: key in informers ==> key in synced
      ensures forall key :: key in res <==> key in informers && key in startedInformers && startedInformers[key]
      ensures forall key :: key in res ==> res[key] == synced[key]
    {
      var snapshot := StartedInformers();
      res := map[];
      var rest := snapshot.Keys;
      while rest != {}
        invariant rest <= snapshot.Keys
        invariant forall key :: key in res <==> key in snapshot && key !in rest
        invariant forall key :: key in res ==> key in synced && res[key] == synced[key]
        decreases rest
      {
        var informType :| informType in rest;
        res := res[informType := synced[informType]];
        rest := rest - {informType};
      }
    }
  }

  /** What a caller may pass to `InformerFor`: an accessor's own function, which makes a new informer, or any other, of
      which only the informer it returns matters. */
  datatype NewInformerFunc = Default(accessor: VaultMapInformer) | Returning(informer: SharedIndexInformer)

  datatype VaultMapLister = VaultMapLister(indexer: Indexer)

  /** An accessor: many may exist for one factory, all routed through its memo table. */
  datatype VaultMapInformer = VaultMapInformer(
    factory: SharedInformerFactory, namespace: string, tweakListOptions: string)
  {
    method DefaultInformer(resyncPeriod: int) returns (informer: SharedIndexInformer)
      ensures fresh(informer) && fresh(informer.indexer)
      ensures informer.objectType == VAULT_MAP && informer.resync == resyncPeriod && informer.handlers == 0
      ensures informer.namespace == namespace && informer.tweak == tweakListOptions
    {
      informer := new SharedIndexInformer(VAULT_MAP, resyncPeriod, namespace, tweakListOptions);
    }

    method Informer() returns (informer: SharedIndexInformer)
      requires factory.Valid()
      modifies factory
      ensures factory.Valid() && factory.View() == Registered(old(factory.View()), VAULT_MAP, informer)
      ensures VAULT_MAP in factory.informers && factory.informers[VAULT_MAP] == informer
      ensures VAULT_MAP !in old(factory.informers) ==>
                && fresh(informer) && informer.handlers == 0
                && informer.objectType == VAULT_MAP && informer.resync == factory.defaultResync
                && informer.namespace == namespace && informer.tweak == tweakListOptions
    {
      informer := factory.InformerFor(VAULT_MAP, Default(this));
    }

    method Lister() returns (lister: VaultMapLister)
      requires factory.Valid()
      modifies factory
      ensures factory.Valid() && VAULT_MAP in factory.informers
      ensures factory.View() == Registered(old(factory.View()), VAULT_MAP, factory.informers[VAULT_MAP])
      ensures lister.indexer == factory.informers[VAULT_MAP].indexer
      ensures VAULT_MAP !in old(factory.informers) ==>
                var informer := factory.informers[VAULT_MAP];
                && fresh(informer) && informer.handlers == 0
                && informer.objectType == VAULT_MAP && informer.resync == factory.defaultResync
                && informer.namespace == namespace && informer.tweak == tweakListOptions
    {
      var informer := Informer();
      lister := VaultMapLister(informer.indexer);
    }
  }

  /** The informer calls of `NewWebhook`, in its order: the lister reads, the kept HasSynced belongs to, and the
      handler is added to, one and the same informer, which is the registered one; nothing is started. */
  method NewWebhook(factory: SharedInformerFactory)
    returns (mapsLister: VaultMapLister, mapsSynced: SharedIndexInformer)
    requires factory.Valid()
    modifies factory, factory.informers.Values
    ensures factory.Valid()
    ensures factory.View() == Registered(old(factory.View()), VAULT_MAP, mapsSynced)
    ensures factory.informers[VAULT_MAP] == mapsSynced && mapsLister.indexer == mapsSynced.indexer
    ensures mapsSynced.handlers
         == 1 + if VAULT_MAP in old(factory.informers) then old(factory.informers[VAULT_MAP].handlers) else 0
    ensures VAULT_MAP !in old(factory.informers) ==>
              && fresh(mapsSynced)
              && mapsSynced.objectType == VAULT_MAP && mapsSynced.resync == factory.defaultResync
              && mapsSynced.namespace == factory.namespace && mapsSynced.tweak == factory.tweakListOptions
    ensures forall other :: other in old(factory.informers.Values) && other != mapsSynced ==>
              other.handlers == old(other.handlers)
  {
    var mapsInformer := VaultMapInformer(factory, factory.namespace, factory.tweakListOptions);
    mapsLister := mapsInformer.Lister();
    mapsSynced := mapsInformer.Informer();
    var handled := mapsInformer.Informer();
    handled.AddEventHandler();
  }
}
