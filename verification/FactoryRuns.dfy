/** Any number of callers interleaving on one informer factory: the critical sections are atomic, and the second loop of
    `WaitForCacheSync` runs outside the lock, one informer at a time. */
module FactoryRuns {
  import opened InformerFactory

  /** Informers are numbers. */
  type Id = nat

  /** A caller's progress in `WaitForCacheSync`: the copy taken under the lock, what is still to poll, the result so
      far. */
  datatype Wait =
    | Idle
    | Polling(snapshot: map<ReflectType, Id>, rest: set<ReflectType>, res: map<ReflectType, bool>)
    | Returned(snapshot: map<ReflectType, Id>, res: map<ReflectType, bool>)

  /** `answers` logs every informer that `InformerFor` returned, and to which type's request. */
  datatype State = State(tables: Tables<Id>, waits: map<nat, Wait>, answers: seq<(ReflectType, Id)>)

  /** `offered` is the informer that the caller's `newFunc` returns, if it is called: new or in use already. */
  datatype Action =
    | InformerFor(key: ReflectType, offered: Id)
    | Start
    | BeginWait(caller: nat)
    | PollOne(caller: nat, key: ReflectType, synced: bool)
    | EndWait(caller: nat)

  const EMPTY: State := State(Tables(map[], map[], multiset{}), map[], [])

  function WaitOf(s: State, caller: nat): Wait {
    if caller in s.waits then s.waits[caller] else Idle
  }

  /** An action that is not enabled changes nothing. */
  function Step(s: State, action: Action): State {
    match action
    case InformerFor(key, offered) =>
      var tables := Registered(s.tables, key, offered);
      s.(tables := tables, answers := s.answers + [(key, tables.informers[key])])
    case Start => s.(tables := StartAll(s.tables))
    case BeginWait(caller) =>
      if WaitOf(s, caller).Polling? then s
      else
        var snapshot := StartedPart(s.tables);
        s.(waits := s.waits[caller := Polling(snapshot, snapshot.Keys, map[])])
    case PollOne(caller, key, synced) =>
      var wait := WaitOf(s, caller);
      if !wait.Polling? || key !in wait.rest then s
      else s.(waits := s.waits[caller := wait.(rest := wait.rest - {key}, res := wait.res[key := synced])])
    case EndWait(caller) =>
      var wait := WaitOf(s, caller);
      if !wait.Polling? || wait.rest != {} then s
      else s.(waits := s.waits[caller := Returned(wait.snapshot, wait.res)])
  }

  function Run(s: State, schedule: seq<Action>): State {
    if schedule == [] then s
    else Step(Run(s, schedule[..|schedule| - 1]), schedule[|schedule| - 1])
  }

  lemma RunLast(s: State, schedule: seq<Action>, action: Action)
    ensures Run(s, schedule + [action]) == Step(Run(s, schedule), action)
  {
    assert (schedule + [action])[..|schedule|] == schedule;
  }

  lemma {:induction false} RunOn(s: State, schedule: seq<Action>, more: seq<Action>)
    ensures Run(s, schedule + more) == Run(Run(s, schedule), more)
  {
    if more == [] {
      assert schedule + more == schedule;
    } else {
      var init, last := more[..|more| - 1], more[|more| - 1];
      calc {
        Run(s, schedule + more);
      == { assert schedule + more == (schedule + init) + [last]; }
        Run(s, (schedule + init) + [last]);
      == { RunLast(s, schedule + init, last); }
        Step(Run(s, schedule + init), last);
      == { RunOn(s, schedule, init); }
        Step(Run(Run(s, schedule), init), last);
      == { assert more == init + [last]; RunLast(Run(s, schedule), init, last); }
        Run(Run(s, schedule), more);
      }
    }
  }

  // ----- The invariant -----

  ghost predicate Invariant(s: State) {
    && Sound(s.tables)
    && (forall i :: 0 <= i < |s.answers| ==>
          s.answers[i].0 in s.tables.informers && s.tables.informers[s.answers[i].0] == s.answers[i].1)
  }

  lemma StepKeepsInvariant(s: State, action: Action)
    requires Invariant(s)
    ensures Invariant(Step(s, action))
  {
    match action
    case InformerFor(key, offered) => RegisteredKeepsSound(s.tables, key, offered);
    case Start => StartAllKeepsSound(s.tables);
    case _ =>
  }

  lemma {:induction false} InvariantHolds(schedule: seq<Action>)
    ensures Invariant(Run(EMPTY, schedule))
  {
    if schedule == [] {
    } else {
      InvariantHolds(schedule[..|schedule| - 1]);
      StepKeepsInvariant(Run(EMPTY, schedule[..|schedule| - 1]), schedule[|schedule| - 1]);
    }
  }

  // ----- What only ever grows -----

  /** Registrations stay, and so do start marks. */
  ghost predicate Keeps(before: Tables<Id>, after: Tables<Id>) {
    && (forall key :: key in before.informers ==>
          key in after.informers && after.informers[key] == before.informers[key])
    && (forall key :: IsStarted(before, key) ==> IsStarted(after, key))
  }

  lemma {:induction false} TablesOnlyGrow(s: State, schedule: seq<Action>)
    ensures Keeps(s.tables, Run(s, schedule).tables)
    ensures s.answers <= Run(s, schedule).answers
  {
    if schedule == [] {
    } else {
      TablesOnlyGrow(s, schedule[..|schedule| - 1]);
    }
  }

  // ----- Running informers -----

  /** Over every run, an informer is run if and only if it is registered for a type marked started, and at most once if
      and only if there is no second such type; and what is marked started is registered. */
  lemma RunExactlyWhenStarted(schedule: seq<Action>, informer: Id)
    ensures var tables := Run(EMPTY, schedule).tables;
            && (RunsAtMostOnce(tables, informer) <==> StartedForOneType(tables, informer))
            && ((exists key :: (key, informer) in tables.launches) <==>
                  exists key :: StartedWith(tables, key, informer))
            && forall key :: IsStarted(tables, key) ==> key in tables.informers
  {
    InvariantHolds(schedule);
    var tables := Run(EMPTY, schedule).tables;
    RunOnceMeans(tables, informer);
    forall key
      ensures (key, informer) in tables.launches <==> StartedWith(tables, key, informer)
    {
      LaunchedMeansStarted(tables, key, informer);
    }
  }

  /** What can be checked before a start: it leaves an informer run at most once, over the whole run, exactly when no
      two registered types hold the informer. */
  lemma StartRunsOnce(schedule: seq<Action>, informer: Id)
    ensures RunsAtMostOnce(Run(EMPTY, schedule + [Start]).tables, informer) <==>
              HeldForOneType(Run(EMPTY, schedule).tables, informer)
  {
    RunLast(EMPTY, schedule, Start);
    InvariantHolds(schedule);
    InvariantHolds(schedule + [Start]);
    var tables := Run(EMPTY, schedule).tables;
    StartAllMarks(tables);
    RunOnceMeans(StartAll(tables), informer);
    forall key
      ensures StartedWith(StartAll(tables), key, informer) <==>
                key in tables.informers && tables.informers[key] == informer
    {
    }
  }

  /** Every `newFunc` that is called makes a new informer, as the accessors' does. */
  ghost predicate AlwaysNew(schedule: seq<Action>) {
    forall i :: 0 <= i < |schedule| && schedule[i].InformerFor? ==> OffersNew(schedule, i)
  }

  ghost predicate OffersNew(schedule: seq<Action>, i: nat)
    requires i < |schedule| && schedule[i].InformerFor?
  {
    var informers := Run(EMPTY, schedule[..i]).tables.informers;
    schedule[i].key in informers || schedule[i].offered !in informers.Values
  }

  lemma {:induction false} NewMeansOwn(schedule: seq<Action>)
    requires AlwaysNew(schedule)
    ensures OwnInformers(Run(EMPTY, schedule).tables)
  {
    if schedule == [] {
    } else {
      var init, last := schedule[..|schedule| - 1], schedule[|schedule| - 1];
      forall i | 0 <= i < |init| && init[i].InformerFor?
        ensures OffersNew(init, i)
      {
        assert init[..i] == schedule[..i] && OffersNew(schedule, i);
      }
      NewMeansOwn(init);
      var informers := Run(EMPTY, init).tables.informers;
      if last.InformerFor? && last.key !in informers {
        assert OffersNew(schedule, |init|);
        assert forall key :: key in informers ==> informers[key] in informers.Values;
      }
    }
  }

  /** So with the accessors' function every informer is run at most once, over every run. */
  lemma NewInformersRunOnce(schedule: seq<Action>, informer: Id)
    requires AlwaysNew(schedule)
    ensures RunsAtMostOnce(Run(EMPTY, schedule).tables, informer)
  {
    InvariantHolds(schedule);
    NewMeansOwn(schedule);
    RunOnceMeans(Run(EMPTY, schedule).tables, informer);
  }

  /** A concrete failure: one informer offered for two types is run twice by one `Start`. */
  lemma SharedInformerExample()
    ensures var schedule := [InformerFor("a", 7), InformerFor("b", 7), Start];
            !RunsAtMostOnce(Run(EMPTY, schedule).tables, 7)
  {
    var first, second := InformerFor("a", 7), InformerFor("b", 7);
    RunLast(EMPTY, [], first);
    RunLast(EMPTY, [first], second);
    RunLast(EMPTY, [first, second], Start);
    assert [] + [first] == [first] && [first] + [second] == [first, second];
    assert [first, second] + [Start] == [first, second, Start];
    var before := Run(EMPTY, [first, second]).tables;
    assert before.informers == map["a" := 7, "b" := 7];
    InvariantHolds([first, second, Start]);
    StartAllMarks(before);
    RunOnceMeans(StartAll(before), 7);
  }

  lemma OnlyStartStarts(s: State, action: Action, key: ReflectType)
    requires key in s.tables.informers
    ensures IsStarted(Step(s, action).tables, key) <==> IsStarted(s.tables, key) || action == Start
  {
  }

  /** A registered type becomes started exactly when some later `Start` takes the lock. */
  lemma {:induction false} StartedByStart(s: State, schedule: seq<Action>, key: ReflectType)
    requires key in s.tables.informers
    ensures IsStarted(Run(s, schedule).tables, key) <==> IsStarted(s.tables, key) || Start in schedule
  {
    if schedule == [] {
    } else {
      var init, last := schedule[..|schedule| - 1], schedule[|schedule| - 1];
      assert schedule == init + [last];
      StartedByStart(s, init, key);
      TablesOnlyGrow(s, init);
      OnlyStartStarts(Run(s, init), last, key);
    }
  }

  /** The informer that a request returned: however calls interleave before and after, it stays the registered one,
      and it is run for its type, once, exactly when it was running already or a `Start` follows. So the HasSynced
      that the webhook keeps belongs to the informer that the later `Start` runs, and one obtained after the last
      `Start` never runs. */
  lemma ReturnedInformerRuns(before: seq<Action>, request: Action, after: seq<Action>)
    requires request.InformerFor?
    ensures var s := Run(EMPTY, before);
            var returned := Step(s, request).answers[|s.answers|].1;
            var end := Run(EMPTY, before + [request] + after).tables;
            && request.key in end.informers && end.informers[request.key] == returned
            && end.launches[(request.key, returned)]
            == if IsStarted(s.tables, request.key) || Start in after then 1 else 0
  {
    var s := Run(EMPTY, before);
    var middle := Step(s, request);
    RunLast(EMPTY, before, request);
    RunOn(EMPTY, before + [request], after);
    TablesOnlyGrow(middle, after);
    StartedByStart(middle, after, request.key);
    InvariantHolds(before);
    InvariantHolds(before + [request] + after);
  }

  /** All requests for one type are answered with one informer, whoever asks and whatever is offered; and if what is
      offered is new, requests for different types get different ones. */
  lemma AnswersAgree(schedule: seq<Action>, i: nat, j: nat)
    requires i < |Run(EMPTY, schedule).answers| && j < |Run(EMPTY, schedule).answers|
    ensures var answers := Run(EMPTY, schedule).answers;
            && (answers[i].0 == answers[j].0 ==> answers[i].1 == answers[j].1)
            && (AlwaysNew(schedule) ==> (answers[i].0 == answers[j].0 <==> answers[i].1 == answers[j].1))
  {
    InvariantHolds(schedule);
    if AlwaysNew(schedule) {
      NewMeansOwn(schedule);
    }
  }

  // ----- WaitForCacheSync -----

  ghost predicate Polled(later: seq<Action>, caller: nat, key: ReflectType) {
    exists synced :: PollOne(caller, key, synced) in later
  }

  /** Every answer is that of a poll. */
  ghost predicate FromPolls(later: seq<Action>, caller: nat, res: map<ReflectType, bool>) {
    forall key :: key in res ==> PollOne(caller, key, res[key]) in later
  }

  /** Where one wait stands after `later`, given the tables it copied under the lock. */
  ghost predicate WaitSound(copied: map<ReflectType, Id>, later: seq<Action>, caller: nat, wait: Wait) {
    match wait
    case Idle => false
    case Polling(snapshot, rest, res) =>
      && snapshot == copied && rest <= copied.Keys && res.Keys == copied.Keys - rest && FromPolls(later, caller, res)
      && forall key :: key in rest ==> !Polled(later, caller, key)
    case Returned(snapshot, res) => snapshot == copied && res.Keys == copied.Keys && FromPolls(later, caller, res)
  }

  lemma WaitStep(copied: map<ReflectType, Id>, s: State, caller: nat, init: seq<Action>, last: Action)
    requires WaitSound(copied, init, caller, WaitOf(s, caller)) && last != BeginWait(caller)
    ensures WaitSound(copied, init + [last], caller, WaitOf(Step(s, last), caller))
  {
    var wait, next := WaitOf(s, caller), WaitOf(Step(s, last), caller);
    assert forall action :: action in init + [last] <==> action in init || action == last;
    if next.Polling? {
      forall key | key in next.rest
        ensures !Polled(init + [last], caller, key)
      {
        assert !Polled(init, caller, key);
        forall synced
          ensures PollOne(caller, key, synced) !in init + [last]
        {
        }
      }
    }
  }

  lemma {:induction false} WaitKeepsSnapshot(s: State, caller: nat, later: seq<Action>)
    requires !WaitOf(s, caller).Polling? && BeginWait(caller) !in later
    ensures WaitSound(StartedPart(s.tables), later, caller, WaitOf(Run(Step(s, BeginWait(caller)), later), caller))
  {
    if later == [] {
    } else {
      var init, last := later[..|later| - 1], later[|later| - 1];
      assert later == init + [last];
      WaitKeepsSnapshot(s, caller, init);
      WaitStep(StartedPart(s.tables), Run(Step(s, BeginWait(caller)), init), caller, init, last);
    }
  }

  /** `WaitForCacheSync` reports on exactly the types started when it held the lock, and for each the answer of its
      poll; and at every later moment, so all through its unlocked loop, each informer it waits for is still the
      registered one, is still started, and has been run once. */
  lemma WaitReportsStarted(before: seq<Action>, caller: nat, later: seq<Action>)
    requires !WaitOf(Run(EMPTY, before), caller).Polling? && BeginWait(caller) !in later
    ensures var atBegin := Run(EMPTY, before).tables;
            var end := Run(EMPTY, before + [BeginWait(caller)] + later);
            var wait := WaitOf(end, caller);
            && !wait.Idle?
            && FromPolls(later, caller, wait.res)
            && (wait.Returned? ==> forall key :: key in wait.res <==> IsStarted(atBegin, key))
            && forall key :: key in wait.snapshot ==>
                 && IsStarted(atBegin, key) && IsStarted(end.tables, key)
                 && key in end.tables.informers && end.tables.informers[key] == wait.snapshot[key]
                 && end.tables.launches[(key, wait.snapshot[key])] == 1
  {
    var s := Run(EMPTY, before);
    RunLast(EMPTY, before, BeginWait(caller));
    RunOn(EMPTY, before + [BeginWait(caller)], later);
    WaitKeepsSnapshot(s, caller, later);
    TablesOnlyGrow(Step(s, BeginWait(caller)), later);
    InvariantHolds(before);
    InvariantHolds(before + [BeginWait(caller)] + later);
  }

  /** A wait can end exactly when it has polled every type that was started when it held the lock. */
  lemma WaitReturnsWhenPolled(before: seq<Action>, caller: nat, later: seq<Action>)
    requires !WaitOf(Run(EMPTY, before), caller).Polling? && BeginWait(caller) !in later
    ensures WaitOf(Run(EMPTY, before + [BeginWait(caller)] + later + [EndWait(caller)]), caller).Returned? <==>
              forall key :: IsStarted(Run(EMPTY, before).tables, key) ==> Polled(later, caller, key)
  {
    var s := Run(EMPTY, before);
    var copied := StartedPart(s.tables);
    RunLast(EMPTY, before, BeginWait(caller));
    RunOn(EMPTY, before + [BeginWait(caller)], later);
    RunLast(EMPTY, before + [BeginWait(caller)] + later, EndWait(caller));
    WaitKeepsSnapshot(s, caller, later);
    InvariantHolds(before);
    assert forall key :: key in copied <==> IsStarted(s.tables, key);
    var wait := WaitOf(Run(EMPTY, before + [BeginWait(caller)] + later), caller);
    forall key | key in wait.res
      ensures Polled(later, caller, key)
    {
      assert PollOne(caller, key, wait.res[key]) in later;
    }
    if wait.Polling? && wait.rest != {} {
      var key :| key in wait.rest;
      assert !Polled(later, caller, key);
    }
  }
}
