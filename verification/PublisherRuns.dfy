/** Any number of volume publishers interleaving on one store: what holds in every reachable state. */
module PublisherRuns {
  import opened Wrappers
  import opened Deployments
  import opened SecretStore
  import opened VaultMapTypes
  import opened VolumePublisher
  import MapRange

  /** One atomic step of publisher `who`. A schedule is any sequence of turns, so it fixes one interleaving. */
  datatype Turn = Turn(who: nat, reply: Reply)

  /** A secret that came into being, and whose request made it. */
  datatype Creation = Creation(key: Key, who: nat)

  datatype State = State(store: Secrets, publishers: seq<Publisher>, created: seq<Creation>)

  /** Every publisher is about to start; the store holds anything. */
  predicate Initial(s: State) {
    && s.created == []
    && forall i :: 0 <= i < |s.publishers| ==> s.publishers[i].phase.Starting?
  }

  /** A turn of a publisher that does not exist, or has ended, changes nothing. */
  function Step(lib: Libraries, s: State, turn: Turn): State {
    if turn.who >= |s.publishers| then s
    else
      var publisher := s.publishers[turn.who];
      var store := StoreAfter(publisher, s.store, turn.reply);
      State(store,
            s.publishers[turn.who := Advance(lib, publisher, s.store, turn.reply)],
            if store == s.store then s.created else s.created + [Creation(publisher.phase.plan.key, turn.who)])
  }

  function Run(lib: Libraries, s: State, schedule: seq<Turn>): State {
    if schedule == [] then s
    else Step(lib, Run(lib, s, schedule[..|schedule| - 1]), schedule[|schedule| - 1])
  }

  lemma RunLast(lib: Libraries, s: State, schedule: seq<Turn>, turn: Turn)
    ensures Run(lib, s, schedule + [turn]) == Step(lib, Run(lib, s, schedule), turn)
  {
    assert (schedule + [turn])[..|schedule|] == schedule;
  }

  lemma {:induction false} RunOn(lib: Libraries, s: State, schedule: seq<Turn>, more: seq<Turn>)
    ensures Run(lib, s, schedule + more) == Run(lib, Run(lib, s, schedule), more)
  {
    if more == [] {
      assert schedule + more == schedule;
    } else {
      var init, last := more[..|more| - 1], more[|more| - 1];
      RunOn(lib, s, schedule, init);
      assert schedule + more == (schedule + init) + [last];
      RunLast(lib, s, schedule + init, last);
    }
  }

  lemma RunFirst(lib: Libraries, s: State, turn: Turn, more: seq<Turn>)
    ensures Run(lib, s, [turn] + more) == Run(lib, Step(lib, s, turn), more)
  {
    RunLast(lib, s, [], turn);
    assert [] + [turn] == [turn];
    RunOn(lib, s, [turn], more);
  }

  /** A publisher that has the server to itself until it ends is one of the interleavings, from any state; so
      whatever holds over all runs holds of `PublishSecrets`. */
  lemma {:induction false} AloneIsARun(lib: Libraries, s: State, who: nat, listReply: Reply, createReply: Reply)
    returns (schedule: seq<Turn>)
    requires who < |s.publishers|
    ensures var end := Run(lib, s, schedule);
            var (last, after) := Alone(lib, s.publishers[who], s.store, listReply, createReply);
            end.publishers == s.publishers[who := last] && end.store == after
    decreases StepsLeft(s.publishers[who].phase)
  {
    var publisher := s.publishers[who];
    if publisher.Ended() {
      schedule := [];
    } else {
      var turn := Turn(who, if publisher.phase.Checking? then listReply else createReply);
      var next := Step(lib, s, turn);
      AloneNext(lib, publisher, s.store, listReply, createReply);
      var rest := AloneIsARun(lib, next, who, listReply, createReply);
      RunFirst(lib, s, turn, rest);
      schedule := [turn] + rest;
      var (last, after) := Alone(lib, publisher, s.store, listReply, createReply);
      assert next.publishers[who := last] == s.publishers[who := last];
    }
  }

  // ----- The store -----

  /** Every secret of `before` is in `after` with the same contents. */
  ghost predicate Keeps(before: Secrets, after: Secrets) {
    forall key :: key in before ==> key in after && after[key] == before[key]
  }

  /** No secret ever disappears and no stored data ever changes. */
  lemma {:induction false} StoreOnlyGrows(lib: Libraries, s: State, schedule: seq<Turn>)
    ensures Keeps(s.store, Run(lib, s, schedule).store)
    ensures |Run(lib, s, schedule).publishers| == |s.publishers|
  {
    if schedule == [] {
    } else {
      StoreOnlyGrows(lib, s, schedule[..|schedule| - 1]);
    }
  }

  // ----- The invariant -----

  ghost function PlanOf(lib: Libraries, s0: State, who: nat): Result<Plan, Error>
    requires who < |s0.publishers|
  {
    var publisher := s0.publishers[who];
    Prepare(lib, publisher.spec, publisher.target, publisher.secrets)
  }

  /** Publisher `now` is on its way from `start`: its plan, and its deployment, are what its phase says they are. */
  ghost predicate OnItsWay(lib: Libraries, start: Publisher, now: Publisher, store: Secrets) {
    var prepared := Prepare(lib, start.spec, start.target, start.secrets);
    && now.spec == start.spec && now.secrets == start.secrets
    && match now.phase
       case Starting => now.target == start.target
       case Checking(plan) => prepared == Success(plan) && now.target == start.target
       case Creating(plan) => prepared == Success(plan) && now.target == start.target
       case AddingVolume(plan) => prepared == Success(plan) && now.target == start.target && plan.key in store
       case AddingMount(plan) =>
         prepared == Success(plan) && now.target == WithVolume(start.target, plan) && plan.key in store
       case Done(plan) =>
         prepared == Success(plan) && now.target == WithMount(WithVolume(start.target, plan), plan) && plan.key in store
       case Failed(_) => now.target == start.target
  }

  function CreatedKeys(created: seq<Creation>): set<Key> {
    set creation | creation in created :: creation.key
  }

  lemma OneMoreCreated(created: seq<Creation>, last: Creation)
    ensures CreatedKeys(created + [last]) == CreatedKeys(created) + {last.key}
  {
    assert forall creation :: creation in created + [last] <==> creation in created || creation == last;
  }

  /** What the log of creations says about the store. */
  ghost predicate LogExplainsStore(lib: Libraries, s0: State, s: State) {
    && (forall i, j :: 0 <= i < j < |s.created| ==> s.created[i].key != s.created[j].key)
    && s.store.Keys == s0.store.Keys + CreatedKeys(s.created)
    && forall i :: 0 <= i < |s.created| ==> CreationSound(lib, s0, s, s.created[i])
  }

  /** The created secret is new, and its data is exactly what its creator asked for. */
  ghost predicate CreationSound(lib: Libraries, s0: State, s: State, creation: Creation) {
    && creation.who < |s0.publishers|
    && creation.key !in s0.store
    && creation.key in s.store
    && var creator := s0.publishers[creation.who];
    && var prepared := Prepare(lib, creator.spec, creator.target, creator.secrets);
    && prepared.Success? && prepared.value.key == creation.key && prepared.value.secret == s.store[creation.key]
  }

  /** What is stored now and was not before has been created by someone. */
  lemma CreationOf(lib: Libraries, s0: State, s: State, key: Key) returns (i: nat)
    requires LogExplainsStore(lib, s0, s) && key in s.store && key !in s0.store
    ensures i < |s.created| && s.created[i].key == key && CreationSound(lib, s0, s, s.created[i])
  {
    assert key in CreatedKeys(s.created);
    i :| i < |s.created| && s.created[i].key == key;
  }

  ghost predicate Invariant(lib: Libraries, s0: State, s: State) {
    && |s.publishers| == |s0.publishers|
    && (forall i :: 0 <= i < |s.publishers| ==> OnItsWay(lib, s0.publishers[i], s.publishers[i], s.store))
    && Keeps(s0.store, s.store)
    && LogExplainsStore(lib, s0, s)
  }

  lemma OnItsWayStep(lib: Libraries, start: Publisher, now: Publisher, store: Secrets, reply: Reply)
    requires OnItsWay(lib, start, now, store)
    ensures OnItsWay(lib, start, Advance(lib, now, store, reply), StoreAfter(now, store, reply))
  {
  }

  lemma CreationLogged(lib: Libraries, s0: State, s: State, next: State, who: nat, plan: Plan)
    requires LogExplainsStore(lib, s0, s)
    requires who < |s0.publishers| && PlanOf(lib, s0, who) == Success(plan)
    requires plan.key !in s.store && next.store == s.store[plan.key := plan.secret]
    requires next.created == s.created + [Creation(plan.key, who)]
    ensures LogExplainsStore(lib, s0, next)
  {
    OneMoreCreated(s.created, Creation(plan.key, who));
    assert plan.key !in CreatedKeys(s.created);
    forall i | 0 <= i < |next.created|
      ensures CreationSound(lib, s0, next, next.created[i])
    {
      if i < |s.created| {
        assert CreationSound(lib, s0, s, s.created[i]);
      }
    }
    forall i, j | 0 <= i < j < |next.created|
      ensures next.created[i].key != next.created[j].key
    {
      assert s.created[i] in s.created;
    }
  }

  /** One turn either leaves the store and the log alone, or creates what the publisher planned. */
  lemma StepCreates(lib: Libraries, s0: State, s: State, turn: Turn)
    requires |s.publishers| == |s0.publishers|
    requires turn.who < |s.publishers| ==> OnItsWay(lib, s0.publishers[turn.who], s.publishers[turn.who], s.store)
    ensures var next := Step(lib, s, turn);
            || (next.store == s.store && next.created == s.created)
            || (&& turn.who < |s0.publishers| && PlanOf(lib, s0, turn.who).Success?
                && var plan := PlanOf(lib, s0, turn.who).value;
                && plan.key !in s.store && next.store == s.store[plan.key := plan.secret]
                && next.created == s.created + [Creation(plan.key, turn.who)])
  {
  }

  lemma LogStep(lib: Libraries, s0: State, s: State, turn: Turn)
    requires Invariant(lib, s0, s)
    ensures LogExplainsStore(lib, s0, Step(lib, s, turn))
    ensures Keeps(s.store, Step(lib, s, turn).store)
  {
    var next := Step(lib, s, turn);
    StepCreates(lib, s0, s, turn);
    if next.store != s.store {
      CreationLogged(lib, s0, s, next, turn.who, PlanOf(lib, s0, turn.who).value);
    } else {
      forall i | 0 <= i < |s.created|
        ensures CreationSound(lib, s0, next, s.created[i])
      {
        assert CreationSound(lib, s0, s, s.created[i]);
      }
    }
  }

  lemma PublishersStep(lib: Libraries, s0: State, s: State, turn: Turn, i: nat)
    requires Invariant(lib, s0, s) && i < |s.publishers|
    ensures |Step(lib, s, turn).publishers| == |s.publishers|
    ensures OnItsWay(lib, s0.publishers[i], Step(lib, s, turn).publishers[i], Step(lib, s, turn).store)
  {
    var now := s.publishers[i];
    assert OnItsWay(lib, s0.publishers[i], now, s.store);
    if i == turn.who {
      OnItsWayStep(lib, s0.publishers[i], now, s.store, turn.reply);
    } else {
      LogStep(lib, s0, s, turn);
    }
  }

  lemma StepKeepsInvariant(lib: Libraries, s0: State, s: State, turn: Turn)
    requires Invariant(lib, s0, s)
    ensures Invariant(lib, s0, Step(lib, s, turn))
  {
    LogStep(lib, s0, s, turn);
    forall i | 0 <= i < |s.publishers|
      ensures OnItsWay(lib, s0.publishers[i], Step(lib, s, turn).publishers[i], Step(lib, s, turn).store)
    {
      PublishersStep(lib, s0, s, turn, i);
    }
  }

  lemma {:induction false} InvariantHolds(lib: Libraries, s0: State, schedule: seq<Turn>)
    requires Initial(s0)
    ensures Invariant(lib, s0, Run(lib, s0, schedule))
  {
    if schedule == [] {
    } else {
      var init, turn := schedule[..|schedule| - 1], schedule[|schedule| - 1];
      InvariantHolds(lib, s0, init);
      StepKeepsInvariant(lib, s0, Run(lib, s0, init), turn);
    }
  }

  // ----- Safety over whole runs -----

  /** At most one creation per key ever takes effect, only for keys that were absent, and from then on the stored
      data is what that one request carried. */
  lemma AtMostOneCreation(lib: Libraries, s0: State, schedule: seq<Turn>, more: seq<Turn>, i: nat)
    requires Initial(s0)
    requires i < |Run(lib, s0, schedule).created|
    ensures var s := Run(lib, s0, schedule);
            var creation := s.created[i];
            var later := Run(lib, s0, schedule + more);
            && creation.key !in s0.store
            && (forall j :: 0 <= j < |s.created| && s.created[j].key == creation.key ==> j == i)
            && creation.who < |s0.publishers|
            && var creator := s0.publishers[creation.who];
            && var prepared := Prepare(lib, creator.spec, creator.target, creator.secrets);
            && prepared.Success? && prepared.value.key == creation.key
            && creation.key in later.store && later.store[creation.key] == prepared.value.secret
  {
    InvariantHolds(lib, s0, schedule);
    var s := Run(lib, s0, schedule);
    assert CreationSound(lib, s0, s, s.created[i]);
    RunOn(lib, s0, schedule, more);
    StoreOnlyGrows(lib, s, more);
  }

  /** All or nothing: a publisher that ended in error left its deployment exactly as it was; one that succeeded added
      exactly one volume and one mount, and the secret it refers to is stored now and in every later state. */
  lemma AllOrNothing(lib: Libraries, s0: State, schedule: seq<Turn>, more: seq<Turn>, who: nat)
    requires Initial(s0) && who < |s0.publishers|
    ensures |Run(lib, s0, schedule).publishers| == |s0.publishers|
    ensures var start := s0.publishers[who];
            var now := Run(lib, s0, schedule).publishers[who];
            && (now.phase.Failed? ==> now.target == start.target)
            && (now.phase.Done? ==>
                  && Prepare(lib, start.spec, start.target, start.secrets) == Success(now.phase.plan)
                  && now.target == WithMount(WithVolume(start.target, now.phase.plan), now.phase.plan)
                  && VolumeAndMountAdded(start.target, now.target, now.phase.plan)
                  && now.phase.plan.key in Run(lib, s0, schedule).store
                  && now.phase.plan.key in Run(lib, s0, schedule + more).store)
  {
    InvariantHolds(lib, s0, schedule);
    var s := Run(lib, s0, schedule);
    assert OnItsWay(lib, s0.publishers[who], s.publishers[who], s.store);
    if s.publishers[who].phase.Done? {
      UpdatesMean(s0.publishers[who].target, s.publishers[who].phase.plan, s.publishers[who].target);
    }
    RunOn(lib, s0, schedule, more);
    StoreOnlyGrows(lib, s, more);
  }

  // ----- The race -----

  function TurnsOf(schedule: seq<Turn>, who: nat): nat {
    if schedule == [] then 0
    else TurnsOf(schedule[..|schedule| - 1], who) + if schedule[|schedule| - 1].who == who then 1 else 0
  }

  /** Someone else's request created the secret under this key. */
  ghost predicate CreatedByOther(s: State, key: Key, who: nat) {
    exists k :: 0 <= k < |s.created| && s.created[k].key == key && s.created[k].who != who
  }

  /** None of the creations from the `n`-th on is this publisher's. */
  ghost predicate NoneCreatedSince(s: State, n: nat, who: nat) {
    forall k :: n <= k < |s.created| ==> s.created[k].who != who
  }

  /** A publisher that has not made its creating step has created nothing; one about to make it found its key absent. */
  ghost predicate NotYetCreated(s0: State, s: State, who: nat)
    requires who < |s.publishers|
  {
    var phase := s.publishers[who].phase;
    && (phase.Starting? || phase.Checking? || phase.Creating? ==> NoneCreatedSince(s, 0, who))
    && (phase.Creating? ==> phase.plan.key !in s0.store)
  }

  lemma {:induction false} NotYetCreatedHolds(lib: Libraries, s0: State, schedule: seq<Turn>, who: nat)
    requires Initial(s0) && who < |s0.publishers|
    ensures |Run(lib, s0, schedule).publishers| == |s0.publishers|
    ensures NotYetCreated(s0, Run(lib, s0, schedule), who)
  {
    if schedule == [] {
    } else {
      var init := schedule[..|schedule| - 1];
      NotYetCreatedHolds(lib, s0, init, who);
      StoreOnlyGrows(lib, s0, init);
    }
  }

  lemma {:induction false} OthersTurnsLeaveAlone(lib: Libraries, s: State, schedule: seq<Turn>, who: nat)
    requires who < |s.publishers|
    requires TurnsOf(schedule, who) == 0 || s.publishers[who].Ended()
    ensures |Run(lib, s, schedule).publishers| == |s.publishers|
    ensures Run(lib, s, schedule).publishers[who] == s.publishers[who]
    ensures s.created <= Run(lib, s, schedule).created && NoneCreatedSince(Run(lib, s, schedule), |s.created|, who)
  {
    if schedule == [] {
    } else {
      OthersTurnsLeaveAlone(lib, s, schedule[..|schedule| - 1], who);
    }
  }

  /** A publisher that has found its key absent, and is overtaken, sees its key stored exactly when another publisher
      has created it. */
  lemma OvertakenMeans(lib: Libraries, s0: State, schedule: seq<Turn>, who: nat)
    requires Initial(s0) && who < |Run(lib, s0, schedule).publishers|
    requires Run(lib, s0, schedule).publishers[who].phase.Creating?
    ensures var s := Run(lib, s0, schedule);
            var key := s.publishers[who].phase.plan.key;
            CreatedByOther(s, key, who) <==> key in s.store
  {
    var s := Run(lib, s0, schedule);
    var key := s.publishers[who].phase.plan.key;
    assert |s.publishers| == |s0.publishers| && LogExplainsStore(lib, s0, s) by {
      InvariantHolds(lib, s0, schedule);
    }
    NotYetCreatedHolds(lib, s0, schedule, who);
    if key in s.store {
      var k := CreationOf(lib, s0, s, key);
      assert s.created[k].who != who;
    }
    if k :| 0 <= k < |s.created| && s.created[k].key == key {
      assert CreationSound(lib, s0, s, s.created[k]);
    }
  }

  /** The race between the existence check and the creation, over whole runs. A publisher is about to create in the
      state after `before`; `between` holds no turn of its own; then comes its creating turn. If another publisher
      has created the secret by then, it ends in error for good, whatever the server replies, with the deployment it
      started with and nothing created; if not, and the request is served, the secret stored is its own. */
  lemma RaceLost(lib: Libraries, s0: State, before: seq<Turn>, between: seq<Turn>, turn: Turn, after: seq<Turn>)
    requires Initial(s0) && turn.who < |Run(lib, s0, before).publishers|
    requires Run(lib, s0, before).publishers[turn.who].phase.Creating? && TurnsOf(between, turn.who) == 0
    ensures var who := turn.who;
            var checked := Run(lib, s0, before);
            var plan := checked.publishers[who].phase.plan;
            var met := Run(lib, s0, before + between);
            var next := Run(lib, s0, before + between + [turn]);
            var end := Run(lib, s0, before + between + [turn] + after);
            && |s0.publishers| == |checked.publishers| == |next.publishers| == |end.publishers|
            && if CreatedByOther(met, plan.key, who) then
                 && next.store == met.store
                 && end.publishers[who].phase.Failed?
                 && (turn.reply.Served? ==> end.publishers[who].phase.error == AlreadyExists)
                 && end.publishers[who].target == s0.publishers[who].target
                 && NoneCreatedSince(end, 0, who)
               else
                 turn.reply.Served? ==>
                   && plan.key !in met.store && next.store == met.store[plan.key := plan.secret]
                   && next.publishers[who].phase == AddingVolume(plan)
  {
    var who := turn.who;
    var met, next := Run(lib, s0, before + between), Run(lib, s0, before + between + [turn]);
    RunOn(lib, s0, before, between);
    OthersTurnsLeaveAlone(lib, Run(lib, s0, before), between, who);
    OvertakenMeans(lib, s0, before + between, who);
    RunLast(lib, s0, before + between, turn);
    RunOn(lib, s0, before + between + [turn], after);
    StoreOnlyGrows(lib, s0, before);
    StoreOnlyGrows(lib, s0, before + between + [turn]);
    StoreOnlyGrows(lib, next, after);
    NotYetCreatedHolds(lib, s0, before + between, who);
    if CreatedByOther(met, met.publishers[who].phase.plan.key, who) {
      OthersTurnsLeaveAlone(lib, next, after, who);
      AllOrNothing(lib, s0, before + between + [turn], [], who);
    }
  }

  // ----- Runs in which the server serves every request -----

  predicate AllServed(schedule: seq<Turn>) {
    forall k :: 0 <= k < |schedule| ==> schedule[k].reply.Served?
  }

  ghost predicate OutcomeExplained(lib: Libraries, s0: State, s: State, who: nat)
    requires who < |s0.publishers| && who < |s.publishers|
  {
    var prepared := PlanOf(lib, s0, who);
    var phase := s.publishers[who].phase;
    && NotYetCreated(s0, s, who)
    && (phase.Failed? ==>
          && NoneCreatedSince(s, 0, who)
          && if prepared.Failure? then phase.error == prepared.error
             else phase.error == AlreadyExists && CreatedByOther(s, prepared.value.key, who))
  }

  /** Someone else's turn leaves a publisher alone and adds at most a creation of its own to the log. */
  lemma OutcomeOfOthersTurn(lib: Libraries, s0: State, s: State, turn: Turn, who: nat)
    requires |s.publishers| == |s0.publishers| && who < |s.publishers| && turn.who != who
    requires OutcomeExplained(lib, s0, s, who)
    ensures |Step(lib, s, turn).publishers| == |s.publishers|
    ensures OutcomeExplained(lib, s0, Step(lib, s, turn), who)
  {
    var next := Step(lib, s, turn);
    assert next.publishers[who] == s.publishers[who];
    assert next.created == s.created
        || (&& |next.created| == |s.created| + 1 && s.created <= next.created
            && next.created[|s.created|].who == turn.who);
    var phase, prepared := s.publishers[who].phase, PlanOf(lib, s0, who);
    if phase.Failed? && prepared.Success? {
      var k :| 0 <= k < |s.created| && s.created[k].key == prepared.value.key && s.created[k].who != who;
      assert next.created[k] == s.created[k];
    }
  }

  lemma OutcomeOfOwnTurn(lib: Libraries, s0: State, s: State, turn: Turn)
    requires |s.publishers| == |s0.publishers| && turn.who < |s.publishers| && turn.reply.Served?
    requires OnItsWay(lib, s0.publishers[turn.who], s.publishers[turn.who], s.store)
    requires s.store.Keys == s0.store.Keys + CreatedKeys(s.created)
    requires OutcomeExplained(lib, s0, s, turn.who)
    ensures |Step(lib, s, turn).publishers| == |s.publishers|
    ensures OutcomeExplained(lib, s0, Step(lib, s, turn), turn.who)
  {
    var next := Step(lib, s, turn);
    var phase := s.publishers[turn.who].phase;
    if phase.Creating? && phase.plan.key in s.store {
      assert phase.plan.key in CreatedKeys(s.created);
      var k :| 0 <= k < |s.created| && s.created[k].key == phase.plan.key;
      assert next.created[k].who != turn.who;
    }
  }

  /** When the server serves every request, the only ways to fail are one's own templates and a race lost to another
      publisher, which created the secret. */
  lemma {:induction false} OnlyRacesFail(lib: Libraries, s0: State, schedule: seq<Turn>, who: nat)
    requires Initial(s0) && AllServed(schedule) && who < |s0.publishers|
    ensures |Run(lib, s0, schedule).publishers| == |s0.publishers|
    ensures OutcomeExplained(lib, s0, Run(lib, s0, schedule), who)
  {
    if schedule == [] {
    } else {
      var init, turn := schedule[..|schedule| - 1], schedule[|schedule| - 1];
      OnlyRacesFail(lib, s0, init, who);
      InvariantHolds(lib, s0, init);
      var s := Run(lib, s0, init);
      if turn.who == who {
        assert OnItsWay(lib, s0.publishers[who], s.publishers[who], s.store);
        OutcomeOfOwnTurn(lib, s0, s, turn);
      } else {
        OutcomeOfOthersTurn(lib, s0, s, turn, who);
      }
    }
  }

  // ----- Progress -----

  lemma AdvanceCountsDown(lib: Libraries, publisher: Publisher, store: Secrets, reply: Reply)
    ensures var next := Advance(lib, publisher, store, reply);
            if publisher.Ended() then next == publisher else StepsLeft(next.phase) < StepsLeft(publisher.phase)
    ensures publisher.Ended() <==> StepsLeft(publisher.phase) == 0
  {
  }

  /** No publisher can be kept from ending by the others: five of its own turns are enough, whatever happens in
      between. */
  lemma {:induction false} FiveTurnsSuffice(lib: Libraries, s0: State, schedule: seq<Turn>, who: nat)
    requires Initial(s0) && who < |s0.publishers|
    ensures |Run(lib, s0, schedule).publishers| == |s0.publishers|
    ensures StepsLeft(Run(lib, s0, schedule).publishers[who].phase) + TurnsOf(schedule, who) <= 5
            || Run(lib, s0, schedule).publishers[who].Ended()
    ensures TurnsOf(schedule, who) >= 5 ==> Run(lib, s0, schedule).publishers[who].Ended()
  {
    if schedule == [] {
    } else {
      var init, turn := schedule[..|schedule| - 1], schedule[|schedule| - 1];
      var s := Run(lib, s0, init);
      FiveTurnsSuffice(lib, s0, init, who);
      AdvanceCountsDown(lib, s.publishers[who], s.store, turn.reply);
    }
  }

  // ----- What success is worth -----

  /** No volume but the last has this name. */
  ghost predicate NamesLastVolume(volumes: seq<Volume>, name: string) {
    forall i :: 0 <= i < |volumes| ==> (volumes[i].name == name <==> i == |volumes| - 1)
  }

  /** The file that the last mount shows: its name is that of the last volume and of no other, the volume refers to a
      stored secret, and the sub-path is a key of that secret's data. */
  ghost function MountedFile(target: Target, store: Secrets): Option<string> {
    var volumes, mounts := target.volumes, target.containers[0].volumeMounts;
    if volumes == [] || mounts == [] then None
    else
      var mount, source := mounts[|mounts| - 1], volumes[|volumes| - 1].source;
      if !NamesLastVolume(volumes, mount.name) || source.OtherSource? then None
      else
        var key := Key(target.namespace, source.secretName);
        if key in store && mount.subPath in store[key].data then Some(store[key].data[mount.subPath]) else None
  }

  /** What a caller may hope of success: that a file is mounted, or that the file holds the secrets it was given. */
  datatype Promise = FileMounted | OwnSecretsMounted

  ghost predicate Fulfilled(lib: Libraries, promise: Promise, publisher: Publisher, store: Secrets) {
    var file := MountedFile(publisher.target, store);
    && file.Some?
    && (promise.OwnSecretsMounted? ==> lib.marshal(publisher.secrets) == Success(file.value))
  }

  /** In every interleaving, whoever succeeds has what was promised. */
  ghost predicate AlwaysFulfilled(lib: Libraries, promise: Promise, s0: State) {
    forall schedule: seq<Turn>, who: nat ::
      var s := Run(lib, s0, schedule);
      who < |s.publishers| && s.publishers[who].phase.Done? ==> Fulfilled(lib, promise, s.publishers[who], s.store)
  }

  /** This data is good for this plan. */
  predicate Serves(promise: Promise, data: map<string, string>, plan: Plan) {
    && plan.fileName in data
    && (promise.OwnSecretsMounted? ==> plan.secret.data == map[plan.fileName := data[plan.fileName]])
  }

  /** A deployment to be published to has no volume called `secrets`, and if the secret is stored already, its data
      is good for the request. */
  ghost predicate StartAgrees(lib: Libraries, promise: Promise, s0: State, i: nat)
    requires i < |s0.publishers|
  {
    var plan := PlanOf(lib, s0, i);
    plan.Success? ==>
      && "secrets" !in VolumeNames(s0.publishers[i].target.volumes)
      && (plan.value.key in s0.store ==> Serves(promise, s0.store[plan.value.key].data, plan.value))
  }

  /** If the secret is not stored yet, what one request would create is good for the other. */
  ghost predicate RequestsAgree(lib: Libraries, promise: Promise, s0: State, i: nat, j: nat)
    requires i < |s0.publishers| && j < |s0.publishers|
  {
    var plan, other := PlanOf(lib, s0, i), PlanOf(lib, s0, j);
    plan.Success? && other.Success? && plan.value.key == other.value.key && plan.value.key !in s0.store ==>
      Serves(promise, other.value.secret.data, plan.value)
  }

  ghost predicate Agreement(lib: Libraries, promise: Promise, s0: State) {
    && (forall i :: 0 <= i < |s0.publishers| ==> StartAgrees(lib, promise, s0, i))
    && (forall i, j :: 0 <= i < |s0.publishers| && 0 <= j < |s0.publishers| ==> RequestsAgree(lib, promise, s0, i, j))
  }

  /** A plan stores one file, the marshalled secrets, under the deployment's own namespace. */
  lemma PlanShape(lib: Libraries, s0: State, who: nat)
    requires who < |s0.publishers| && PlanOf(lib, s0, who).Success?
    ensures var plan := PlanOf(lib, s0, who).value;
            && plan.key.namespace == s0.publishers[who].target.namespace
            && lib.marshal(s0.publishers[who].secrets).Success?
            && plan.secret.kind == "Opaque"
            && plan.secret.data == map[plan.fileName := lib.marshal(s0.publishers[who].secrets).value]
  {
  }

  lemma MountedFileMeans(start: Target, plan: Plan, store: Secrets)
    requires plan.key.namespace == start.namespace && plan.key in store
    ensures MountedFile(WithMount(WithVolume(start, plan), plan), store)
         == if "secrets" !in VolumeNames(start.volumes) && plan.fileName in store[plan.key].data
            then Some(store[plan.key].data[plan.fileName]) else None
  {
    var names, volumes := VolumeNames(start.volumes), WithVolume(start, plan).volumes;
    assert forall i :: 0 <= i < |names| ==> names[i] == volumes[i].name;
    if "secrets" in names {
      var i :| 0 <= i < |names| && names[i] == "secrets";
      assert volumes[i].name == "secrets";
    }
  }

  /** For a finished publisher it comes down to its volumes at the start and the data that is stored. */
  lemma FulfilledMeans(lib: Libraries, promise: Promise, s0: State, s: State, who: nat)
    requires who < |s0.publishers| == |s.publishers| && PlanOf(lib, s0, who).Success?
    requires s.publishers[who].secrets == s0.publishers[who].secrets
    requires var plan := PlanOf(lib, s0, who).value;
             && plan.key in s.store
             && s.publishers[who].target == WithMount(WithVolume(s0.publishers[who].target, plan), plan)
    ensures var plan := PlanOf(lib, s0, who).value;
            Fulfilled(lib, promise, s.publishers[who], s.store) <==>
              && "secrets" !in VolumeNames(s0.publishers[who].target.volumes)
              && Serves(promise, s.store[plan.key].data, plan)
  {
    var plan := PlanOf(lib, s0, who).value;
    PlanShape(lib, s0, who);
    MountedFileMeans(s0.publishers[who].target, plan, s.store);
    if plan.fileName in s.store[plan.key].data {
      var json, stored := plan.secret.data[plan.fileName], s.store[plan.key].data[plan.fileName];
      assert plan.secret.data == map[plan.fileName := stored] <==> json == stored;
    }
  }

  /** Under the agreement the data stored under a request's key is good for it, wherever the data came from. */
  lemma StoredDataServes(lib: Libraries, promise: Promise, s0: State, s: State, who: nat)
    requires Keeps(s0.store, s.store) && LogExplainsStore(lib, s0, s) && Agreement(lib, promise, s0)
    requires who < |s0.publishers| && PlanOf(lib, s0, who).Success? && PlanOf(lib, s0, who).value.key in s.store
    ensures var plan := PlanOf(lib, s0, who).value; Serves(promise, s.store[plan.key].data, plan)
  {
    var plan := PlanOf(lib, s0, who).value;
    if plan.key in s0.store {
      assert StartAgrees(lib, promise, s0, who);
    } else {
      var i := CreationOf(lib, s0, s, plan.key);
      assert RequestsAgree(lib, promise, s0, who, s.created[i].who);
    }
  }

  lemma AgreementFulfils(lib: Libraries, promise: Promise, s0: State, schedule: seq<Turn>, who: nat)
    requires Initial(s0) && Agreement(lib, promise, s0)
    requires who < |Run(lib, s0, schedule).publishers| && Run(lib, s0, schedule).publishers[who].phase.Done?
    ensures Fulfilled(lib, promise, Run(lib, s0, schedule).publishers[who], Run(lib, s0, schedule).store)
  {
    var s := Run(lib, s0, schedule);
    InvariantHolds(lib, s0, schedule);
    assert OnItsWay(lib, s0.publishers[who], s.publishers[who], s.store);
    assert StartAgrees(lib, promise, s0, who);
    StoredDataServes(lib, promise, s0, s, who);
    FulfilledMeans(lib, promise, s0, s, who);
  }

  function FiveTurns(who: nat): seq<Turn> {
    var turn := Turn(who, Served);
    [turn, turn, turn, turn, turn]
  }

  lemma RunFive(lib: Libraries, s: State, turn: Turn)
    ensures Run(lib, s, [turn, turn, turn, turn, turn])
         == Step(lib, Step(lib, Step(lib, Step(lib, Step(lib, s, turn), turn), turn), turn), turn)
  {
    assert [turn] + [turn, turn, turn, turn] == [turn, turn, turn, turn, turn];
    RunFirst(lib, s, turn, [turn, turn, turn, turn]);
    var s1 := Step(lib, s, turn);
    assert [turn] + [turn, turn, turn] == [turn, turn, turn, turn];
    RunFirst(lib, s1, turn, [turn, turn, turn]);
    var s2 := Step(lib, s1, turn);
    assert [turn] + [turn, turn] == [turn, turn, turn];
    RunFirst(lib, s2, turn, [turn, turn]);
    var s3 := Step(lib, s2, turn);
    assert [turn] + [turn] == [turn, turn];
    RunFirst(lib, s3, turn, [turn]);
    RunLast(lib, Step(lib, s3, turn), [], turn);
    assert [] + [turn] == [turn];
  }

  /** How a publisher ends that is served on its own. */
  ghost function Finished(lib: Libraries, start: Publisher): Publisher {
    match Prepare(lib, start.spec, start.target, start.secrets)
    case Failure(error) => start.(phase := Failed(error))
    case Success(plan) => start.(phase := Done(plan), target := WithMount(WithVolume(start.target, plan), plan))
  }

  /** Publisher `who` has run on its own from `s`, served, and nothing else has changed. It fails only by its
      templates; if it succeeds its secret is stored, by itself if need be. */
  ghost predicate EndsAlone(lib: Libraries, s: State, who: nat, end: State)
    requires who < |s.publishers|
  {
    && end.publishers == s.publishers[who := Finished(lib, s.publishers[who])]
    && match PlanOf(lib, s, who)
       case Failure(_) => end.store == s.store && end.created == s.created
       case Success(plan) =>
         && end.store == AfterCreate(s.store, plan.key, plan.secret, Served)
         && end.created == s.created + if plan.key in s.store then [] else [Creation(plan.key, who)]
  }

  lemma FinishFromAdding(lib: Libraries, s: State, now: State, start: Publisher, who: nat, plan: Plan)
    requires who < |s.publishers| && now.publishers == s.publishers[who := start.(phase := AddingVolume(plan))]
    ensures var turn := Turn(who, Served);
            Step(lib, Step(lib, now, turn), turn) == now.(publishers := s.publishers[who :=
              start.(phase := Done(plan), target := WithMount(WithVolume(start.target, plan), plan))])
  {
    var turn := Turn(who, Served);
    assert Step(lib, now, turn) == now.(publishers := s.publishers[who :=
      start.(phase := AddingMount(plan), target := WithVolume(start.target, plan))]);
  }

  lemma FinishUnprepared(lib: Libraries, s: State, who: nat)
    requires who < |s.publishers| && s.publishers[who].phase == Starting && PlanOf(lib, s, who).Failure?
    ensures EndsAlone(lib, s, who, Step(lib, s, Turn(who, Served)))
    ensures var end := Step(lib, s, Turn(who, Served)); Step(lib, end, Turn(who, Served)) == end
  {
  }

  lemma FinishPrepared(lib: Libraries, s: State, who: nat, plan: Plan)
    requires who < |s.publishers| && s.publishers[who].phase == Starting && PlanOf(lib, s, who) == Success(plan)
    ensures var turn := Turn(who, Served);
            var s3 := Step(lib, Step(lib, Step(lib, s, turn), turn), turn);
            EndsAlone(lib, s, who, Step(lib, Step(lib, s3, turn), turn))
  {
    var start, turn := s.publishers[who], Turn(who, Served);
    var checking := s.publishers[who := start.(phase := Checking(plan))];
    assert Step(lib, s, turn) == State(s.store, checking, s.created);
    var s2 := Step(lib, State(s.store, checking, s.created), turn);
    if plan.key in s.store {
      assert s2.publishers == s.publishers[who := start.(phase := AddingVolume(plan))];
      FinishFromAdding(lib, s, s2, start, who, plan);
      var end := Step(lib, Step(lib, s2, turn), turn);
      assert Step(lib, end, turn) == end;
    } else {
      CreateServed(lib, s, s2, start, who, plan);
      FinishFromAdding(lib, s, Step(lib, s2, turn), start, who, plan);
    }
  }

  lemma CreateServed(lib: Libraries, s: State, now: State, start: Publisher, who: nat, plan: Plan)
    requires who < |s.publishers| && now.publishers == s.publishers[who := start.(phase := Creating(plan))]
    requires plan.key !in now.store
    ensures Step(lib, now, Turn(who, Served)) == State(
      now.store[plan.key := plan.secret],
      s.publishers[who := start.(phase := AddingVolume(plan))],
      now.created + [Creation(plan.key, who)])
  {
    assert plan.key in now.store[plan.key := plan.secret];
  }

  lemma FinishServed(lib: Libraries, s: State, who: nat)
    requires who < |s.publishers| && s.publishers[who].phase == Starting
    ensures EndsAlone(lib, s, who, Run(lib, s, FiveTurns(who)))
  {
    RunFive(lib, s, Turn(who, Served));
    if PlanOf(lib, s, who).Failure? {
      FinishUnprepared(lib, s, who);
    } else {
      FinishPrepared(lib, s, who, PlanOf(lib, s, who).value);
    }
  }

  /** A start that does not agree is found out by the publisher alone. */
  lemma StartBreaks(lib: Libraries, promise: Promise, s: State, who: nat) returns (schedule: seq<Turn>)
    requires who < |s.publishers| && s.publishers[who].phase == Starting && !StartAgrees(lib, promise, s, who)
    ensures var end := Run(lib, s, schedule);
            && who < |end.publishers| && end.publishers[who].phase.Done?
            && !Fulfilled(lib, promise, end.publishers[who], end.store)
  {
    schedule := FiveTurns(who);
    FinishServed(lib, s, who);
    FulfilledMeans(lib, promise, s, Run(lib, s, schedule), who);
  }

  /** Requests that do not agree are found out by one going after the other. */
  lemma RequestBreaks(lib: Libraries, promise: Promise, s0: State, i: nat, j: nat) returns (schedule: seq<Turn>)
    requires Initial(s0) && i < |s0.publishers| && j < |s0.publishers| && !RequestsAgree(lib, promise, s0, i, j)
    ensures var end := Run(lib, s0, schedule);
            && i < |end.publishers| && end.publishers[i].phase.Done?
            && !Fulfilled(lib, promise, end.publishers[i], end.store)
  {
    PlanShape(lib, s0, j);
    var first := FiveTurns(j);
    FinishServed(lib, s0, j);
    var middle := Run(lib, s0, first);
    assert i != j && middle.publishers[i] == s0.publishers[i];
    assert !StartAgrees(lib, promise, middle, i);
    var second := StartBreaks(lib, promise, middle, i);
    schedule := first + second;
    RunOn(lib, s0, first, second);
  }

  lemma DisagreementBreaks(lib: Libraries, promise: Promise, s0: State)
    requires Initial(s0) && !Agreement(lib, promise, s0)
    ensures !AlwaysFulfilled(lib, promise, s0)
  {
    if i :| 0 <= i < |s0.publishers| && !StartAgrees(lib, promise, s0, i) {
      var schedule := StartBreaks(lib, promise, s0, i);
    } else {
      var i, j :| 0 <= i < |s0.publishers| && 0 <= j < |s0.publishers| && !RequestsAgree(lib, promise, s0, i, j);
      var schedule := RequestBreaks(lib, promise, s0, i, j);
    }
  }

  lemma FulfilledWhenever(lib: Libraries, promise: Promise, s0: State)
    requires Initial(s0)
    ensures AlwaysFulfilled(lib, promise, s0) <==> Agreement(lib, promise, s0)
  {
    if Agreement(lib, promise, s0) {
      forall schedule: seq<Turn>, who: nat |
        who < |Run(lib, s0, schedule).publishers| && Run(lib, s0, schedule).publishers[who].phase.Done?
        ensures Fulfilled(lib, promise, Run(lib, s0, schedule).publishers[who], Run(lib, s0, schedule).store)
      {
        AgreementFulfils(lib, promise, s0, schedule, who);
      }
    } else {
      DisagreementBreaks(lib, promise, s0);
    }
  }

  /** Publisher `i` gets as far as the server. */
  ghost predicate Requests(lib: Libraries, s0: State, i: nat) {
    i < |s0.publishers| && PlanOf(lib, s0, i).Success?
  }

  /** No deployment to be published to has a volume called `secrets`. */
  ghost predicate NoSecretsVolume(lib: Libraries, s0: State) {
    forall i: nat :: Requests(lib, s0, i) ==> "secrets" !in VolumeNames(s0.publishers[i].target.volumes)
  }

  /** A secret that is stored has the file of every request for it, and requests for one that is not agree on its
      name. */
  ghost predicate FileNamesAgree(lib: Libraries, s0: State) {
    && (forall i: nat :: Requests(lib, s0, i) ==>
          var plan := PlanOf(lib, s0, i).value; plan.key in s0.store ==> plan.fileName in s0.store[plan.key].data)
    && forall i: nat, j: nat :: Requests(lib, s0, i) && Requests(lib, s0, j) ==>
         var plan, other := PlanOf(lib, s0, i).value, PlanOf(lib, s0, j).value;
         plan.key == other.key && plan.key !in s0.store ==> plan.fileName == other.fileName
  }

  /** The same for the contents: stored secrets hold what every request for them would store in its file, and
      requests for one that is not stored would create the same secret. */
  ghost predicate ContentsAgree(lib: Libraries, s0: State) {
    && (forall i: nat :: Requests(lib, s0, i) ==>
          var plan := PlanOf(lib, s0, i).value;
          plan.key in s0.store ==> plan.secret.data.Items <= s0.store[plan.key].data.Items)
    && forall i: nat, j: nat :: Requests(lib, s0, i) && Requests(lib, s0, j) ==>
         var plan, other := PlanOf(lib, s0, i).value, PlanOf(lib, s0, j).value;
         plan.key == other.key && plan.key !in s0.store ==> plan.secret == other.secret
  }

  lemma ServesMeans(lib: Libraries, s0: State, i: nat, data: map<string, string>)
    requires Requests(lib, s0, i)
    ensures var plan := PlanOf(lib, s0, i).value;
            Serves(OwnSecretsMounted, data, plan) <==> plan.secret.data.Items <= data.Items
  {
    PlanShape(lib, s0, i);
    var plan := PlanOf(lib, s0, i).value;
    var json := plan.secret.data[plan.fileName];
    forall item
      ensures item in plan.secret.data.Items <==> item == (plan.fileName, json)
    {
      assert item in plan.secret.data.Items <==> item.0 in plan.secret.data && plan.secret.data[item.0] == item.1;
    }
    assert (plan.fileName, json) in data.Items <==> plan.fileName in data && data[plan.fileName] == json;
  }

  /** Every request serves another exactly when their files, or their secrets, are the same. */
  lemma ServesOther(lib: Libraries, s0: State, i: nat, j: nat)
    requires Requests(lib, s0, i) && Requests(lib, s0, j)
    ensures var plan, other := PlanOf(lib, s0, i).value, PlanOf(lib, s0, j).value;
            && (Serves(FileMounted, other.secret.data, plan) <==> plan.fileName == other.fileName)
            && (Serves(OwnSecretsMounted, other.secret.data, plan) <==> plan.secret == other.secret)
  {
    PlanShape(lib, s0, i);
    PlanShape(lib, s0, j);
    var plan, other := PlanOf(lib, s0, i).value, PlanOf(lib, s0, j).value;
    if plan.secret == other.secret {
      assert plan.fileName in other.secret.data;
    }
  }

  lemma AgreementMeans(lib: Libraries, promise: Promise, s0: State)
    ensures Agreement(lib, promise, s0) <==>
              && NoSecretsVolume(lib, s0)
              && (forall i: nat :: Requests(lib, s0, i) ==>
                    var plan := PlanOf(lib, s0, i).value;
                    plan.key in s0.store ==> Serves(promise, s0.store[plan.key].data, plan))
              && forall i: nat, j: nat :: Requests(lib, s0, i) && Requests(lib, s0, j) ==>
                   RequestsAgree(lib, promise, s0, i, j)
  {
    forall i: nat | Requests(lib, s0, i)
      ensures StartAgrees(lib, promise, s0, i) <==>
                && "secrets" !in VolumeNames(s0.publishers[i].target.volumes)
                && var plan := PlanOf(lib, s0, i).value;
                   plan.key in s0.store ==> Serves(promise, s0.store[plan.key].data, plan)
    {
    }
  }

  lemma FileNamesMean(lib: Libraries, s0: State)
    ensures Agreement(lib, FileMounted, s0) <==> FileNamesAgree(lib, s0) && NoSecretsVolume(lib, s0)
  {
    AgreementMeans(lib, FileMounted, s0);
    forall i: nat, j: nat | Requests(lib, s0, i) && Requests(lib, s0, j)
      ensures var plan, other := PlanOf(lib, s0, i).value, PlanOf(lib, s0, j).value;
              RequestsAgree(lib, FileMounted, s0, i, j) <==>
                (plan.key == other.key && plan.key !in s0.store ==> plan.fileName == other.fileName)
    {
      ServesOther(lib, s0, i, j);
    }
  }

  lemma ContentsMean(lib: Libraries, s0: State)
    ensures Agreement(lib, OwnSecretsMounted, s0) <==> ContentsAgree(lib, s0) && NoSecretsVolume(lib, s0)
  {
    AgreementMeans(lib, OwnSecretsMounted, s0);
    forall i: nat | Requests(lib, s0, i) && PlanOf(lib, s0, i).value.key in s0.store
      ensures var plan := PlanOf(lib, s0, i).value;
              var data := s0.store[plan.key].data;
              Serves(OwnSecretsMounted, data, plan) <==> plan.secret.data.Items <= data.Items
    {
      ServesMeans(lib, s0, i, s0.store[PlanOf(lib, s0, i).value.key].data);
    }
    forall i: nat, j: nat | Requests(lib, s0, i) && Requests(lib, s0, j)
      ensures var plan, other := PlanOf(lib, s0, i).value, PlanOf(lib, s0, j).value;
              RequestsAgree(lib, OwnSecretsMounted, s0, i, j) <==>
                (plan.key == other.key && plan.key !in s0.store ==> plan.secret == other.secret)
    {
      ServesOther(lib, s0, i, j);
    }
  }

  /** In every interleaving, whoever succeeds has mounted a file of a stored secret, by a volume name that is not
      ambiguous, if and only if the file names agree to begin with and no volume is called `secrets`. */
  lemma LinkIntegrity(lib: Libraries, s0: State)
    requires Initial(s0)
    ensures AlwaysFulfilled(lib, FileMounted, s0) <==> FileNamesAgree(lib, s0) && NoSecretsVolume(lib, s0)
  {
    FulfilledWhenever(lib, FileMounted, s0);
    FileNamesMean(lib, s0);
  }

  /** In every interleaving, whoever succeeds has mounted its own secrets, if and only if the contents agree to begin
      with and no volume is called `secrets`. */
  lemma PublishedIntegrity(lib: Libraries, s0: State)
    requires Initial(s0)
    ensures AlwaysFulfilled(lib, OwnSecretsMounted, s0) <==> ContentsAgree(lib, s0) && NoSecretsVolume(lib, s0)
  {
    FulfilledWhenever(lib, OwnSecretsMounted, s0);
    ContentsMean(lib, s0);
  }

  /** A concrete failure: two requests for one secret, with different file names. */
  lemma DisagreementExample()
    ensures var lib := Libraries(
              (config, pattern) => Success(pattern), (dir, file) => dir + "/" + file, secrets => Success("{}"));
            var target: Target := PodTemplate("ns", "app", [Container("c", [], [], "")], [], "");
            var first := Publisher(MapSpec("", "volume", "/etc", "a.json", "s"), map[], target, Starting);
            var second := Publisher(MapSpec("", "volume", "/etc", "b.json", "s"), map[], target, Starting);
            !AlwaysFulfilled(lib, FileMounted, State(map[], [first, second], []))
  {
    var lib := Libraries(
      (config, pattern) => Success(pattern), (dir, file) => dir + "/" + file, secrets => Success("{}"));
    var target: Target := PodTemplate("ns", "app", [Container("c", [], [], "")], [], "");
    var first := Publisher(MapSpec("", "volume", "/etc", "a.json", "s"), map[], target, Starting);
    var second := Publisher(MapSpec("", "volume", "/etc", "b.json", "s"), map[], target, Starting);
    var s0 := State(map[], [first, second], []);
    assert PlanOf(lib, s0, 0).value.fileName == "a.json" && PlanOf(lib, s0, 1).value.fileName == "b.json";
    assert !RequestsAgree(lib, FileMounted, s0, 0, 1);
    DisagreementBreaks(lib, FileMounted, s0);
  }

  /** Another: the secret is stored already, with the right file but other contents, as after a change in Vault. Whoever
      succeeds has a file mounted, but in some run not the secrets it was given. */
  lemma StaleSecretExample()
    ensures var lib := Libraries(
              (config, pattern) => Success(pattern), (dir, file) => dir + "/" + file, secrets => Success("{new}"));
            var target: Target := PodTemplate("ns", "app", [Container("c", [], [], "")], [], "");
            var publisher := Publisher(MapSpec("", "volume", "/etc", "a.json", "s"), map[], target, Starting);
            var s0 := State(map[Key("ns", "s") := Secret("Opaque", map["a.json" := "{old}"])], [publisher], []);
            AlwaysFulfilled(lib, FileMounted, s0) && !AlwaysFulfilled(lib, OwnSecretsMounted, s0)
  {
    var lib := Libraries(
      (config, pattern) => Success(pattern), (dir, file) => dir + "/" + file, secrets => Success("{new}"));
    var target: Target := PodTemplate("ns", "app", [Container("c", [], [], "")], [], "");
    var publisher := Publisher(MapSpec("", "volume", "/etc", "a.json", "s"), map[], target, Starting);
    var s0 := State(map[Key("ns", "s") := Secret("Opaque", map["a.json" := "{old}"])], [publisher], []);
    var plan := PlanOf(lib, s0, 0).value;
    assert plan == Plan(Key("ns", "s"), Secret("Opaque", map["a.json" := "{new}"]), "a.json", "/etc/a.json");
    assert VolumeNames(target.volumes) == [];
    FulfilledWhenever(lib, FileMounted, s0);
    assert !StartAgrees(lib, OwnSecretsMounted, s0, 0) by {
      assert plan.secret.data["a.json"] == "{new}";
    }
    DisagreementBreaks(lib, OwnSecretsMounted, s0);
  }

  // ----- Volume names -----

  function VolumeNames(volumes: seq<Volume>): seq<string> {
    seq(|volumes|, i requires 0 <= i < |volumes| => volumes[i].name)
  }

  lemma OneMoreName(before: seq<string>, name: string)
    ensures MapRange.NoDuplicates(before + [name]) <==> MapRange.NoDuplicates(before) && name !in before
  {
    var after := before + [name];
    assert forall i :: 0 <= i < |before| ==> after[i] == before[i];
    if MapRange.NoDuplicates(after) {
      assert forall i :: 0 <= i < |before| ==> after[i] != after[|before|];
    }
  }

  /** After success the volume names are distinct exactly when they were before and none of them was `secrets`, and
      then one of them is; so publishing to the same deployment again never leaves them distinct. */
  lemma VolumeNamesStayDistinct(lib: Libraries, s0: State, schedule: seq<Turn>, who: nat)
    requires Initial(s0) && who < |s0.publishers|
    requires who < |Run(lib, s0, schedule).publishers| && Run(lib, s0, schedule).publishers[who].phase.Done?
    ensures var before := VolumeNames(s0.publishers[who].target.volumes);
            var after := VolumeNames(Run(lib, s0, schedule).publishers[who].target.volumes);
            && (MapRange.NoDuplicates(after) <==> MapRange.NoDuplicates(before) && "secrets" !in before)
            && "secrets" in after
  {
    AllOrNothing(lib, s0, schedule, [], who);
    var before := VolumeNames(s0.publishers[who].target.volumes);
    OneMoreName(before, "secrets");
    assert VolumeNames(Run(lib, s0, schedule).publishers[who].target.volumes) == before + ["secrets"];
  }
}
