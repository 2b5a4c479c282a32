/** Every served interleaving of volume publishers is as good as some order of them, one after another. */
module SerialOrders {
  import opened Wrappers
  import opened SecretStore
  import opened VolumePublisher
  import opened PublisherRuns
  import MapRange

  /** The publishers of `order`, each with the server to itself until it ends. */
  function OneAfterAnother(order: seq<nat>): seq<Turn> {
    if order == [] then []
    else OneAfterAnother(order[..|order| - 1]) + FiveTurns(order[|order| - 1])
  }

  lemma OneMoreAlone(lib: Libraries, s0: State, order: seq<nat>, last: nat)
    ensures Run(lib, s0, OneAfterAnother(order + [last]))
         == Run(lib, Run(lib, s0, OneAfterAnother(order)), FiveTurns(last))
  {
    assert (order + [last])[..|order|] == order;
    RunOn(lib, s0, OneAfterAnother(order), FiveTurns(last));
  }

  ghost predicate SomePublishers(s: State, order: seq<nat>) {
    && MapRange.NoDuplicates(order)
    && forall k :: 0 <= k < |order| ==> order[k] < |s.publishers|
  }

  /** Each publisher that had its turns is finished and the others have not begun: the order does not matter. */
  lemma {:induction false} AllFinished(lib: Libraries, s0: State, order: seq<nat>)
    requires Initial(s0) && SomePublishers(s0, order)
    ensures var t := Run(lib, s0, OneAfterAnother(order));
            && |t.publishers| == |s0.publishers|
            && forall who :: 0 <= who < |s0.publishers| ==>
                 t.publishers[who] == if who in order then Finished(lib, s0.publishers[who]) else s0.publishers[who]
  {
    if order == [] {
    } else {
      var init, last := order[..|order| - 1], order[|order| - 1];
      assert order == init + [last] && last !in init;
      AllFinished(lib, s0, init);
      OneMoreAlone(lib, s0, init, last);
      FinishServed(lib, Run(lib, s0, OneAfterAnother(init)), last);
    }
  }

  lemma OneMoreFinished(lib: Libraries, s0: State, order: seq<nat>, last: nat)
    requires Initial(s0) && SomePublishers(s0, order + [last])
    ensures var t, end := Run(lib, s0, OneAfterAnother(order)), Run(lib, s0, OneAfterAnother(order + [last]));
            && |t.publishers| == |s0.publishers| && last < |s0.publishers|
            && t.publishers[last] == s0.publishers[last]
            && EndsAlone(lib, t, last, end)
  {
    var both := order + [last];
    assert both[|order|] == last && forall k :: 0 <= k < |order| ==> both[k] == order[k];
    AllFinished(lib, s0, order);
    OneMoreAlone(lib, s0, order, last);
    FinishServed(lib, Run(lib, s0, OneAfterAnother(order)), last);
  }

  function Creators(created: seq<Creation>): (order: seq<nat>)
    ensures |order| == |created| && forall k :: 0 <= k < |order| ==> order[k] == created[k].who
  {
    seq(|created|, k requires 0 <= k < |created| => created[k].who)
  }

  /** Nobody creates twice, because each publisher has one key and each key one creation. */
  lemma CreatorsDistinct(lib: Libraries, s0: State, s: State, n: nat)
    requires LogExplainsStore(lib, s0, s) && n <= |s.created|
    ensures SomePublishers(s0, Creators(s.created[..n]))
  {
    forall i | 0 <= i < |s.created|
      ensures CreationSound(lib, s0, s, s.created[i])
    {
    }
  }

  lemma LastIsNew(created: seq<Creation>, n: nat)
    requires n < |created| && MapRange.NoDuplicates(Creators(created[..n + 1]))
    requires forall i :: 0 <= i < n ==> created[i].key != created[n].key
    ensures created[n].who !in Creators(created[..n])
    ensures created[n].key !in CreatedKeys(created[..n])
    ensures Creators(created[..n + 1]) == Creators(created[..n]) + [created[n].who]
  {
    var before, after := Creators(created[..n]), Creators(created[..n + 1]);
    assert after == before + [created[n].who];
    forall k | 0 <= k < n
      ensures before[k] != created[n].who
    {
      assert after[k] != after[n];
    }
  }

  lemma OrderGrows(lib: Libraries, s0: State, s: State, n: nat)
    requires LogExplainsStore(lib, s0, s) && n < |s.created|
    ensures Creators(s.created[..n + 1]) == Creators(s.created[..n]) + [s.created[n].who]
    ensures SomePublishers(s0, Creators(s.created[..n + 1]))
    ensures s.created[n].key !in CreatedKeys(s.created[..n])
    ensures CreationSound(lib, s0, s, s.created[n])
  {
    CreatorsDistinct(lib, s0, s, n + 1);
    LastIsNew(s.created, n);
  }

  /** What has been created so far. */
  ghost predicate MadeSoFar(s0: State, s: State, n: nat, t: State)
    requires n <= |s.created|
  {
    && t.created == s.created[..n]
    && t.store.Keys == s0.store.Keys + CreatedKeys(s.created[..n])
    && Keeps(t.store, s.store)
  }

  lemma NoneMade(s0: State, s: State)
    requires Initial(s0) && Keeps(s0.store, s.store)
    ensures MadeSoFar(s0, s, 0, s0)
  {
  }

  lemma AllMade(s0: State, s: State, t: State)
    requires MadeSoFar(s0, s, |s.created|, t)
    requires s.store.Keys == s0.store.Keys + CreatedKeys(s.created)
    ensures t.store == s.store && t.created == s.created
  {
    assert s.created[..|s.created|] == s.created;
    assert t.store.Keys == s.store.Keys;
    forall key | key in t.store
      ensures key in s.store && t.store[key] == s.store[key]
    {
    }
    forall key | key in s.store
      ensures key in t.store
    {
      assert key in t.store.Keys;
    }
  }

  /** One creator more. */
  lemma NextCreator(lib: Libraries, s0: State, s: State, n: nat, t: State, end: State)
    requires n < |s.created| && MadeSoFar(s0, s, n, t) && CreationSound(lib, s0, s, s.created[n])
    requires s.created[n].key !in CreatedKeys(s.created[..n])
    requires |t.publishers| == |s0.publishers|
    requires t.publishers[s.created[n].who] == s0.publishers[s.created[n].who]
    requires EndsAlone(lib, t, s.created[n].who, end)
    ensures MadeSoFar(s0, s, n + 1, end)
  {
    var creation := s.created[n];
    assert s.created[..n + 1] == s.created[..n] + [creation];
    OneMoreCreated(s.created[..n], creation);
    assert PlanOf(lib, t, creation.who) == PlanOf(lib, s0, creation.who);
    assert end.store == t.store[creation.key := s.store[creation.key]];
  }

  /** The creators one after another, in the order of the log, make the same log and the same store. */
  lemma {:induction false} CreatorsFirst(lib: Libraries, s0: State, s: State, n: nat)
    requires Initial(s0) && Keeps(s0.store, s.store) && LogExplainsStore(lib, s0, s) && n <= |s.created|
    ensures MadeSoFar(s0, s, n, Run(lib, s0, OneAfterAnother(Creators(s.created[..n]))))
  {
    if n == 0 {
      NoneMade(s0, s);
    } else {
      var order, last := Creators(s.created[..n - 1]), s.created[n - 1].who;
      CreatorsFirst(lib, s0, s, n - 1);
      OrderGrows(lib, s0, s, n - 1);
      OneMoreFinished(lib, s0, order, last);
      var t, end := Run(lib, s0, OneAfterAnother(order)), Run(lib, s0, OneAfterAnother(order + [last]));
      NextCreator(lib, s0, s, n - 1, t, end);
    }
  }

  /** A publisher whose key is stored adds nothing more. */
  lemma {:induction false} RestCreateNothing(lib: Libraries, s0: State, order: seq<nat>, rest: seq<nat>)
    requires Initial(s0) && SomePublishers(s0, order + rest)
    requires forall who :: who in rest && who < |s0.publishers| && PlanOf(lib, s0, who).Success? ==>
               PlanOf(lib, s0, who).value.key in Run(lib, s0, OneAfterAnother(order)).store
    ensures var t, end := Run(lib, s0, OneAfterAnother(order)), Run(lib, s0, OneAfterAnother(order + rest));
            end.store == t.store && end.created == t.created
  {
    if rest == [] {
      assert order + rest == order;
    } else {
      var init, last := rest[..|rest| - 1], rest[|rest| - 1];
      assert order + rest == (order + init) + [last] && last in rest;
      assert forall k :: 0 <= k < |order + init| ==> (order + init)[k] == (order + rest)[k];
      RestCreateNothing(lib, s0, order, init);
      OneMoreFinished(lib, s0, order + init, last);
    }
  }

  ghost predicate EveryoneOnce(s: State, order: seq<nat>) {
    && MapRange.NoDuplicates(order)
    && forall who: nat :: who in order <==> who < |s.publishers|
  }

  lemma Others(n: nat, some: seq<nat>) returns (rest: seq<nat>)
    ensures MapRange.NoDuplicates(rest)
    ensures forall who: nat :: who in rest <==> who < n && who !in some
  {
    if n == 0 {
      rest := [];
    } else {
      rest := Others(n - 1, some);
      if n - 1 !in some {
        rest := rest + [n - 1];
      }
    }
  }

  lemma OthersComplete(s: State, some: seq<nat>, rest: seq<nat>)
    requires SomePublishers(s, some) && MapRange.NoDuplicates(rest)
    requires forall who: nat :: who in rest <==> who < |s.publishers| && who !in some
    ensures EveryoneOnce(s, some + rest) && SomePublishers(s, some + rest)
  {
    var order := some + rest;
    forall i, j | 0 <= i < j < |order|
      ensures order[i] != order[j]
    {
      if j < |some| {
        assert order[i] == some[i] && order[j] == some[j];
      } else if i < |some| {
        assert order[i] in some && order[j] in rest;
      } else {
        assert order[i] == rest[i - |some|] && order[j] == rest[j - |some|];
      }
    }
    forall i | 0 <= i < |order|
      ensures order[i] < |s.publishers|
    {
      assert order[i] in some || order[i] in rest;
    }
  }

  lemma EveryoneIsSome(s: State, order: seq<nat>)
    requires EveryoneOnce(s, order)
    ensures SomePublishers(s, order)
  {
    forall k | 0 <= k < |order|
      ensures order[k] < |s.publishers|
    {
      assert order[k] in order;
    }
  }

  /** Its plan is good, yet it failed. */
  ghost predicate LostRace(lib: Libraries, s0: State, s: State, who: nat)
    requires who < |s0.publishers| == |s.publishers|
  {
    s.publishers[who].phase.Failed? && PlanOf(lib, s0, who).Success?
  }

  /** In the end everyone is as if served alone, but for the losers of races, which have failed; and everyone's key is
      stored whose plan is good. */
  ghost predicate EndedWell(lib: Libraries, s0: State, s: State, who: nat)
    requires who < |s0.publishers| == |s.publishers|
  {
    && (PlanOf(lib, s0, who).Success? ==> PlanOf(lib, s0, who).value.key in s.store)
    && if LostRace(lib, s0, s, who) then
         && s.publishers[who] == s0.publishers[who].(phase := Failed(AlreadyExists))
         && CreatedByOther(s, PlanOf(lib, s0, who).value.key, who)
       else s.publishers[who] == Finished(lib, s0.publishers[who])
  }

  lemma EndedMeans(lib: Libraries, s0: State, schedule: seq<Turn>, who: nat)
    requires Initial(s0) && AllServed(schedule) && who < |s0.publishers| == |Run(lib, s0, schedule).publishers|
    requires Run(lib, s0, schedule).publishers[who].Ended()
    ensures EndedWell(lib, s0, Run(lib, s0, schedule), who)
  {
    var s := Run(lib, s0, schedule);
    InvariantHolds(lib, s0, schedule);
    OnlyRacesFail(lib, s0, schedule, who);
    assert OnItsWay(lib, s0.publishers[who], s.publishers[who], s.store);
    if LostRace(lib, s0, s, who) {
      var k :| 0 <= k < |s.created| && s.created[k].key == PlanOf(lib, s0, who).value.key;
      assert CreationSound(lib, s0, s, s.created[k]);
    }
  }

  lemma AllEnded(lib: Libraries, s0: State, schedule: seq<Turn>)
    requires Initial(s0) && AllServed(schedule)
    requires forall publisher :: publisher in Run(lib, s0, schedule).publishers ==> publisher.Ended()
    ensures var s := Run(lib, s0, schedule);
            && |s.publishers| == |s0.publishers|
            && forall who :: 0 <= who < |s0.publishers| ==> EndedWell(lib, s0, s, who)
  {
    var s := Run(lib, s0, schedule);
    StoreOnlyGrows(lib, s0, schedule);
    forall who: nat | who < |s0.publishers|
      ensures EndedWell(lib, s0, s, who)
    {
      assert s.publishers[who] in s.publishers;
      EndedMeans(lib, s0, schedule, who);
    }
  }

  lemma AllCreators(lib: Libraries, s0: State, s: State)
    requires Initial(s0) && Keeps(s0.store, s.store) && LogExplainsStore(lib, s0, s)
    ensures var t := Run(lib, s0, OneAfterAnother(Creators(s.created)));
            t.store == s.store && t.created == s.created
  {
    assert MadeSoFar(s0, s, |s.created|, Run(lib, s0, OneAfterAnother(Creators(s.created)))) by {
      assert s.created[..|s.created|] == s.created;
      CreatorsFirst(lib, s0, s, |s.created|);
    }
    AllMade(s0, s, Run(lib, s0, OneAfterAnother(Creators(s.created))));
  }

  lemma SameStore(lib: Libraries, s0: State, s: State, rest: seq<nat>)
    requires Initial(s0) && Keeps(s0.store, s.store) && LogExplainsStore(lib, s0, s)
    requires |s.publishers| == |s0.publishers| && EveryoneOnce(s0, Creators(s.created) + rest)
    requires forall who :: 0 <= who < |s0.publishers| ==> EndedWell(lib, s0, s, who)
    ensures var t := Run(lib, s0, OneAfterAnother(Creators(s.created) + rest));
            t.store == s.store && t.created == s.created
  {
    var creators := Creators(s.created);
    AllCreators(lib, s0, s);
    forall who | who in rest
      ensures who < |s0.publishers| && EndedWell(lib, s0, s, who)
    {
      assert who in creators + rest;
    }
    EveryoneIsSome(s0, creators + rest);
    RestCreateNothing(lib, s0, creators, rest);
  }

  /** The same store, the same creations and the same end for everyone but the losers of races, who succeed in `t`. */
  ghost predicate AsGoodAs(lib: Libraries, s0: State, s: State, t: State) {
    && t.store == s.store && t.created == s.created
    && |t.publishers| == |s.publishers| == |s0.publishers|
    && forall who :: 0 <= who < |s0.publishers| ==>
         if LostRace(lib, s0, s, who) then
           && s.publishers[who] == s0.publishers[who].(phase := Failed(AlreadyExists))
           && CreatedByOther(s, PlanOf(lib, s0, who).value.key, who)
           && t.publishers[who].phase.Done?
         else t.publishers[who] == s.publishers[who]
  }

  lemma EndsAgree(lib: Libraries, s0: State, s: State, t: State)
    requires t.store == s.store && t.created == s.created
    requires |t.publishers| == |s.publishers| == |s0.publishers|
    requires forall who :: 0 <= who < |s0.publishers| ==> EndedWell(lib, s0, s, who)
    requires forall who :: 0 <= who < |s0.publishers| ==> t.publishers[who] == Finished(lib, s0.publishers[who])
    ensures AsGoodAs(lib, s0, s, t)
  {
    forall who: nat | who < |s0.publishers|
      ensures EndedWell(lib, s0, s, who) && t.publishers[who] == Finished(lib, s0.publishers[who])
    {
    }
  }

  /** Every interleaving in which the server serves every request and everyone has ended is as good as an order of the
      publishers, the creators first, in the order of their creations. Running the publishers in that order, one after
      another, differs only in that the losers of races succeed. */
  lemma SerialOrder(lib: Libraries, s0: State, schedule: seq<Turn>) returns (order: seq<nat>)
    requires Initial(s0) && AllServed(schedule)
    requires forall publisher :: publisher in Run(lib, s0, schedule).publishers ==> publisher.Ended()
    ensures EveryoneOnce(s0, order)
    ensures Creators(Run(lib, s0, schedule).created) <= order
    ensures AsGoodAs(lib, s0, Run(lib, s0, schedule), Run(lib, s0, OneAfterAnother(order)))
  {
    var s := Run(lib, s0, schedule);
    assert Keeps(s0.store, s.store) && LogExplainsStore(lib, s0, s) by {
      InvariantHolds(lib, s0, schedule);
    }
    AllEnded(lib, s0, schedule);
    order := SerialOrderOf(lib, s0, s);
  }

  lemma SerialOrderOf(lib: Libraries, s0: State, s: State) returns (order: seq<nat>)
    requires Initial(s0) && Keeps(s0.store, s.store) && LogExplainsStore(lib, s0, s)
    requires |s.publishers| == |s0.publishers|
    requires forall who :: 0 <= who < |s0.publishers| ==> EndedWell(lib, s0, s, who)
    ensures EveryoneOnce(s0, order) && Creators(s.created) <= order
    ensures AsGoodAs(lib, s0, s, Run(lib, s0, OneAfterAnother(order)))
  {
    var creators := Creators(s.created);
    CreatorsDistinct(lib, s0, s, |s.created|);
    assert s.created[..|s.created|] == s.created;
    var rest := Others(|s0.publishers|, creators);
    order := creators + rest;
    OthersComplete(s0, creators, rest);
    SameStore(lib, s0, s, rest);
    AllFinished(lib, s0, order);
    EndsAgree(lib, s0, s, Run(lib, s0, OneAfterAnother(order)));
  }
}
