/** Publishing secrets as environment variables of the first container. */
module EnvironmentPublisher {
  import opened Wrappers
  import opened MapRange
  import opened Deployments

  /** What a container sees: the last entry of a name wins. */
  function Environment(env: seq<EnvVar>): map<string, string> {
    if env == [] then map[]
    else
      var last := env[|env| - 1];
      Environment(env[..|env| - 1])[last.name := last.value]
  }

  /** One entry per visited secret, in iteration order. */
  function Entries(secrets: map<string, string>, order: seq<string>): (entries: seq<EnvVar>)
    requires forall k :: k in order ==> k in secrets
  {
    seq(|order|, i requires 0 <= i < |order| => EnvVar(order[i], secrets[order[i]]))
  }

  /** The deployment with entries appended to the first container and nothing else changed. */
  function WithEntries(view: PodTemplate, entries: seq<EnvVar>): PodTemplate
    requires view.containers != []
  {
    var first := view.containers[0];
    view.(containers := view.containers[0 := first.(env := first.env + entries)])
  }

  /** What that is, field by field. */
  lemma WithEntriesMeans(view: PodTemplate, entries: seq<EnvVar>, after: PodTemplate)
    requires view.containers != []
    ensures after == WithEntries(view, entries) <==>
              && |after.containers| == |view.containers| && after.containers[1..] == view.containers[1..]
              && after.containers[0].env == view.containers[0].env + entries
              && after.containers[0].name == view.containers[0].name
              && after.containers[0].volumeMounts == view.containers[0].volumeMounts
              && after.containers[0].rest == view.containers[0].rest
              && after.volumes == view.volumes
              && after.namespace == view.namespace && after.name == view.name && after.rest == view.rest
  {
    if |after.containers| == |view.containers| {
      assert after.containers == [after.containers[0]] + after.containers[1..];
      assert view.containers == [view.containers[0]] + view.containers[1..];
    }
  }

  lemma AppendEntry(env: seq<EnvVar>, entry: EnvVar)
    ensures Environment(env + [entry]) == Environment(env)[entry.name := entry.value]
  {
    assert (env + [entry])[..|env|] == env;
  }

  lemma OverrideNext<K, V>(m: map<K, V>, n: map<K, V>, key: K, value: V)
    ensures (m + n)[key := value] == m + n[key := value]
  {
  }

  lemma {:induction false} AppendEntries(env: seq<EnvVar>, secrets: map<string, string>, order: seq<string>, n: nat)
    requires n <= |order|
    requires forall k :: k in order ==> k in secrets
    ensures Environment(env + Entries(secrets, order)[..n]) == Environment(env) + Visited(secrets, order, n)
  {
    var entries := Entries(secrets, order);
    if n == 0 {
      assert env + entries[..0] == env;
      VisitNone(secrets, order);
    } else {
      var before, entry := env + entries[..n - 1], entries[n - 1];
      var visited := Visited(secrets, order, n - 1);
      calc {
        Environment(env + entries[..n]);
      == { assert env + entries[..n] == before + [entry]; AppendEntry(before, entry); }
        Environment(before)[entry.name := entry.value];
      == { AppendEntries(env, secrets, order, n - 1); }
        (Environment(env) + visited)[entry.name := entry.value];
      == { OverrideNext(Environment(env), visited, entry.name, entry.value); }
        Environment(env) + visited[entry.name := entry.value];
      == { VisitNext(secrets, order, n - 1); }
        Environment(env) + Visited(secrets, order, n);
      }
    }
  }

  /** Whatever the iteration order, the container's environment is the old one overridden by the secrets. */
  lemma EnvironmentIsOverridden(env: seq<EnvVar>, secrets: map<string, string>, order: seq<string>)
    requires Enumerates(order, secrets.Keys)
    ensures Environment(env + Entries(secrets, order)) == Environment(env) + secrets
  {
    AppendEntries(env, secrets, order, |order|);
    VisitAll(secrets, order);
    assert Entries(secrets, order)[..|order|] == Entries(secrets, order);
  }

  /** Publishing again, in any order, adds entries but changes nothing a container can see. */
  lemma PublishTwice(env: seq<EnvVar>, secrets: map<string, string>, order: seq<string>, again: seq<string>)
    requires Enumerates(order, secrets.Keys) && Enumerates(again, secrets.Keys)
    ensures Environment(env + Entries(secrets, order) + Entries(secrets, again))
         == Environment(env + Entries(secrets, order))
  {
    EnvironmentIsOverridden(env, secrets, order);
    EnvironmentIsOverridden(env + Entries(secrets, order), secrets, again);
    assert Environment(env) + secrets + secrets == Environment(env) + secrets;
  }

  /** Each secret is appended exactly once, with its value. */
  lemma {:induction false} EntryCount(secrets: map<string, string>, order: seq<string>, entry: EnvVar)
    requires NoDuplicates(order) && forall k :: k in order ==> k in secrets
    ensures multiset(Entries(secrets, order))[entry]
         == if entry.name in order && secrets[entry.name] == entry.value then 1 else 0
  {
    if order == [] {
    } else {
      var last, init := order[|order| - 1], order[..|order| - 1];
      assert order == init + [last];
      EntryCount(secrets, init, entry);
      assert Entries(secrets, order) == Entries(secrets, init) + [EnvVar(last, secrets[last])];
      assert last !in init;
    }
  }

  /** Two iteration orders append permutations of each other. */
  lemma OrdersPermute(secrets: map<string, string>, order: seq<string>, other: seq<string>)
    requires Enumerates(order, secrets.Keys) && Enumerates(other, secrets.Keys)
    ensures multiset(Entries(secrets, order)) == multiset(Entries(secrets, other))
  {
    forall entry: EnvVar
      ensures multiset(Entries(secrets, order))[entry] == multiset(Entries(secrets, other))[entry]
    {
      EntryCount(secrets, order, entry);
      EntryCount(secrets, other, entry);
      assert entry.name in order <==> entry.name in secrets.Keys;
      assert entry.name in other <==> entry.name in secrets.Keys;
    }
  }

  /** `EnvironmentPublisher.PublishSecrets`. A first container is needed as soon as there is something to publish. */
  method PublishSecrets(deployment: Deployment, secrets: map<string, string>) returns (error: Option<string>)
    requires secrets != map[] ==> deployment.containers != []
    modifies deployment
    ensures error == None
    ensures secrets == map[] ==> deployment.View() == old(deployment.View())
    ensures secrets != map[] ==>
              exists order ::
                && Enumerates(order, secrets.Keys)
                && deployment.View() == WithEntries(old(deployment.View()), Entries(secrets, order))
                && deployment.containers[0].env == old(deployment.containers[0].env) + Entries(secrets, order)
    ensures secrets != map[] ==>
              && |deployment.containers| == |old(deployment.containers)|
              && deployment.containers[1..] == old(deployment.containers[1..])
              && deployment.containers[0].name == old(deployment.containers[0].name)
              && deployment.containers[0].volumeMounts == old(deployment.containers[0].volumeMounts)
              && deployment.containers[0].rest == old(deployment.containers[0].rest)
    ensures deployment.volumes == old(deployment.volumes) && deployment.rest == old(deployment.rest)
    ensures deployment.namespace == old(deployment.namespace) && deployment.name == old(deployment.name)
    ensures secrets != map[] ==>
              Environment(deployment.containers[0].env) == Environment(old(deployment.containers[0].env)) + secrets
  {
    error := None;
    ghost var order: seq<string> := [];
    if secrets != map[] {
      assert old(deployment.containers[0].env) + Entries(secrets, []) == old(deployment.containers[0].env);
    }
    var rest := secrets.Keys;
    while rest != {}
      invariant rest <= secrets.Keys
      invariant Enumerates(order, secrets.Keys - rest)
      invariant forall k :: k in order ==> k in secrets
      invariant secrets == map[] ==> deployment.View() == old(deployment.View())
      invariant secrets != map[] ==> deployment.View() == WithEntries(old(deployment.View()), Entries(secrets, order))
      decreases rest
    {
      var key :| key in rest;
      var env := EnvVar(key, secrets[key]);
      assert key in secrets;
      ghost var earlier := order;
      order := order + [key];
      var first := deployment.containers[0];
      deployment.containers := deployment.containers[0 := first.(env := first.env + [env])];
      rest := rest - {key};
      assert Entries(secrets, order) == Entries(secrets, earlier) + [env];
      ghost var oldEnv := old(deployment.containers[0].env);
      assert oldEnv + Entries(secrets, order) == oldEnv + Entries(secrets, earlier) + [env];
    }
    if secrets != map[] {
      WithEntriesMeans(old(deployment.View()), Entries(secrets, order), deployment.View());
      EnvironmentIsOverridden(old(deployment.containers[0].env), secrets, order);
    }
  }
}
