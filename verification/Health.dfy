/** What the node health check and the sweep of the node cache mean. */
module Health {
  import opened Types
  import opened Store
  import opened Nodes
  import opened Scheduling

  /** A task has a named cached node, and that has not been unready for too long. */
  ghost predicate Sane(s: Sys, t: Command, now: int, limit: int) {
    exists q: nat ::
      && FirstCarrying(s.cache, t.id, q) && s.cache[q].name != ""
      && (s.cache[q].ready in {NoCondition, ReadyTrue} || (t.since.Some? && now < t.since.value + limit))
  }

  ghost predicate OnReadyNode(s: Sys, t: Command) {
    exists q: nat :: FirstCarrying(s.cache, t.id, q) && s.cache[q].name != "" && s.cache[q].ready == ReadyTrue
  }

  /** The same, by the lookup. */
  lemma SaneIs(s: Sys, t: Command, now: int, limit: int)
    ensures var node := NodeOf(s.cache, t.id);
            && (Sane(s, t, now, limit) <==> node.name != "" && !(Unready(node) && Elapsed(now, t.since, limit)))
            && (OnReadyNode(s, t) <==> node.name != "" && node.ready.ReadyTrue?)
  {
    NodeOfFirst(s.cache, t.id);
    hide FirstCarrying, NodeOf;
    if q: nat :| FirstCarrying(s.cache, t.id, q) {
      OnlyFirst(s.cache, t.id, q);
    }
  }

  lemma OnlyFirst(cache: seq<Node>, id: string, q: nat)
    requires FirstCarrying(cache, id, q)
    ensures q < |cache| && forall p: nat :: FirstCarrying(cache, id, p) ==> p == q
  {
  }

  /** Some task of the kind, from position `i` on, is on a ready node. */
  ghost predicate SomeReady(s: Sys, k: Kind, i: nat) {
    exists j :: i <= j < |s.tasks| && s.tasks[j].name == Some(k) && OnReadyNode(s, s.tasks[j])
  }

  /** The walk finds no fault exactly when there is none, and otherwise stops at the first one. */
  lemma {:induction false} InspectFinds(s: Sys, k: Kind, now: int, limit: int, i: nat, ready: bool)
    requires i <= |s.tasks|
    ensures match Inspect(s, k, now, limit, i, ready)
            case Sound(r) =>
              && (forall j | i <= j < |s.tasks| && s.tasks[j].name == Some(k) :: Sane(s, s.tasks[j], now, limit))
              && (r <==> ready || SomeReady(s, k, i))
            case Faulty(p, expired) =>
              && !Sane(s, s.tasks[p], now, limit)
              && (expired <==> s.tasks[p].since.None? || s.tasks[p].since.value + limit <= now)
              && forall j | i <= j < p && s.tasks[j].name == Some(k) :: Sane(s, s.tasks[j], now, limit)
    decreases |s.tasks| - i
  {
    hide NodeOf, Unready, Sane, OnReadyNode;
    if i == |s.tasks| {
    } else {
      SaneIs(s, s.tasks[i], now, limit);
      if s.tasks[i].name != Some(k) {
        InspectFinds(s, k, now, limit, i + 1, ready);
      } else if Sane(s, s.tasks[i], now, limit) {
        InspectFinds(s, k, now, limit, i + 1, ready || OnReadyNode(s, s.tasks[i]));
      }
    }
  }

  /** healthCheckNode is true exactly when the count is the wanted one, every task of the kind has a named cached node,
      none of these nodes has been unready past the timeout, and at least one is ready. */
  lemma HealthyMeans(env: Settings, s: Sys, k: Kind, now: int)
    ensures NodesHealthy(env, s, k, now)
       <==> && Count(s.tasks, k) == s.cfg.max.Of(k)
            && (forall j | 0 <= j < |s.tasks| && s.tasks[j].name == Some(k) ::
                Sane(s, s.tasks[j], now, env.nodeTimeout))
            && SomeReady(s, k, 0)
  {
    hide Sane, SomeReady, Inspect;
    InspectFinds(s, k, now, env.nodeTimeout, 0, false);
  }

  /** The task at `p` is the first of its kind with a fault, and both its times are up. */
  ghost predicate FirstOverdue(env: Settings, s: Sys, k: Kind, now: int, p: nat) {
    && p < |s.tasks| && s.tasks[p].name == Some(k)
    && !Sane(s, s.tasks[p], now, env.nodeTimeout)
    && (s.tasks[p].since.None?
        || (s.tasks[p].since.value + env.nodeTimeout <= now && s.tasks[p].since.value + env.cleanupTime <= now))
    && forall j | 0 <= j < p && s.tasks[j].name == Some(k) :: Sane(s, s.tasks[j], now, env.nodeTimeout)
  }

  /** A health check cleans up at most one task, and none while it finds health: it acts exactly when the count is the
      wanted one and some first faulty task is overdue, and then on that task alone. */
  lemma HealthCheckCleansOne(env: Settings, s: Sys, k: Kind, now: int)
    ensures var r := HealthChecked(env, s, k, now);
            && (r != s <==> Count(s.tasks, k) == s.cfg.max.Of(k) && exists p: nat :: FirstOverdue(env, s, k, now, p))
            && (forall p: nat | r != s && FirstOverdue(env, s, k, now, p) ::
                  r == if s.tasks[p].mesosAgent == "" then s.(tasks := RemoveAt(s.tasks, p))
                       else Emit(s, Kill(HealthCheck, s.tasks[p].id, s.tasks[p].mesosAgent)))
            && (NodesHealthy(env, s, k, now) ==> r == s)
  {
    InspectFinds(s, k, now, env.nodeTimeout, 0, false);
    hide Sane, Inspect, Count;
    var r := HealthChecked(env, s, k, now);
    var v := Inspect(s, k, now, env.nodeTimeout, 0, false);
    if v.Faulty? {
      var p := v.position;
      forall q: nat | FirstOverdue(env, s, k, now, q) ensures q == p {
      }
      if Count(s.tasks, k) == s.cfg.max.Of(k) && v.expired {
        UnreadyCleanedActs(env, s, p, now);
        assert Elapsed(now, s.tasks[p].since, env.cleanupTime) ==> FirstOverdue(env, s, k, now, p);
      }
    }
  }

  lemma UnreadyCleanedActs(env: Settings, s: Sys, i: nat, now: int)
    requires i < |s.tasks|
    ensures var r, t := UnreadyCleaned(env, s, i, now), s.tasks[i];
            if !Elapsed(now, t.since, env.cleanupTime) then r == s
            else
              && r != s
              && r == if t.mesosAgent == "" then s.(tasks := RemoveAt(s.tasks, i))
                      else Emit(s, Kill(HealthCheck, t.id, t.mesosAgent))
  {
    assert |RemoveAt(s.tasks, i)| < |s.tasks|;
    assert |s.log + [Kill(HealthCheck, s.tasks[i].id, s.tasks[i].mesosAgent)]| > |s.log|;
  }

  /** Some datastore task runs and has a network. */
  ghost predicate SomeDatastore(ts: seq<Command>) {
    exists t :: t in ts && t.name == Some(Datastore) && t.state == Reported(Running) && t.networks > 0
  }

  lemma DatastoreMeans(ts: seq<Command>)
    ensures DatastoreHealthy(ts) <==> SomeDatastore(ts)
  {
    if SomeDatastore(ts) {
      var t :| t in ts && t.name == Some(Datastore) && t.state == Reported(Running) && t.networks > 0;
      var i :| 0 <= i < |ts| && ts[i] == t;
    }
  }

  // ---------- The sweep ----------

  /** An agent's node, by its name. */
  ghost predicate AgentNamed(n: Node) { exists a, b :: n.name == a + "agent" + b }

  lemma AgentNamedIs(n: Node)
    ensures IsAgentNode(n) <==> AgentNamed(n)
  {
    if IsAgentNode(n) {
      var i: nat :| i <= |n.name| && OccursAt(n.name, "agent", i);
      assert n.name == n.name[..i] + "agent" + n.name[i + 5..];
    }
    if AgentNamed(n) {
      var a, b :| n.name == a + "agent" + b;
      assert OccursAt(n.name, "agent", |a|);
    }
  }

  /** A cached agent node that no stored agent task belongs to. */
  ghost predicate Stray(ts: seq<Command>, n: Node) { AgentNamed(n) && !Owned(ts, n, Agent) }

  /** A running agent whose node has gone silent. */
  ghost predicate Silent(ts: seq<Command>, n: Node) {
    && AgentNamed(n) && n.ready == ReadyUnknown
    && exists p: nat :: OwnedBy(ts, n, Agent, p) && ts[p].state == Reported(Running)
  }

  /** The cache without the stray nodes. */
  ghost function Mapped(ts: seq<Command>, ns: seq<Node>): seq<Node> {
    if |ns| == 0 then []
    else if Stray(ts, ns[0]) then Mapped(ts, ns[1..])
    else [ns[0]] + Mapped(ts, ns[1..])
  }

  lemma {:induction false} MappedIn(ts: seq<Command>, ns: seq<Node>)
    ensures forall n :: n in Mapped(ts, ns) <==> n in ns && !Stray(ts, n)
  {
    hide Stray;
    if |ns| == 0 {
    } else {
      MappedIn(ts, ns[1..]);
      assert ns == [ns[0]] + ns[1..];
    }
  }

  ghost function SilentKill(ts: seq<Command>, n: Node): Call
    requires Silent(ts, n)
  {
    var p: nat :| OwnedBy(ts, n, Agent, p);
    Kill(AgentSweep, ts[p].id, ts[p].agent)
  }

  /** The same, by the lookups. */
  lemma SweptNode(ts: seq<Command>, n: Node)
    ensures var t := TaskOfNode(ts, n, Agent);
            && (Stray(ts, n) <==> IsAgentNode(n) && t.id == "")
            && (Silent(ts, n) <==>
                  IsAgentNode(n) && t.id != "" && n.ready.ReadyUnknown? && t.state == Reported(Running))
            && (Silent(ts, n) ==> SilentKill(ts, n) == Kill(AgentSweep, t.id, t.agent))
  {
    AgentNamedIs(n);
    TaskOfNodeMeans(ts, n, Agent);
    hide AgentNamed, TaskOfNode;
    if p: nat :| OwnedBy(ts, n, Agent, p) {
      assert forall q: nat :: OwnedBy(ts, n, Agent, q) ==> q == p;
    }
  }

  /** The kills for the silent nodes. */
  ghost function SilentKills(ts: seq<Command>, ns: seq<Node>): seq<Call> {
    if |ns| == 0 then []
    else if Silent(ts, ns[0]) then [SilentKill(ts, ns[0])] + SilentKills(ts, ns[1..])
    else SilentKills(ts, ns[1..])
  }

  /** One round of the sweep. */
  lemma SweptRound(s: Sys, i: nat)
    requires i < |s.cache|
    ensures SweptFrom(s, i)
         == if Stray(s.tasks, s.cache[i]) then SweptFrom(s.(cache := s.cache[..i] + s.cache[i + 1..]), i)
            else if Silent(s.tasks, s.cache[i]) then SweptFrom(Emit(s, SilentKill(s.tasks, s.cache[i])), i + 1)
            else SweptFrom(s, i + 1)
  {
    SweptNode(s.tasks, s.cache[i]);
    hide IsAgentNode, TaskOfNode, Stray, Silent, SilentKill;
  }

  lemma StrayNotSilent(ts: seq<Command>, n: Node)
    ensures !(Stray(ts, n) && Silent(ts, n))
  {
  }

  /** The round does not change what the sweep comes to. */
  lemma MappedRound(ts: seq<Command>, cache: seq<Node>, i: nat)
    requires i < |cache|
    ensures var rest := cache[..i] + cache[i + 1..];
            cache[..i] + Mapped(ts, cache[i..]) ==
              if Stray(ts, cache[i]) then rest[..i] + Mapped(ts, rest[i..])
              else cache[..i + 1] + Mapped(ts, cache[i + 1..])
    ensures var rest := cache[..i] + cache[i + 1..];
            SilentKills(ts, cache[i..]) ==
              if Stray(ts, cache[i]) then SilentKills(ts, rest[i..])
              else if Silent(ts, cache[i]) then [SilentKill(ts, cache[i])] + SilentKills(ts, cache[i + 1..])
              else SilentKills(ts, cache[i + 1..])
  {
    StrayNotSilent(ts, cache[i]);
    hide Stray, Silent, SilentKill;
    var rest := cache[..i] + cache[i + 1..];
    assert cache[i..][1..] == cache[i + 1..];
    assert rest[i..] == cache[i + 1..] && rest[..i] == cache[..i];
  }

  lemma SweptEnd(s: Sys)
    ensures SweptFrom(s, |s.cache|) == s
    ensures s.cache[..|s.cache|] + Mapped(s.tasks, s.cache[|s.cache|..]) == s.cache
    ensures s.log + SilentKills(s.tasks, s.cache[|s.cache|..]) == s.log
  {
  }

  lemma {:induction false} SweptFromEffect(s: Sys, i: nat)
    requires i <= |s.cache|
    ensures SweptFrom(s, i).cache == s.cache[..i] + Mapped(s.tasks, s.cache[i..])
    ensures SweptFrom(s, i).log == s.log + SilentKills(s.tasks, s.cache[i..])
    ensures SweptFrom(s, i).cluster == s.cluster
    decreases |s.cache| - i
  {
    hide SweptFrom, Mapped, SilentKills, Stray, Silent, SilentKill;
    if i == |s.cache| {
      SweptEnd(s);
    } else {
      SweptRound(s, i);
      MappedRound(s.tasks, s.cache, i);
      if Stray(s.tasks, s.cache[i]) {
        SweptFromEffect(s.(cache := s.cache[..i] + s.cache[i + 1..]), i);
      } else if Silent(s.tasks, s.cache[i]) {
        SweptFromEffect(Emit(s, SilentKill(s.tasks, s.cache[i])), i + 1);
      } else {
        SweptFromEffect(s, i + 1);
      }
    }
  }

  /** After a sweep every cached agent node belongs to a stored agent task, and only strays are gone; the agents killed
      are the running ones whose node is silent, in the order of the cache. */
  lemma SweepKeepsMapped(s: Sys)
    ensures var r := SweptFrom(s, 0);
            && (forall n | n in r.cache && AgentNamed(n) :: Owned(s.tasks, n, Agent))
            && (forall n | n in s.cache && n !in r.cache :: AgentNamed(n) && !Owned(s.tasks, n, Agent))
            && r.tasks == s.tasks && r.cluster == s.cluster
            && r.log == s.log + SilentKills(s.tasks, s.cache)
  {
    SweptFromEffect(s, 0);
    MappedIn(s.tasks, s.cache);
    assert s.cache[0..] == s.cache && s.cache[..0] == [];
    hide SweptFrom, AgentNamed, Owned;
    assert SweptFrom(s, 0).cache == Mapped(s.tasks, s.cache);
  }
}
