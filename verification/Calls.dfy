/** Which part of the framework makes which calls, for every handler and over whole runs. */
module Calls {
  import opened Types
  import opened Store
  import opened Nodes
  import opened Offers
  import opened Scaling
  import opened Scheduling
  import opened Updates
  import opened Machine

  /** Neither an acknowledgement nor an ACCEPT, and if it is a kill, revive or suppress, one by these parts of the
      framework. */
  predicate Plain(c: Call, who: set<Actor>) {
    !c.Acknowledge? && !c.Accept? && (c.Kill? || c.Revive? || c.Suppress? ==> c.actor in who)
  }

  /** One log is another one followed by plain calls. */
  ghost predicate Adds(log: seq<Call>, longer: seq<Call>, who: set<Actor>) {
    exists more :: longer == log + more && forall c | c in more :: Plain(c, who)
  }

  lemma AddsNothing(log: seq<Call>, who: set<Actor>)
    ensures Adds(log, log, who)
  {
    assert log == log + [];
  }

  lemma AddsOne(log: seq<Call>, c: Call, who: set<Actor>)
    requires Plain(c, who)
    ensures Adds(log, log + [c], who)
  {
  }

  lemma AddsTrans(a: seq<Call>, b: seq<Call>, c: seq<Call>, who: set<Actor>)
    requires Adds(a, b, who) && Adds(b, c, who)
    ensures Adds(a, c, who)
  {
    var m :| b == a + m && forall c | c in m :: Plain(c, who);
    var n :| c == b + n && forall c | c in n :: Plain(c, who);
    assert c == a + (m + n);
  }

  lemma AddsMore(a: seq<Call>, b: seq<Call>, who: set<Actor>, more: set<Actor>)
    requires Adds(a, b, who) && who <= more
    ensures Adds(a, b, more)
  {
    var m :| b == a + m && forall c | c in m :: Plain(c, who);
    assert forall c | c in m :: Plain(c, more);
  }

  /** The acknowledgements, in order. */
  function Acks(log: seq<Call>): seq<Call> {
    if |log| == 0 then []
    else if log[|log| - 1].Acknowledge? then Acks(log[..|log| - 1]) + [log[|log| - 1]]
    else Acks(log[..|log| - 1])
  }

  lemma {:induction false} AcksSplit(log: seq<Call>, more: seq<Call>)
    ensures Acks(log + more) == Acks(log) + Acks(more)
  {
    if |more| == 0 {
      assert log + more == log;
    } else {
      assert (log + more)[..|log + more| - 1] == log + more[..|more| - 1];
      AcksSplit(log, more[..|more| - 1]);
    }
  }

  lemma {:induction false} PlainAcks(more: seq<Call>)
    requires forall c | c in more :: !c.Acknowledge?
    ensures Acks(more) == []
  {
    if |more| == 0 {
    } else {
      PlainAcks(more[..|more| - 1]);
    }
  }

  /** Plain calls are no acknowledgements, no ACCEPTs and no calls by anyone else. */
  lemma AddsOnly(log: seq<Call>, longer: seq<Call>, who: set<Actor>)
    requires Adds(log, longer, who)
    ensures Acks(longer) == Acks(log) && Accepts(longer) == Accepts(log)
    ensures forall a | a !in who :: CallsBy(longer, a) == CallsBy(log, a)
  {
    var more :| longer == log + more && forall c | c in more :: Plain(c, who);
    AcksSplit(log, more);
    PlainAcks(more);
    assert forall i | 0 <= i < |more| :: Plain(more[i], who);
    AcceptsOthers(log, more);
    hide Acks, Accepts, CallsBy;
    forall a | a !in who ensures CallsBy(longer, a) == CallsBy(log, a) {
      CallsByOthers(log, more, a);
    }
  }

  // ---------- The handlers ----------

  const NODES := {NodeCleanup}
  const SCALE := {ScaleStep, NodeCleanup}
  const STOP := {ScaleStep, NodeCleanup, ClusterStop}
  const BEAT := {HeartbeatStep, AgentSweep, HealthCheck, ScaleStep, NodeCleanup}

  lemma CleanedAdds(s: Sys)
    ensures Adds(s.log, Cleaned(s).log, NODES)
  {
    if s.kubeUp {
      var kills := KillsFor(s.tasks, KillOrder(UnreadyOf(s.cluster)));
      assert Cleaned(s).log == s.log + kills && forall c | c in kills :: Plain(c, NODES);
    } else {
      AddsNothing(s.log, NODES);
    }
  }

  lemma NodeDeletedAdds(s: Sys, name: string)
    ensures Adds(s.log, NodeDeleted(s, name).log, NODES)
  {
    hide Cleaned, Adds;
    CleanedAdds(s.(cluster := Without(s.cluster, {name})));
    AddsNothing(s.log, NODES);
  }

  lemma ScaledOneAdds(s: Sys, k: Kind, count: int, prior: int, i: nat)
    requires i < |s.tasks|
    ensures Adds(s.log, ScaledOne(s, k, count, prior, i).log, SCALE)
  {
    hide NodeDeleted, Adds;
    var t := s.tasks[i].(instances := count);
    var s1 := s.(tasks := s.tasks[i := t]);
    AddsNothing(s.log, SCALE);
    AddsOne(s.log, Revive(ScaleStep), SCALE);
    var node := NodeOf(s1.cache, t.id);
    var s2 := if k.Agent? && node.name != "" then NodeDeleted(s1, node.name) else s1;
    NodeDeletedAdds(s1, node.name);
    AddsMore(s1.log, NodeDeleted(s1, node.name).log, NODES, SCALE);
    AddsOne(s2.log, Kill(ScaleStep, t.id, t.agent), SCALE);
    AddsTrans(s.log, s2.log, s2.log + [Kill(ScaleStep, t.id, t.agent)], SCALE);
  }

  lemma {:induction false} ScaledFromAdds(s: Sys, k: Kind, count: int, prior: int, i: nat)
    requires i <= |s.tasks|
    ensures Adds(s.log, ScaledFrom(s, k, count, prior, i).log, SCALE)
    decreases |s.tasks| - i
  {
    hide ScaledOne, Adds;
    if i == |s.tasks| {
      AddsNothing(s.log, SCALE);
    } else if s.tasks[i].name != Some(k) {
      ScaledFromAdds(s, k, count, prior, i + 1);
    } else {
      var s1 := ScaledOne(s, k, count, prior, i);
      ScaledOneAdds(s, k, count, prior, i);
      ScaledFromAdds(s1, k, count, prior - 1, i + 1);
      AddsTrans(s.log, s1.log, ScaledFrom(s1, k, count, prior - 1, i + 1).log, SCALE);
    }
  }

  lemma ScaledToAdds(s: Sys, k: Kind, count: int)
    ensures Adds(s.log, ScaledTo(s, k, count).log, SCALE)
  {
    hide ScaledFrom, Adds;
    ScaledFromAdds(SaveConfig(s), k, count, s.cfg.max.Of(k), 0);
  }

  lemma StoppedAdds(s: Sys, ds: bool)
    ensures Adds(s.log, Stopped(s, ds).log, STOP)
  {
    hide ScaledTo, Adds;
    var s1 := SaveConfig(s.(cfg := Remembered(s.cfg)));
    var s2 := ScaledTo(s1, Agent, 0);
    var s3 := ScaledTo(s2, Server, 0);
    var s4 := if ds then ScaledTo(s3, Datastore, 0) else s3;
    ScaledToAdds(s1, Agent, 0);
    ScaledToAdds(s2, Server, 0);
    AddsTrans(s.log, s2.log, s3.log, SCALE);
    if ds {
      ScaledToAdds(s3, Datastore, 0);
      AddsTrans(s.log, s3.log, s4.log, SCALE);
    }
    AddsMore(s.log, s4.log, SCALE, STOP);
    AddsOne(s4.log, Suppress(ClusterStop), STOP);
    AddsTrans(s.log, s4.log, s4.log + [Suppress(ClusterStop)], STOP);
  }

  /** A stop ends by refusing offers, once, with its configuration saved. */
  lemma StopSuppresses(s: Sys, ds: bool)
    ensures var r := Stopped(s, ds);
            && |r.log| > 0 && r.log[|r.log| - 1] == Suppress(ClusterStop)
            && CallsBy(r.log, ClusterStop) == CallsBy(s.log, ClusterStop) + [Suppress(ClusterStop)]
            && r.saved == r.cfg
  {
    hide ScaledTo, Adds, CallsBy;
    var s1 := SaveConfig(s.(cfg := Remembered(s.cfg)));
    var s2 := ScaledTo(s1, Agent, 0);
    var s3 := ScaledTo(s2, Server, 0);
    var s4 := if ds then ScaledTo(s3, Datastore, 0) else s3;
    ScaledToAdds(s1, Agent, 0);
    AddsOnly(s1.log, s2.log, SCALE);
    ScaledToAdds(s2, Server, 0);
    AddsOnly(s2.log, s3.log, SCALE);
    ScaledToAdds(s3, Datastore, 0);
    AddsOnly(s3.log, ScaledTo(s3, Datastore, 0).log, SCALE);
    CallsByEmit(s4.log, Suppress(ClusterStop), ClusterStop);
  }

  lemma StartedAdds(s: Sys)
    ensures Adds(s.log, Started(s).log, SCALE)
  {
    hide ScaledTo, Adds;
    var s1 := ScaledTo(s, Datastore, s.cfg.restore.datastore);
    var s2 := ScaledTo(s1, Server, s1.cfg.restore.server);
    ScaledToAdds(s, Datastore, s.cfg.restore.datastore);
    ScaledToAdds(s1, Server, s1.cfg.restore.server);
    AddsTrans(s.log, s1.log, s2.log, SCALE);
    ScaledToAdds(s2, Agent, s2.cfg.restore.agent);
    AddsTrans(s.log, s2.log, Started(s).log, SCALE);
  }

  lemma {:induction false} SweptAdds(s: Sys, i: nat)
    requires i <= |s.cache|
    ensures Adds(s.log, SweptFrom(s, i).log, {AgentSweep})
    decreases |s.cache| - i
  {
    hide Adds, IsAgentNode, TaskOfNode;
    if i == |s.cache| {
      AddsNothing(s.log, {AgentSweep});
    } else {
      var n := s.cache[i];
      var t := TaskOfNode(s.tasks, n, Agent);
      var kill := Kill(AgentSweep, t.id, t.agent);
      if !IsAgentNode(n) {
        SweptAdds(s, i + 1);
      } else if t.id == "" {
        SweptAdds(s.(cache := s.cache[..i] + s.cache[i + 1..]), i);
      } else if n.ready.ReadyUnknown? && t.state == Reported(Running) {
        AddsOne(s.log, kill, {AgentSweep});
        SweptAdds(Emit(s, kill), i + 1);
        AddsTrans(s.log, s.log + [kill], SweptFrom(s, i).log, {AgentSweep});
      } else {
        SweptAdds(s, i + 1);
      }
    }
  }

  lemma HealthCheckedAdds(env: Settings, s: Sys, k: Kind, now: int)
    ensures Adds(s.log, HealthChecked(env, s, k, now).log, {HealthCheck})
  {
    hide Adds;
    AddsNothing(s.log, {HealthCheck});
    if Count(s.tasks, k) == s.cfg.max.Of(k) {
      match Inspect(s, k, now, env.nodeTimeout, 0, false)
      case Sound(_) =>
      case Faulty(i, _) =>
        AddsOne(s.log, Kill(HealthCheck, s.tasks[i].id, s.tasks[i].mesosAgent), {HealthCheck});
    }
  }

  lemma ExaminedAdds(env: Settings, s: Sys, now: int)
    ensures Adds(s.log, Examined(env, s, now).log, {HealthCheck})
  {
    hide Adds, HealthChecked;
    var s1 := HealthChecked(env, s, Server, now);
    HealthCheckedAdds(env, s, Server, now);
    HealthCheckedAdds(env, s1, Agent, now);
    AddsTrans(s.log, s1.log, Examined(env, s, now).log, {HealthCheck});
  }

  lemma TaskStartedAdds(env: Settings, s: Sys, k: Kind, id: string, at: nat)
    ensures Adds(s.log, TaskStarted(env, s, k, id, at).log, SCALE)
  {
    hide Adds, ScaledFrom, Put, NewTask;
    AddsNothing(s.log, SCALE);
    ScaledFromAdds(SaveConfig(s), k, s.cfg.max.Of(k), Count(s.tasks, k), 0);
  }

  lemma LaunchedAdds(env: Settings, s: Sys, ds: bool, server: bool, agents: bool, b: Beat)
    ensures Adds(s.log, Launched(env, s, ds, server, agents, b).log, SCALE)
  {
    hide Adds, TaskStarted;
    var s1 := if !ds then TaskStarted(env, s, Datastore, b.ids.datastore, b.at.datastore)
              else if !server then TaskStarted(env, s, Server, b.ids.server, b.at.server) else s;
    AddsNothing(s.log, SCALE);
    TaskStartedAdds(env, s, Datastore, b.ids.datastore, b.at.datastore);
    TaskStartedAdds(env, s, Server, b.ids.server, b.at.server);
    TaskStartedAdds(env, s1, Agent, b.ids.agent, b.at.agent);
    AddsTrans(s.log, s1.log, TaskStarted(env, s1, Agent, b.ids.agent, b.at.agent).log, SCALE);
  }

  lemma {:induction false} CheckedAdds(env: Settings, s: Sys, i: nat, now: int)
    requires i <= |s.tasks|
    ensures Adds(s.log, CheckedFrom(env, s, i, now).log, {CheckStateStep})
    decreases |s.tasks| - i
  {
    hide Adds, Wanted;
    if i == |s.tasks| {
      AddsNothing(s.log, {CheckStateStep});
    } else {
      var t := s.tasks[i];
      if t.id == "" || t.name.None? {
        CheckedAdds(env, s, i + 1, now);
      } else if Wanted(s.tasks, t) {
        var s1 := Scheduled(env, s, i, now);
        AddsOne(s.log, Revive(CheckStateStep), {CheckStateStep});
        CheckedAdds(env, s1, i + 1, now);
        AddsTrans(s.log, s1.log, CheckedFrom(env, s1, i + 1, now).log, {CheckStateStep});
      } else if t.state.Fresh? && t.since.None? {
        CheckedAdds(env, s.(tasks := RemoveAt(s.tasks, i)), i, now);
      } else {
        CheckedAdds(env, s, i + 1, now);
      }
    }
  }

  /** Answering offers makes no acknowledgement and no call by any part of the framework. */
  lemma OffersCalls(env: Settings, s: Sys, offers: seq<Offer>, accepted: bool)
    ensures var r := OffersHandled(env, s, offers, accepted);
            Acks(r.log) == Acks(s.log) && forall a :: CallsBy(r.log, a) == CallsBy(s.log, a)
  {
    hide Pick, Leftover, ClaimsOf, OfferIds, Acks, CallsBy;
    Answering(s.log, Decline(OfferIds(offers)));
    if |s.queue| > 0 {
      var cmd := s.queue[0];
      var left, p := Decline(Leftover(env, cmd, offers)), Pick(env, cmd, offers);
      Answering(s.log, left);
      if p < |offers| {
        var accept := Accept(offers[p].id, cmd.id, ClaimsOf(cmd));
        Answering(s.log + [left], accept);
        Answering(s.log + [left] + [accept], left);
      }
    }
  }

  lemma Answering(log: seq<Call>, c: Call)
    requires c.Decline? || c.Accept?
    ensures Acks(log + [c]) == Acks(log) && forall a :: CallsBy(log + [c], a) == CallsBy(log, a)
  {
    assert (log + [c])[..|log|] == log;
  }

  lemma NodesForgottenAdds(s: Sys, t: Command)
    ensures Adds(s.log, NodesForgotten(s, t).log, NODES)
  {
    hide Adds, NodeDeleted;
    AddsNothing(s.log, NODES);
    NodeDeletedAdds(s, NodeOf(s.cache, t.id).name);
  }

  /** The acknowledgement an update asks for: one if it carries a UUID, and otherwise none. */
  function AckFor(u: Update): seq<Call> {
    match u.uuid
    case None => []
    case Some(uuid) => [Acknowledge(u.task, uuid)]
  }

  /** The kill an update causes: one if it names a task the store does not know and is not TASK_LOST. */
  function KillFrom(s: Sys, u: Update): seq<Call> {
    if Known(s, u) || u.status.Lost? then [] else [Kill(UpdateStep, u.task, u.agent)]
  }

  /** Every update, on every path, is acknowledged exactly once if and only if it carries a UUID; of its own accord the
      handler kills exactly the unknown task; and the only other calls are those of node cleanup. */
  lemma UpdateCalls(s: Sys, u: Update, mesosAgent: string, networks: nat)
    requires forall i | 0 <= i < |s.tasks| :: s.tasks[i].id != ""
    ensures var r := UpdateHandled(s, u, mesosAgent, networks);
            && Acks(r.log) == Acks(s.log) + AckFor(u)
            && CallsBy(r.log, UpdateStep) == CallsBy(s.log, UpdateStep) + KillFrom(s, u)
            && forall a | a != UpdateStep && a != NodeCleanup :: CallsBy(r.log, a) == CallsBy(s.log, a)
  {
    hide Adds, UpdateHandled, Known;
    var mid := UpdateLog(s, u, mesosAgent, networks);
    var kill := Kill(UpdateStep, u.task, u.agent);
    AddsNothing(s.log, {UpdateStep});
    AddsOne(s.log, kill, {UpdateStep});
    CallsByEmit(s.log, kill, UpdateStep);
    AddsOnly(s.log, s.log + KillFrom(s, u), {UpdateStep});
    AddsOnly(s.log + KillFrom(s, u), mid, NODES);
    Acknowledging(mid, u);
  }

  /** The log after an update: the kill, node cleanup, the acknowledgement. */
  lemma UpdateLog(s: Sys, u: Update, mesosAgent: string, networks: nat) returns (mid: seq<Call>)
    requires forall i | 0 <= i < |s.tasks| :: s.tasks[i].id != ""
    ensures Adds(s.log + KillFrom(s, u), mid, NODES)
    ensures UpdateHandled(s, u, mesosAgent, networks).log == mid + AckFor(u)
  {
    UnknownIsEmpty(s, u);
    hide Adds, Recorded, TaskOf, Known;
    var t := TaskOf(s, u);
    var s1 := if t.id == "" && !u.status.Lost? then Emit(s, Kill(UpdateStep, u.task, u.agent)) else s;
    assert s1.log == s.log + KillFrom(s, u);
    RecordedAdds(s1, t, u, mesosAgent, networks);
    mid := Recorded(s1, t, u, mesosAgent, networks).log;
  }

  lemma RecordedAdds(s: Sys, t: Command, u: Update, mesosAgent: string, networks: nat)
    ensures Adds(s.log, Recorded(s, t, u, mesosAgent, networks).log, NODES)
  {
    hide Adds, NodesForgotten, Terminal, Put, Delete;
    AddsNothing(s.log, NODES);
    NodesForgottenAdds(Forgotten(s, t), t);
  }

  lemma UnknownIsEmpty(s: Sys, u: Update)
    requires forall i | 0 <= i < |s.tasks| :: s.tasks[i].id != ""
    ensures TaskOf(s, u).id == "" <==> !Known(s, u)
  {
  }

  lemma Acknowledging(log: seq<Call>, u: Update)
    ensures Acks(log + AckFor(u)) == Acks(log) + AckFor(u)
    ensures forall a :: CallsBy(log + AckFor(u), a) == CallsBy(log, a)
  {
    AcksSplit(log, AckFor(u));
    if u.uuid.Some? {
      assert AckFor(u)[..0] == [];
    }
    forall a ensures CallsBy(log + AckFor(u), a) == CallsBy(log, a) {
      CallsByOthers(log, AckFor(u), a);
    }
  }
}
