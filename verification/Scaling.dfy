/** Scaling a kind of task, stopping and starting the cluster, and what a restart reloads. */
module Scaling {
  import opened Types
  import opened Store
  import opened Nodes

  /** Scale down one task: an agent that has a node loses the node first, then the task is killed. */
  function ScaledDown(s: Sys, k: Kind, t: Command): (r: Sys)
    ensures OnlyNodes(s, r)
  {
    var node := NodeOf(s.cache, t.id);
    var s1 := if k.Agent? && node.name != "" then NodeDeleted(s, node.name) else s;
    Emit(s1, Kill(ScaleStep, t.id, t.agent))
  }

  /** One round of Scale, at position `i` of the store, with the old count standing at `prior`. */
  function ScaledOne(s: Sys, k: Kind, count: int, prior: int, i: nat): (r: Sys)
    requires i < |s.tasks|
    ensures OnlyStoreAndNodes(s, r) && r.tasks == s.tasks[i := s.tasks[i].(instances := count)]
  {
    var t := s.tasks[i].(instances := count);
    var s1 := s.(tasks := s.tasks[i := t]);
    if count < prior then ScaledDown(s1, k, t)
    else if count > prior then Emit(s1, Revive(ScaleStep))
    else s1
  }

  /** The loop of Scale from position `i` on; the old count goes down by one with every task of the kind. */
  function ScaledFrom(s: Sys, k: Kind, count: int, prior: int, i: nat): Sys
    requires i <= |s.tasks|
    decreases |s.tasks| - i
  {
    if i == |s.tasks| then s
    else if s.tasks[i].name != Some(k) then ScaledFrom(s, k, count, prior, i + 1)
    else ScaledFrom(ScaledOne(s, k, count, prior, i), k, count, prior - 1, i + 1)
  }

  function Scaled(s: Sys, k: Kind, count: int, prior: int): Sys {
    ScaledFrom(SaveConfig(s), k, count, prior, 0)
  }

  /** scaleServer, scaleAgent and scaleDatastore. */
  function ScaledTo(s: Sys, k: Kind, count: int): Sys {
    var s1 := Scaled(s, k, count, s.cfg.max.Of(k));
    s1.(cfg := s1.cfg.(max := With(s1.cfg.max, k, count)))
  }

  predicate AllNonzero(p: PerKind<int>) { p.datastore != 0 && p.server != 0 && p.agent != 0 }

  /** Remember the wanted counts, unless one of them is already zero. */
  function Remembered(c: Config): Config {
    if AllNonzero(c.max) then c.(restore := c.max) else c
  }

  /** clusterStop; `ds` says whether the datastore goes down too. */
  function Stopped(s: Sys, ds: bool): Sys {
    var s1 := SaveConfig(s.(cfg := Remembered(s.cfg)));
    var s2 := ScaledTo(ScaledTo(s1, Agent, 0), Server, 0);
    var s3 := if ds then ScaledTo(s2, Datastore, 0) else s2;
    Emit(SaveConfig(s3), Suppress(ClusterStop))
  }

  /** clusterStart. */
  function Started(s: Sys): Sys {
    var s1 := ScaledTo(s, Datastore, s.cfg.restore.datastore);
    var s2 := ScaledTo(s1, Server, s1.cfg.restore.server);
    ScaledTo(s2, Agent, s2.cfg.restore.agent)
  }

  /** V0ClusterStart: refused while all three counts are nonzero. */
  function StartRequested(s: Sys): Sys {
    if AllNonzero(s.cfg.max) then s else Started(s)
  }

  /** The process dies and comes back: the channel is lost, the configuration is the saved one,
      and the heartbeat loop resets its locks. */
  function Restarted(s: Sys): Sys {
    s.(queue := [], lost := s.lost + QueueIds(s.queue), cfg := s.saved, reviveLock := true, suppressLock := false)
  }

  function QueueIds(q: seq<Command>): seq<string> {
    seq(|q|, i requires 0 <= i < |q| => q[i].id)
  }

  // ---------- Scale arithmetic ----------

  function Positive(x: int): nat { if x < 0 then 0 else x }

  function Min(x: int, y: int): int { if x < y then x else y }

  /** The calls of one part of the framework, in order. */
  function CallsBy(log: seq<Call>, actor: Actor): seq<Call> {
    if |log| == 0 then []
    else
      var c := log[|log| - 1];
      if MadeBy(c, actor) then CallsBy(log[..|log| - 1], actor) + [c] else CallsBy(log[..|log| - 1], actor)
  }

  predicate MadeBy(c: Call, actor: Actor) {
    (c.Kill? || c.Revive? || c.Suppress?) && c.actor == actor
  }

  lemma CallsByEmit(log: seq<Call>, c: Call, actor: Actor)
    ensures CallsBy(log + [c], actor) == if MadeBy(c, actor) then CallsBy(log, actor) + [c] else CallsBy(log, actor)
  {
    assert (log + [c])[..|log|] == log;
  }

  lemma {:induction false} CallsByOthers(log: seq<Call>, more: seq<Call>, actor: Actor)
    requires forall c | c in more :: !MadeBy(c, actor)
    ensures CallsBy(log + more, actor) == CallsBy(log, actor)
  {
    if |more| == 0 {
      assert log + more == log;
    } else {
      var front, c := more[..|more| - 1], more[|more| - 1];
      assert log + more == (log + front) + [c];
      CallsByEmit(log + front, c, actor);
      CallsByOthers(log, front, actor);
    }
  }

  /** Scaling one task down makes one kill of Scale's own. */
  lemma ScaledDownCalls(s: Sys, k: Kind, t: Command)
    ensures CallsBy(ScaledDown(s, k, t).log, ScaleStep) == CallsBy(s.log, ScaleStep) + [Kill(ScaleStep, t.id, t.agent)]
  {
    var node := NodeOf(s.cache, t.id);
    var s1 := if k.Agent? && node.name != "" then NodeDeleted(s, node.name) else s;
    if s1 != s {
      CallsByOthers(s.log, KillsFor(s.tasks, KillOrder(UnreadyOf(Without(s.cluster, {node.name})))), ScaleStep);
    }
    CallsByEmit(s1.log, Kill(ScaleStep, t.id, t.agent), ScaleStep);
  }

  /** The call Scale makes for a task when the old count stands at `prior`, if any. */
  function ScaleCall(t: Command, count: int, prior: int): seq<Call> {
    if count < prior then [Kill(ScaleStep, t.id, t.agent)]
    else if count > prior then [Revive(ScaleStep)]
    else []
  }

  /** The calls Scale makes for the tasks `ts` of its kind. */
  function ScaleCalls(ts: seq<Command>, count: int, prior: int): seq<Call> {
    if |ts| == 0 then [] else ScaleCall(ts[0], count, prior) + ScaleCalls(ts[1..], count, prior - 1)
  }

  lemma ScaledOneCalls(s: Sys, k: Kind, count: int, prior: int, i: nat)
    requires i < |s.tasks|
    ensures CallsBy(ScaledOne(s, k, count, prior, i).log, ScaleStep)
         == CallsBy(s.log, ScaleStep) + ScaleCall(s.tasks[i], count, prior)
  {
    var t := s.tasks[i].(instances := count);
    ScaledDownCalls(s.(tasks := s.tasks[i := t]), k, t);
    CallsByEmit(s.log, Revive(ScaleStep), ScaleStep);
  }

  /** What Scale does to the store: only instance counts of the kind change, to the new count. */
  ghost predicate Rescaled(ts: seq<Command>, us: seq<Command>, k: Kind, count: int, i: nat) {
    && |us| == |ts|
    && forall j | 0 <= j < |ts| ::
         us[j] == if j >= i && ts[j].name == Some(k) then ts[j].(instances := count) else ts[j]
  }

  lemma {:induction false} RescaledCount(ts: seq<Command>, us: seq<Command>, k: Kind, count: int, i: nat, o: Kind)
    requires Rescaled(ts, us, k, count, i)
    ensures Count(us, o) == Count(ts, o)
    decreases |ts|
  {
    if |ts| == 0 {
    } else {
      RescaledCount(ts[..|ts| - 1], us[..|us| - 1], k, count, i, o);
    }
  }

  lemma {:induction false} ScaledFromStore(s: Sys, k: Kind, count: int, prior: int, i: nat)
    requires i <= |s.tasks|
    ensures Rescaled(s.tasks, ScaledFrom(s, k, count, prior, i).tasks, k, count, i)
    ensures OnlyStoreAndNodes(s, ScaledFrom(s, k, count, prior, i))
    decreases |s.tasks| - i
  {
    hide ScaledOne;
    if i == |s.tasks| {
    } else {
      if s.tasks[i].name != Some(k) {
        ScaledFromStore(s, k, count, prior, i + 1);
      } else {
        ScaledFromStore(ScaledOne(s, k, count, prior, i), k, count, prior - 1, i + 1);
      }
    }
  }

  lemma {:induction false} ScaledFromCalls(s: Sys, k: Kind, count: int, prior: int, i: nat)
    requires i <= |s.tasks|
    ensures CallsBy(ScaledFrom(s, k, count, prior, i).log, ScaleStep)
         == CallsBy(s.log, ScaleStep) + ScaleCalls(OfKind(s.tasks[i..], k), count, prior)
    decreases |s.tasks| - i
  {
    hide ScaledOne, ScaleCall, CallsBy, OfKind;
    var ts := s.tasks;
    OfKindFrom(ts, i, k);
    if i == |ts| {
    } else {
      if ts[i].name != Some(k) {
        ScaledFromCalls(s, k, count, prior, i + 1);
      } else {
        var s1 := ScaledOne(s, k, count, prior, i);
        ScaledOneCalls(s, k, count, prior, i);
        assert s1.tasks[i + 1..] == ts[i + 1..];
        ScaledFromCalls(s1, k, count, prior - 1, i + 1);
      }
    }
  }

  lemma OfKindFrom(ts: seq<Command>, i: nat, k: Kind)
    requires i <= |ts|
    ensures if i == |ts| then OfKind(ts[i..], k) == []
            else if ts[i].name != Some(k) then OfKind(ts[i..], k) == OfKind(ts[i + 1..], k)
            else OfKind(ts[i..], k) == [ts[i]] + OfKind(ts[i + 1..], k)
  {
    if i < |ts| {
      assert ts[i..] == [ts[i]] + ts[i + 1..];
      OfKindSplit([ts[i]], ts[i + 1..], k);
      OfKindOne(ts[i], k);
    }
  }

  lemma OfKindOne(t: Command, k: Kind)
    ensures OfKind([t], k) == if t.name == Some(k) then [t] else []
  {
    assert [t][..0] == [];
  }

  /** In closed form: kills for the first min(n, max(0, prior - new)) tasks, then at most one task left alone,
      then one revive for each of the max(0, n - max(0, prior - new + 1)) others. */
  lemma {:induction false} ScaleCallsClosed(ts: seq<Command>, count: int, prior: int)
    ensures var n, d := |ts|, Positive(prior - count);
            var kills, revives := Min(n, d), Positive(n - Positive(prior - count + 1));
            && |ScaleCalls(ts, count, prior)| == kills + revives
            && (forall j | 0 <= j < kills :: ScaleCalls(ts, count, prior)[j] == Kill(ScaleStep, ts[j].id, ts[j].agent))
            && forall j | kills <= j < kills + revives :: ScaleCalls(ts, count, prior)[j] == Revive(ScaleStep)
  {
    if |ts| == 0 {
    } else {
      ScaleCallsClosed(ts[1..], count, prior - 1);
    }
  }

  /** Scale on the whole: its own calls are exactly the closed form over the tasks of the kind in iteration order;
      every task of the kind now has the new instance count, and nothing else in the store changed. */
  lemma ScaleArithmetic(s: Sys, k: Kind, count: int, prior: int)
    ensures var r := Scaled(s, k, count, prior);
            && Rescaled(s.tasks, r.tasks, k, count, 0)
            && CallsBy(r.log, ScaleStep) == CallsBy(s.log, ScaleStep) + ScaleCalls(OfKind(s.tasks, k), count, prior)
            && r.cfg == s.cfg && r.saved == s.cfg && r.queue == s.queue
  {
    ScaledFromStore(SaveConfig(s), k, count, prior, 0);
    ScaledFromCalls(SaveConfig(s), k, count, prior, 0);
    assert s.tasks[0..] == s.tasks;
  }
}
