/** How many tasks there are, against how many are wanted. */
module Counts {
  import opened Types
  import opened Store
  import opened Nodes
  import opened Ports
  import opened Offers
  import opened Scaling
  import opened Scheduling
  import opened Updates
  import opened Machine
  import opened Minor
  import opened Safety

  // ---------- Instances ----------

  /** Every stored task of the kind carries the wanted count. */
  ghost predicate KindCurrent(s: Sys, k: Kind) {
    forall i | 0 <= i < |s.tasks| && s.tasks[i].name == Some(k) :: s.tasks[i].instances == s.cfg.max.Of(k)
  }

  /** Every stored task carries the wanted count of its kind. */
  ghost predicate InstancesCurrent(s: Sys) {
    forall k :: KindCurrent(s, k)
  }

  lemma KeepsWantsCurrent(s: Sys, r: Sys, k: Kind)
    requires KindCurrent(s, k) && KeepsWants(s, r)
    ensures KindCurrent(r, k)
  {
    forall i | 0 <= i < |r.tasks| && r.tasks[i].name == Some(k) ensures r.tasks[i].instances == r.cfg.max.Of(k) {
      assert WantedBefore(s.tasks, r.tasks[i]);
    }
  }

  /** Scaling a kind to its wanted count makes the kind current, and keeps the other kinds so. */
  lemma ScaledCurrent(s: Sys, o: Kind, prior: int, k: Kind)
    requires KindCurrent(s, k) || o == k
    ensures KindCurrent(Scaled(s, o, s.cfg.max.Of(o), prior), k)
  {
    ScaledFromStore(SaveConfig(s), o, s.cfg.max.Of(o), prior, 0);
  }

  lemma ScaledToCurrent(s: Sys, o: Kind, count: int, k: Kind)
    requires KindCurrent(s, k) || o == k
    ensures KindCurrent(ScaledTo(s, o, count), k)
  {
    ScaledFromStore(SaveConfig(s), o, count, s.cfg.max.Of(o), 0);
    hide ScaledFrom;
    WithOf(s.cfg.max, o, count);
  }

  lemma WithOf(p: PerKind<int>, k: Kind, v: int)
    ensures With(p, k, v).Of(k) == v && forall o | o != k :: With(p, k, v).Of(o) == p.Of(o)
  {
  }

  lemma StartedCurrent(env: Settings, s: Sys, o: Kind, id: string, at: nat, k: Kind)
    requires KindCurrent(s, k)
    ensures KindCurrent(TaskStarted(env, s, o, id, at), k)
  {
    hide Scaled, Count;
    ScaledCurrent(s, o, Count(s.tasks, o), k);
  }

  lemma HeartbeatCurrent(env: Settings, s: Sys, b: Beat, k: Kind)
    requires KindCurrent(s, k)
    ensures KindCurrent(HeartbeatDone(env, s, b), k)
  {
    hide KindCurrent, MinorStep, KeepsWants, Settled, Alarmed, HealthChecked, TaskStarted, NodesHealthy,
      DatastoreHealthy;
    SettledMinor(s);
    if NothingWanted(s) {
      KeepsWantsCurrent(s, Settled(s), k);
    } else {
      var s1 := Examined(env, s, b.now);
      ExaminedMinor(env, s, b.now);
      KeepsWantsCurrent(s, s1, k);
      SettledMinor(s1);
      KeepsWantsCurrent(s1, Settled(s1), k);
      var s2 := Alarmed(s1);
      AlarmedMinor(s1);
      KeepsWantsCurrent(s1, s2, k);
      StartedCurrent(env, s2, Datastore, b.ids.datastore, b.at.datastore, k);
      StartedCurrent(env, s2, Server, b.ids.server, b.at.server, k);
      var ds, server := DatastoreHealthy(s.tasks), NodesHealthy(env, s, Server, b.now);
      var s3 := if !ds then TaskStarted(env, s2, Datastore, b.ids.datastore, b.at.datastore)
                else if !server then TaskStarted(env, s2, Server, b.ids.server, b.at.server) else s2;
      StartedCurrent(env, s3, Agent, b.ids.agent, b.at.agent, k);
    }
  }

  lemma CheckedOneCurrent(env: Settings, s: Sys, i: nat, now: int, k: Kind)
    requires KindCurrent(s, k) && i < |s.tasks|
    ensures KindCurrent(Scheduled(env, s, i, now), k) && KindCurrent(s.(tasks := RemoveAt(s.tasks, i)), k)
    ensures |Scheduled(env, s, i, now).tasks| == |s.tasks| && |RemoveAt(s.tasks, i)| == |s.tasks| - 1
  {
    hide HostPort, Assigned, Synced;
  }

  lemma {:induction false} CheckedCurrent(env: Settings, s: Sys, i: nat, now: int, k: Kind)
    requires KindCurrent(s, k) && i <= |s.tasks|
    ensures KindCurrent(CheckedFrom(env, s, i, now), k)
    decreases |s.tasks| - i
  {
    hide Wanted, Scheduled, KindCurrent, RemoveAt;
    if i == |s.tasks| {
    } else {
      var t := s.tasks[i];
      CheckedOneCurrent(env, s, i, now, k);
      if t.id == "" || t.name.None? {
        CheckedCurrent(env, s, i + 1, now, k);
      } else if Wanted(s.tasks, t) {
        CheckedCurrent(env, Scheduled(env, s, i, now), i + 1, now, k);
      } else if t.state.Fresh? && t.since.None? {
        CheckedCurrent(env, s.(tasks := RemoveAt(s.tasks, i)), i, now, k);
      } else {
        CheckedCurrent(env, s, i + 1, now, k);
      }
    }
  }

  lemma StoppedCurrent(s: Sys, ds: bool, k: Kind)
    requires KindCurrent(s, k)
    ensures KindCurrent(Stopped(s, ds), k)
  {
    hide ScaledTo;
    var s1 := SaveConfig(s.(cfg := Remembered(s.cfg)));
    ScaledToCurrent(s1, Agent, 0, k);
    ScaledToCurrent(ScaledTo(s1, Agent, 0), Server, 0, k);
    ScaledToCurrent(ScaledTo(ScaledTo(s1, Agent, 0), Server, 0), Datastore, 0, k);
  }

  lemma StartedAllCurrent(s: Sys, k: Kind)
    requires KindCurrent(s, k)
    ensures KindCurrent(Started(s), k)
  {
    hide ScaledTo, KindCurrent;
    var s1 := ScaledTo(s, Datastore, s.cfg.restore.datastore);
    var s2 := ScaledTo(s1, Server, s1.cfg.restore.server);
    ScaledToCurrent(s, Datastore, s.cfg.restore.datastore, k);
    ScaledToCurrent(s1, Server, s1.cfg.restore.server, k);
    ScaledToCurrent(s2, Agent, s2.cfg.restore.agent, k);
  }

  /** Every step but a crash keeps the instance counts of a kind equal to its wanted count. */
  lemma StepCurrent(env: Settings, issued: set<string>, s: Sys, e: Event, k: Kind)
    requires KindCurrent(s, k) && LifeCycle(issued, s) && !e.Crashed?
    ensures KindCurrent(Apply(env, s, e), k)
  {
    hide KindCurrent, HeartbeatDone, CheckedFrom, UpdateHandled, ScaledTo, Stopped, Started, Cleaned, KeepsWants,
      OffersHandled;
    match e
    case Beating(b) => HeartbeatCurrent(env, s, b, k);
    case Checking(now) => CheckedCurrent(env, s, 0, now, k);
    case Offered(offers, accepted) =>
      OffersFrame(env, s, offers, accepted);
      SameCurrent(s, Apply(env, s, e), k);
    case Updated(u, a, n) =>
      LifeCycleNames(issued, s);
      UpdateMinor(s, u, a, n);
      KeepsWantsCurrent(s, UpdateHandled(s, u, a, n), k);
      SameCurrent(UpdateHandled(s, u, a, n), Apply(env, s, e), k);
    case ScaleRequest(o, count) => ScaledToCurrent(s, o, count, k);
    case StopRequest(ds) => StoppedCurrent(s, ds, k);
    case StartRequest => StartedAllCurrent(s, k);
    case Sweeping =>
      SweptMinor(s, 0);
      KeepsWantsCurrent(s, SweptFrom(s, 0), k);
    case CleaningNodes => SameCurrent(s, Cleaned(s), k);
    case NodeReported(_, _) => SameCurrent(s, Apply(env, s, e), k);
    case ClusterChanged(nodes, up) => SameCurrent(s, Apply(env, s, e), k);
    case Resubscribed => SameCurrent(s, Apply(env, s, e), k);
  }

  lemma SameCurrent(s: Sys, r: Sys, k: Kind)
    requires KindCurrent(s, k) && r.tasks == s.tasks && r.cfg == s.cfg
    ensures KindCurrent(r, k)
  {
  }

  /** Every step but a crash keeps each stored task's instance count equal to the wanted count of its kind. */
  lemma StepInstances(env: Settings, issued: set<string>, s: Sys, e: Event)
    requires InstancesCurrent(s) && LifeCycle(issued, s) && !e.Crashed?
    ensures InstancesCurrent(Apply(env, s, e))
  {
    forall k ensures KindCurrent(Apply(env, s, e), k) {
      StepCurrent(env, issued, s, e, k);
    }
  }

  /** For every kind with a stored task, the saved wanted count is the current one. */
  ghost predicate SavedAgrees(s: Sys) {
    forall k | Count(s.tasks, k) > 0 :: s.saved.max.Of(k) == s.cfg.max.Of(k)
  }

  /** A crash keeps it exactly when, for every kind with a stored task, the saved wanted count is the current one. */
  lemma CrashInstances(s: Sys)
    requires InstancesCurrent(s)
    ensures InstancesCurrent(Restarted(s)) <==> SavedAgrees(s)
  {
    if InstancesCurrent(Restarted(s)) {
      forall k | Count(s.tasks, k) > 0 ensures s.saved.max.Of(k) == s.cfg.max.Of(k) {
        var i := SomeOfKind(s.tasks, k);
        assert KindCurrent(s, k) && KindCurrent(Restarted(s), k);
      }
    }
    if SavedAgrees(s) {
      forall k ensures KindCurrent(Restarted(s), k) {
        assert KindCurrent(s, k);
        if Count(s.tasks, k) == 0 {
          NoneOfKind(s.tasks, k);
        }
      }
    }
  }

  lemma NoneOfKind(ts: seq<Command>, k: Kind)
    requires Count(ts, k) == 0
    ensures forall i | 0 <= i < |ts| :: ts[i].name != Some(k)
  {
    forall i | 0 <= i < |ts| ensures ts[i].name != Some(k) {
      CountRemove(ts, i, k);
    }
  }

  lemma {:induction false} SomeOfKind(ts: seq<Command>, k: Kind) returns (i: nat)
    requires Count(ts, k) > 0
    ensures i < |ts| && ts[i].name == Some(k)
  {
    if ts[|ts| - 1].name == Some(k) {
      i := |ts| - 1;
    } else {
      i := SomeOfKind(ts[..|ts| - 1], k);
    }
  }

  /** A crash right after a scale request undoes the wanted count but not the instance counts: the request saves the
      configuration before it changes it. */
  lemma ScaleThenCrash(s: Sys, k: Kind, count: int)
    requires InstancesCurrent(s)
    ensures InstancesCurrent(Restarted(ScaledTo(s, k, count)))
       <==> Count(s.tasks, k) == 0 || count == s.cfg.max.Of(k)
  {
    hide InstancesCurrent, Scaled, Count;
    var r := ScaledTo(s, k, count);
    forall o ensures KindCurrent(r, o) {
      assert KindCurrent(s, o) by { CurrentOf(s, o); }
      ScaledToCurrent(s, k, count, o);
    }
    assert InstancesCurrent(r) by { AllCurrent(r); }
    CrashInstances(r);
    ScaledKeepsConfig(s, k, count, s.cfg.max.Of(k));
    WithOf(s.cfg.max, k, count);
    forall o ensures Count(r.tasks, o) == Count(s.tasks, o) {
      ScaledCount(s, k, count, s.cfg.max.Of(k), o);
    }
    assert SavedAgrees(r) ==> Count(r.tasks, k) == 0 || count == s.cfg.max.Of(k);
  }

  lemma CurrentOf(s: Sys, k: Kind)
    requires InstancesCurrent(s)
    ensures KindCurrent(s, k)
  {
  }

  lemma AllCurrent(s: Sys)
    requires forall k :: KindCurrent(s, k)
    ensures InstancesCurrent(s)
  {
  }

  lemma ScaledCount(s: Sys, k: Kind, count: int, prior: int, o: Kind)
    ensures Count(Scaled(s, k, count, prior).tasks, o) == Count(s.tasks, o)
  {
    ScaledFromStore(SaveConfig(s), k, count, prior, 0);
    RescaledCount(s.tasks, Scaled(s, k, count, prior).tasks, k, count, 0, o);
  }

  // ---------- Counts ----------

  function Larger(x: int, y: int): int { if x < y then y else x }

  /** No kind has more tasks than before, or than wanted; the wanted counts are the same. */
  ghost predicate CountsBounded(s: Sys, r: Sys) {
    && r.cfg.max == s.cfg.max
    && forall k :: Count(r.tasks, k) <= Larger(Count(s.tasks, k), s.cfg.max.Of(k))
  }

  lemma BoundedTrans(a: Sys, b: Sys, c: Sys)
    requires CountsBounded(a, b) && CountsBounded(b, c)
    ensures CountsBounded(a, c)
  {
  }

  lemma MinorBounded(s: Sys, r: Sys)
    requires MinorStep(s, r) && r.cfg.max == s.cfg.max
    ensures CountsBounded(s, r)
  {
    hide Count, EvolvedFrom, DistinctIds, PortSource;
  }

  lemma CountPut(ts: seq<Command>, c: Command, at: nat, k: Kind)
    ensures Count(ts, k) <= Count(Put(ts, c, at), k) <= Count(ts, k) + (if c.name == Some(k) then 1 else 0)
    ensures (forall i | 0 <= i < |ts| :: ts[i].id != c.id) ==>
              Count(Put(ts, c, at), k) == Count(ts, k) + (if c.name == Some(k) then 1 else 0)
  {
    var p := IndexOfKey(ts, c.name, c.id);
    if p < |ts| {
      CountReplace(ts, p, c, k);
    } else {
      var q := if at < |ts| then at else |ts|;
      assert RemoveAt(Put(ts, c, at), q) == ts;
      CountRemove(Put(ts, c, at), q, k);
    }
  }

  lemma StartedBounded(env: Settings, s: Sys, k: Kind, id: string, at: nat)
    ensures CountsBounded(s, TaskStarted(env, s, k, id, at))
  {
    hide MinorStep, Scaled, Put, NewTask, Count;
    var n, max := Count(s.tasks, k), s.cfg.max.Of(k);
    if n < max {
      var c := NewTask(env, s.cfg, k, id);
      NewTaskName(env, s.cfg, k, id);
      forall o ensures Count(Put(s.tasks, c, at), o) <= Larger(Count(s.tasks, o), s.cfg.max.Of(o)) {
        CountPut(s.tasks, c, at, o);
      }
    } else if n > max && !k.Datastore? {
      ScaledMinor(s, k, max, n);
      ScaledKeepsConfig(s, k, max, n);
      MinorBounded(s, Scaled(s, k, max, n));
    }
  }

  lemma NewTaskName(env: Settings, cfg: Config, k: Kind, id: string)
    ensures NewTask(env, cfg, k, id).name == Some(k) && NewTask(env, cfg, k, id).id == id
  {
  }

  lemma ScaledKeepsConfig(s: Sys, k: Kind, count: int, prior: int)
    ensures Scaled(s, k, count, prior).cfg == s.cfg && Scaled(s, k, count, prior).saved == s.cfg
  {
    ScaledFromStore(SaveConfig(s), k, count, prior, 0);
  }

  lemma HeartbeatBounded(env: Settings, s: Sys, b: Beat)
    ensures CountsBounded(s, HeartbeatDone(env, s, b))
  {
    hide MinorStep, CountsBounded, Settled, Alarmed, HealthChecked, TaskStarted, NodesHealthy, DatastoreHealthy;
    SettledMinor(s);
    KeptMax(s, Settled(s));
    MinorBounded(s, Settled(s));
    if !NothingWanted(s) {
      var s1 := Examined(env, s, b.now);
      ExaminedMinor(env, s, b.now);
      KeptMax(s, s1);
      MinorBounded(s, s1);
      SettledMinor(s1);
      KeptMax(s1, Settled(s1));
      MinorBounded(s1, Settled(s1));
      BoundedTrans(s, s1, Settled(s1));
      var s2 := Alarmed(s1);
      AlarmedMinor(s1);
      KeptMax(s1, s2);
      MinorBounded(s1, s2);
      BoundedTrans(s, s1, s2);
      var ds, server := DatastoreHealthy(s.tasks), NodesHealthy(env, s, Server, b.now);
      var s3 := if !ds then TaskStarted(env, s2, Datastore, b.ids.datastore, b.at.datastore)
                else if !server then TaskStarted(env, s2, Server, b.ids.server, b.at.server) else s2;
      StartedBounded(env, s2, Datastore, b.ids.datastore, b.at.datastore);
      StartedBounded(env, s2, Server, b.ids.server, b.at.server);
      SelfBounded(s2);
      BoundedTrans(s, s2, s3);
      StartedBounded(env, s3, Agent, b.ids.agent, b.at.agent);
      BoundedTrans(s, s3, TaskStarted(env, s3, Agent, b.ids.agent, b.at.agent));
    }
  }

  lemma SelfBounded(s: Sys)
    ensures CountsBounded(s, s)
  {
  }

  lemma KeptMax(s: Sys, r: Sys)
    requires KeepsWants(s, r)
    ensures r.cfg.max == s.cfg.max
  {
  }

  lemma {:induction false} CheckedBounded(env: Settings, s: Sys, i: nat, now: int)
    requires i <= |s.tasks|
    ensures CountsBounded(s, CheckedFrom(env, s, i, now))
    decreases |s.tasks| - i
  {
    hide Wanted, CountsBounded, Promoted, HostPort, Count;
    if i == |s.tasks| {
      SelfBounded(s);
    } else {
      var t := s.tasks[i];
      if t.id == "" || t.name.None? {
        CheckedBounded(env, s, i + 1, now);
      } else if Wanted(s.tasks, t) {
        var s1 := Scheduled(env, s, i, now);
        ScheduledBounded(env, s, i, now);
        CheckedBounded(env, s1, i + 1, now);
        BoundedTrans(s, s1, CheckedFrom(env, s1, i + 1, now));
      } else if t.state.Fresh? && t.since.None? {
        var s1 := s.(tasks := RemoveAt(s.tasks, i));
        RemovedBounded(s, i);
        CheckedBounded(env, s1, i, now);
        BoundedTrans(s, s1, CheckedFrom(env, s1, i, now));
      } else {
        CheckedBounded(env, s, i + 1, now);
      }
    }
  }

  lemma RemovedBounded(s: Sys, i: nat)
    requires i < |s.tasks|
    ensures CountsBounded(s, s.(tasks := RemoveAt(s.tasks, i)))
  {
    forall k ensures Count(RemoveAt(s.tasks, i), k) <= Count(s.tasks, k) {
      CountRemove(s.tasks, i, k);
    }
  }

  lemma ScheduledBounded(env: Settings, s: Sys, i: nat, now: int)
    requires i < |s.tasks|
    ensures CountsBounded(s, Scheduled(env, s, i, now))
    ensures forall k :: Count(Scheduled(env, s, i, now).tasks, k) == Count(s.tasks, k)
  {
    var u := Promoted(env, s.tasks, s.tasks[i], now);
    forall k ensures Count(s.tasks[i := u], k) == Count(s.tasks, k) {
      CountReplace(s.tasks, i, u, k);
    }
  }

  // ---------- Bounded by what is asked for ----------

  ghost predicate AtMost(p: PerKind<int>, bound: PerKind<nat>) {
    forall k :: p.Of(k) <= bound.Of(k)
  }

  /** Counts, wanted counts and counts to restore, in memory and saved, are within a bound for each kind. */
  ghost predicate Within(bound: PerKind<nat>, s: Sys) {
    && AtMost(s.cfg.max, bound) && AtMost(s.cfg.restore, bound)
    && AtMost(s.saved.max, bound) && AtMost(s.saved.restore, bound)
    && forall k :: Count(s.tasks, k) <= bound.Of(k)
  }

  ghost predicate Asks(bound: PerKind<nat>, e: Event) {
    e.ScaleRequest? ==> e.count <= bound.Of(e.k)
  }

  /** What is saved is what was saved or what was current. */
  ghost predicate SavedFrom(s: Sys, r: Sys) {
    && r.cfg.restore == s.cfg.restore
    && ((r.saved.max == s.saved.max && r.saved.restore == s.saved.restore)
        || (r.saved.max == s.cfg.max && r.saved.restore == s.cfg.restore))
  }

  lemma BoundedWithin(bound: PerKind<nat>, s: Sys, r: Sys)
    requires Within(bound, s) && CountsBounded(s, r) && SavedFrom(s, r)
    ensures Within(bound, r)
  {
    forall k ensures Count(r.tasks, k) <= bound.Of(k) {
      assert Count(s.tasks, k) <= bound.Of(k) && s.cfg.max.Of(k) <= bound.Of(k);
    }
  }

  lemma HeartbeatSaved(env: Settings, s: Sys, b: Beat)
    ensures SavedFrom(s, HeartbeatDone(env, s, b))
  {
    hide HealthChecked, SweptFrom, NodesHealthy, DatastoreHealthy, TaskStarted;
    if !NothingWanted(s) {
      var s1 := Alarmed(Examined(env, s, b.now));
      var ds, server := DatastoreHealthy(s.tasks), NodesHealthy(env, s, Server, b.now);
      var s2 := if !ds then TaskStarted(env, s1, Datastore, b.ids.datastore, b.at.datastore)
                else if !server then TaskStarted(env, s1, Server, b.ids.server, b.at.server) else s1;
      StartedSaves(env, s1, Datastore, b.ids.datastore, b.at.datastore);
      StartedSaves(env, s1, Server, b.ids.server, b.at.server);
      StartedSaves(env, s2, Agent, b.ids.agent, b.at.agent);
    }
  }

  lemma StartedSaves(env: Settings, s: Sys, k: Kind, id: string, at: nat)
    ensures var r := TaskStarted(env, s, k, id, at);
            r.cfg == s.cfg && (r.saved == s.saved || r.saved == s.cfg) && r.exhausted == s.exhausted
  {
    hide Scaled, Put, NewTask, Count;
    var n, max := Count(s.tasks, k), s.cfg.max.Of(k);
    if n > max && !k.Datastore? {
      ScaledKeepsConfig(s, k, max, n);
      ScaledMinor(s, k, max, n);
    }
  }

  lemma ScaledToWithin(bound: PerKind<nat>, s: Sys, k: Kind, count: int)
    requires Within(bound, s) && count <= bound.Of(k)
    ensures Within(bound, ScaledTo(s, k, count))
    ensures ScaledTo(s, k, count).cfg.restore == s.cfg.restore
  {
    var prior := s.cfg.max.Of(k);
    ScaledMinor(s, k, count, prior);
    ScaledKeepsConfig(s, k, count, prior);
    WithOf(s.cfg.max, k, count);
    hide Scaled, Count, EvolvedFrom, DistinctIds, PortSource;
    var r := ScaledTo(s, k, count);
    forall o ensures Count(r.tasks, o) <= bound.Of(o) {
      assert Count(r.tasks, o) <= Count(s.tasks, o);
    }
    forall o ensures r.cfg.max.Of(o) <= bound.Of(o) {
    }
  }

  /** Every step keeps counts within a bound that no request exceeds. */
  lemma StepWithin(env: Settings, issued: set<string>, bound: PerKind<nat>, s: Sys, e: Event)
    requires Within(bound, s) && LifeCycle(issued, s) && Asks(bound, e)
    ensures Within(bound, Apply(env, s, e))
  {
    hide Within, HeartbeatDone, CheckedFrom, UpdateHandled, ScaledTo, Cleaned, MinorStep, OffersHandled, CountsBounded;
    match e
    case Beating(b) =>
      HeartbeatBounded(env, s, b);
      HeartbeatSaved(env, s, b);
      BoundedWithin(bound, s, Apply(env, s, e));
    case Checking(now) =>
      CheckedBounded(env, s, 0, now);
      CheckedFrame(env, s, 0, now);
      BoundedWithin(bound, s, Apply(env, s, e));
    case Offered(offers, accepted) =>
      OffersFrame(env, s, offers, accepted);
      SameWithin(bound, s, Apply(env, s, e));
    case Updated(u, a, n) =>
      LifeCycleNames(issued, s);
      UpdateMinor(s, u, a, n);
      KeptConfig(s, UpdateHandled(s, u, a, n));
      MinorBounded(s, UpdateHandled(s, u, a, n));
      UpdateSaved(bound, s, u, a, n);
    case ScaleRequest(k, count) => ScaledToWithin(bound, s, k, count);
    case StopRequest(ds) =>
      StoppedWithin(bound, s, ds);
    case StartRequest =>
      StartedWithin(bound, s);
    case Sweeping => SameWithin(bound, s, Apply(env, s, e));
    case CleaningNodes => SameWithin(bound, s, Apply(env, s, e));
    case NodeReported(_, _) => SameWithin(bound, s, Apply(env, s, e));
    case ClusterChanged(nodes, up) => SameWithin(bound, s, Apply(env, s, e));
    case Resubscribed => SavedWithin(bound, s, Apply(env, s, e));
    case Crashed => SavedWithin(bound, s, Apply(env, s, e));
  }

  lemma SameWithin(bound: PerKind<nat>, s: Sys, r: Sys)
    requires Within(bound, s) && r.tasks == s.tasks && r.cfg == s.cfg && r.saved == s.saved
    ensures Within(bound, r)
  {
  }

  lemma SavedWithin(bound: PerKind<nat>, s: Sys, r: Sys)
    requires Within(bound, s) && r.tasks == s.tasks
    requires (r.cfg == s.cfg && r.saved == s.cfg) || (r.cfg == s.saved && r.saved == s.saved)
    ensures Within(bound, r)
  {
  }

  lemma KeptConfig(s: Sys, r: Sys)
    requires KeepsWants(s, r)
    ensures r.cfg.max == s.cfg.max && r.cfg.restore == s.cfg.restore
  {
  }

  lemma UpdateSaved(bound: PerKind<nat>, s: Sys, u: Update, mesosAgent: string, networks: nat)
    requires Within(bound, s)
    requires var r := UpdateHandled(s, u, mesosAgent, networks);
             CountsBounded(s, r) && r.cfg.restore == s.cfg.restore
    ensures Within(bound, SaveConfig(UpdateHandled(s, u, mesosAgent, networks)))
  {
    hide UpdateHandled, Count;
    BoundedWithin(bound, s, SaveConfig(UpdateHandled(s, u, mesosAgent, networks)));
  }

  /** What CheckState may change. */
  lemma {:induction false} CheckedFrame(env: Settings, s: Sys, i: nat, now: int)
    requires i <= |s.tasks|
    ensures var r := CheckedFrom(env, s, i, now);
            r == s.(tasks := r.tasks, queue := r.queue, sent := r.sent, log := r.log, exhausted := r.exhausted)
    decreases |s.tasks| - i
  {
    hide Wanted, Promoted, HostPort;
    if i == |s.tasks| {
    } else {
      var t := s.tasks[i];
      if t.id == "" || t.name.None? {
        CheckedFrame(env, s, i + 1, now);
      } else if Wanted(s.tasks, t) {
        CheckedFrame(env, Scheduled(env, s, i, now), i + 1, now);
      } else if t.state.Fresh? && t.since.None? {
        CheckedFrame(env, s.(tasks := RemoveAt(s.tasks, i)), i, now);
      } else {
        CheckedFrame(env, s, i + 1, now);
      }
    }
  }

  lemma StoppedWithin(bound: PerKind<nat>, s: Sys, ds: bool)
    requires Within(bound, s)
    ensures Within(bound, Stopped(s, ds))
  {
    hide ScaledTo, Count;
    var s1 := SaveConfig(s.(cfg := Remembered(s.cfg)));
    assert Within(bound, s1);
    var s2 := ScaledTo(s1, Agent, 0);
    ScaledToWithin(bound, s1, Agent, 0);
    var s3 := ScaledTo(s2, Server, 0);
    ScaledToWithin(bound, s2, Server, 0);
    ScaledToWithin(bound, s3, Datastore, 0);
    SavedWithin(bound, s3, SaveConfig(s3));
    SavedWithin(bound, ScaledTo(s3, Datastore, 0), SaveConfig(ScaledTo(s3, Datastore, 0)));
  }

  lemma StartedWithin(bound: PerKind<nat>, s: Sys)
    requires Within(bound, s)
    ensures Within(bound, Started(s))
  {
    hide ScaledTo, Count;
    var s1 := ScaledTo(s, Datastore, s.cfg.restore.datastore);
    assert s.cfg.restore.Of(Datastore) <= bound.Of(Datastore);
    ScaledToWithin(bound, s, Datastore, s.cfg.restore.datastore);
    var s2 := ScaledTo(s1, Server, s1.cfg.restore.server);
    assert s1.cfg.restore.Of(Server) <= bound.Of(Server);
    ScaledToWithin(bound, s1, Server, s1.cfg.restore.server);
    assert s2.cfg.restore.Of(Agent) <= bound.Of(Agent);
    ScaledToWithin(bound, s2, Agent, s2.cfg.restore.agent);
  }
}
