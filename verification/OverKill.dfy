/** What single steps do to the tasks of a kind while there are enough of them, and whom Scale itself kills. */
module OverKill {
  import opened Types
  import opened Store
  import opened Nodes
  import opened Scaling
  import opened Scheduling
  import opened Updates
  import opened Machine
  import opened Safety
  import opened Counts
  import opened Calls
  import opened KindLists
  import Checks
  import Health
  import Offers
  import Minor
  import Orphans
  import Runs

  /** The tasks named in the kills of a list of calls. */
  function KillTasks(calls: seq<Call>): set<string> { set c | c in calls && c.Kill? :: c.task }

  /** The tasks Scale itself has killed. */
  function ScaleKilled(log: seq<Call>): set<string> { KillTasks(CallsBy(log, ScaleStep)) }

  lemma KillTasksSplit(a: seq<Call>, b: seq<Call>)
    ensures KillTasks(a + b) == KillTasks(a) + KillTasks(b)
  {
  }

  /** One Scale kills exactly the tasks at the front of the iteration order that are too many. */
  lemma ScaleKillsFront(s: Sys, k: Kind, count: int, prior: int)
    ensures var ids, r := KindIds(s.tasks, k), Scaled(s, k, count, prior);
            && ScaleKilled(r.log) == ScaleKilled(s.log) + KillTasks(ScaleCalls(OfKind(s.tasks, k), count, prior))
            && (forall id :: id in KillTasks(ScaleCalls(OfKind(s.tasks, k), count, prior))
                             <==> id in ids[..Min(|ids|, Positive(prior - count))])
            && KindIds(r.tasks, k) == ids
  {
    ScaleArithmetic(s, k, count, prior);
    hide Scaled, CallsBy;
    var ts, ids := OfKind(s.tasks, k), KindIds(s.tasks, k);
    var calls := ScaleCalls(ts, count, prior);
    KillTasksSplit(CallsBy(s.log, ScaleStep), calls);
    ScaleCallsClosed(ts, count, prior);
    KindIdsOfKind(s.tasks, k);
    hide ScaleCalls, OfKind, KindIds;
    var front := ids[..Min(|ids|, Positive(prior - count))];
    forall id ensures id in KillTasks(calls) <==> id in front {
      if id in front {
        var j :| 0 <= j < |front| && front[j] == id;
        assert calls[j] == Kill(ScaleStep, id, ts[j].agent);
      }
      if id in KillTasks(calls) {
        var j :| 0 <= j < |calls| && calls[j].Kill? && calls[j].task == id;
        assert front[j] == id;
      }
    }
    KindIdsSame(s.tasks, Scaled(s, k, count, prior).tasks, k);
  }

  /** Of the stored tasks of a kind Scale kills some at the front of the iteration order, and the same ones stay stored.
      Whatever else it kills is stored too. */
  ghost predicate KillsFront(s: Sys, r: Sys, k: Kind, front: nat) {
    var ids := KindIds(s.tasks, k);
    && front <= |ids| && KindIds(r.tasks, k) == ids
    && ScaleKilled(s.log) <= ScaleKilled(r.log)
    && (forall id | id in ids :: id in ScaleKilled(r.log) <==> id in ScaleKilled(s.log) || id in ids[..front])
    && forall id | id in ScaleKilled(r.log) && id !in ScaleKilled(s.log) :: HasId(s.tasks, id)
  }

  lemma KillsNone(s: Sys, r: Sys, k: Kind)
    requires KindIds(r.tasks, k) == KindIds(s.tasks, k) && ScaleKilled(r.log) == ScaleKilled(s.log)
    ensures KillsFront(s, r, k, 0)
  {
  }

  /** Two such steps, one after the other. */
  lemma FrontTrans(a: Sys, b: Sys, c: Sys, k: Kind, f: nat, g: nat)
    requires KillsFront(a, b, k, f) && KillsFront(b, c, k, g)
    requires forall id | id in ScaleKilled(c.log) && id !in ScaleKilled(b.log) :: HasId(a.tasks, id)
    ensures KillsFront(a, c, k, if f < g then g else f)
  {
    hide ScaleKilled, KindIds, HasId;
    var ids := KindIds(a.tasks, k);
    assert f < g ==> ids[..g] == ids[..f] + ids[f..g];
    assert f >= g ==> ids[..f] == ids[..g] + ids[g..f];
  }

  /** Scaling one kind, seen from any kind. */
  lemma ScaledFront(s: Sys, o: Kind, count: int, prior: int, k: Kind)
    requires DistinctIds(s.tasks)
    ensures var ids, r := KindIds(s.tasks, k), Scaled(s, o, count, prior);
            && KillsFront(s, r, k, if o == k then Min(|ids|, Positive(prior - count)) else 0)
            && forall id | id in ScaleKilled(r.log) && id !in ScaleKilled(s.log) :: id in KindIds(s.tasks, o)
  {
    hide CallsBy, ScaledFrom, KindIds, ScaleKilled, ScaleCalls, KillTasks, OfKind, DistinctIds, HasId;
    var r := Scaled(s, o, count, prior);
    ScaleKillsFront(s, o, count, prior);
    ScaledFromStore(SaveConfig(s), o, count, prior, 0);
    KindIdsSame(s.tasks, r.tasks, k);
    forall id | id in ScaleKilled(r.log) && id !in ScaleKilled(s.log)
      ensures id in KindIds(s.tasks, o) && HasId(s.tasks, id) && (o != k ==> id !in KindIds(s.tasks, k))
    {
      assert id in KindIds(s.tasks, o);
      KindIdsStored(s.tasks, o, id);
      if o != k {
        KindIdsApart(s.tasks, o, k, id);
      }
    }
  }

  lemma KindIdsStored(ts: seq<Command>, k: Kind, id: string)
    requires id in KindIds(ts, k)
    ensures HasId(ts, id)
  {
    KindIdsIn(ts, k, id);
  }

  /** An ID belongs to one kind. */
  lemma KindIdsApart(ts: seq<Command>, k: Kind, o: Kind, id: string)
    requires DistinctIds(ts) && k != o && id in KindIds(ts, k)
    ensures id !in KindIds(ts, o)
  {
    KindIdsIn(ts, k, id);
    KindIdsIn(ts, o, id);
  }

  // ---------- Requests ----------

  /** A request seen from any kind. */
  lemma ScaledToFront(s: Sys, o: Kind, count: int, k: Kind)
    requires DistinctIds(s.tasks)
    ensures var ids, r := KindIds(s.tasks, k), ScaledTo(s, o, count);
            && KillsFront(s, r, k, if o == k then Min(|ids|, Positive(s.cfg.max.Of(k) - count)) else 0)
            && DistinctIds(r.tasks) && (forall id :: HasId(r.tasks, id) <==> HasId(s.tasks, id))
            && r.cfg == s.cfg.(max := With(s.cfg.max, o, count))
  {
    var prior := s.cfg.max.Of(o);
    ScaledFront(s, o, count, prior, k);
    ScaledFromStore(SaveConfig(s), o, count, prior, 0);
    hide ScaledFrom, KindIds, ScaleKilled;
    RescaledIds(s.tasks, ScaledTo(s, o, count).tasks, o, count);
  }

  lemma RescaledIds(ts: seq<Command>, us: seq<Command>, k: Kind, count: int)
    requires Rescaled(ts, us, k, count, 0)
    ensures DistinctIds(ts) ==> DistinctIds(us)
    ensures forall id :: HasId(us, id) <==> HasId(ts, id)
  {
    forall id | HasId(ts, id) ensures HasId(us, id) {
      var i :| 0 <= i < |ts| && ts[i].id == id;
      assert us[i].id == id;
    }
  }

  lemma FrontIds(s: Sys, r: Sys, k: Kind, front: nat)
    requires KillsFront(s, r, k, front)
    ensures KindIds(r.tasks, k) == KindIds(s.tasks, k)
  {
  }

  lemma FrontSame(a: Sys, b: Sys, c: Sys, d: Sys, k: Kind, f: nat)
    requires KillsFront(b, c, k, f) && a.tasks == b.tasks && a.log == b.log
    requires d.tasks == c.tasks && ScaleKilled(d.log) == ScaleKilled(c.log)
    ensures KillsFront(a, d, k, f)
  {
  }

  lemma FrontThen(a: Sys, b: Sys, c: Sys, k: Kind, f: nat, g: nat)
    requires KillsFront(a, b, k, f) && KillsFront(b, c, k, g)
    requires forall id :: HasId(b.tasks, id) <==> HasId(a.tasks, id)
    ensures KindIds(c.tasks, k) == KindIds(a.tasks, k)
    ensures KillsFront(a, c, k, if f < g then g else f)
  {
    hide KindIds, ScaleKilled, HasId;
    FrontTrans(a, b, c, k, f, g);
  }

  lemma SuppressKills(s: Sys)
    ensures ScaleKilled(s.log + [Suppress(ClusterStop)]) == ScaleKilled(s.log)
  {
    CallsByEmit(s.log, Suppress(ClusterStop), ScaleStep);
  }

  // ---------- One heartbeat ----------

  /** A heartbeat that finds too many tasks of the kind runs Scale again for it: something is wanted, and the kind's
      turn has come in the start order.  The datastore is never scaled by a heartbeat. */
  ghost predicate Reruns(env: Settings, s: Sys, k: Kind, e: Event) {
    e.Beating? && !NothingWanted(s) &&
      match k
      case Datastore => false
      case Server => DatastoreHealthy(s.tasks)
      case Agent => NodesHealthy(env, s, Server, e.b.now)
  }

  /** The health checks of a heartbeat give up none of the kind. */
  ghost predicate LeavesAlone(env: Settings, s: Sys, k: Kind, now: int) {
    KindIds(Examined(env, s, now).tasks, k) == KindIds(s.tasks, k)
  }

  /** Starting another kind. */
  lemma OtherStarted(env: Settings, s: Sys, o: Kind, id: string, at: nat, k: Kind)
    requires k != o && DistinctIds(s.tasks)
    ensures var r := TaskStarted(env, s, o, id, at);
            && KillsFront(s, r, k, 0)
            && forall x | x in ScaleKilled(r.log) && x !in ScaleKilled(s.log) :: x in KindIds(s.tasks, o)
  {
    hide Put, NewTask, Count, Scaled, KindIds, ScaleKilled, DistinctIds, HasId;
    NewTaskName(env, s.cfg, o, id);
    KindIdsPutOther(s.tasks, NewTask(env, s.cfg, o, id), at, k);
    ScaledFront(s, o, s.cfg.max.Of(o), Count(s.tasks, o), k);
  }

  /** Starting a kind of which there are enough scales it down, but for the datastore. */
  lemma EnoughStarted(env: Settings, s: Sys, k: Kind, id: string, at: nat)
    requires DistinctIds(s.tasks) && 0 <= s.cfg.max.Of(k) <= |KindIds(s.tasks, k)|
    ensures var ids, r := KindIds(s.tasks, k), TaskStarted(env, s, k, id, at);
            && KillsFront(s, r, k, if k.Datastore? then 0 else |ids| - s.cfg.max.Of(k))
            && (k.Datastore? ==> r == s)
  {
    KindIdsOfKind(s.tasks, k);
    hide Put, NewTask, Scaled, KindIds, ScaleKilled, DistinctIds, HasId;
    ScaledFront(s, k, s.cfg.max.Of(k), Count(s.tasks, k), k);
  }

  /** A health check of another kind. */
  lemma OtherChecked(env: Settings, s: Sys, o: Kind, now: int, k: Kind)
    requires k != o
    ensures KindIds(HealthChecked(env, s, o, now).tasks, k) == KindIds(s.tasks, k)
  {
    Health.HealthCheckCleansOne(env, s, o, now);
    hide HealthChecked, NodesHealthy, Elapsed, Health.Sane, KindIds;
    if HealthChecked(env, s, o, now) != s {
      var p: nat :| Health.FirstOverdue(env, s, o, now, p);
      KindIdsRemove(s.tasks, p, k);
    }
  }

  /** A health check keeps one task for an ID. */
  lemma CheckedDistinct(env: Settings, s: Sys, o: Kind, now: int)
    requires DistinctIds(s.tasks)
    ensures DistinctIds(HealthChecked(env, s, o, now).tasks)
  {
    Health.HealthCheckCleansOne(env, s, o, now);
    hide HealthChecked, NodesHealthy, Elapsed, Health.Sane, DistinctIds;
    if HealthChecked(env, s, o, now) != s {
      var p: nat :| Health.FirstOverdue(env, s, o, now, p);
      RemoveKeepsIds(s.tasks, p);
    }
  }

  lemma RemoveKeepsIds(ts: seq<Command>, p: nat)
    requires DistinctIds(ts) && p < |ts|
    ensures DistinctIds(RemoveAt(ts, p))
  {
  }

  /** The health checks give up none of a kind of which there are too many. */
  lemma TooManyLeftAlone(env: Settings, s: Sys, k: Kind, now: int)
    requires Count(s.tasks, k) > s.cfg.max.Of(k)
    ensures LeavesAlone(env, s, k, now)
  {
    var s1 := HealthChecked(env, s, Server, now);
    assert k == Server ==> s1 == s;
    if k != Server {
      OtherChecked(env, s, Server, now, k);
    }
    KindIdsOfKind(s.tasks, k);
    KindIdsOfKind(s1.tasks, k);
    CheckedKeepsConfig(env, s, Server, now);
    assert k == Agent ==> HealthChecked(env, s1, Agent, now).tasks == s1.tasks;
    hide HealthChecked, KindIds, Count;
    if k != Agent {
      OtherChecked(env, s1, Agent, now, k);
    }
  }

  lemma CheckedKeepsConfig(env: Settings, s: Sys, o: Kind, now: int)
    ensures HealthChecked(env, s, o, now).cfg == s.cfg
  {
    hide HealthChecked;
  }

  /** The health checks of a heartbeat, as far as Scale is concerned. */
  lemma ExaminedFront(env: Settings, s: Sys, now: int, k: Kind)
    requires DistinctIds(s.tasks) && LeavesAlone(env, s, k, now)
    ensures var r := Examined(env, s, now);
            && KillsFront(s, r, k, 0) && DistinctIds(r.tasks) && r.cfg == s.cfg
            && (forall id :: HasId(r.tasks, id) ==> HasId(s.tasks, id))
            && ScaleKilled(r.log) == ScaleKilled(s.log)
  {
    hide HasId, KindIds, CallsBy;
    ExaminedStores(env, s, now);
    ExaminedAdds(env, s, now);
    AddsOnly(s.log, Examined(env, s, now).log, {HealthCheck});
    CheckedKeepsConfig(env, s, Server, now);
    CheckedKeepsConfig(env, HealthChecked(env, s, Server, now), Agent, now);
    CheckedDistinct(env, s, Server, now);
    CheckedDistinct(env, HealthChecked(env, s, Server, now), Agent, now);
    hide HealthChecked, ScaleKilled, DistinctIds;
    KillsNone(s, Examined(env, s, now), k);
  }

  lemma ExaminedStores(env: Settings, s: Sys, now: int)
    ensures forall id :: HasId(Examined(env, s, now).tasks, id) ==> HasId(s.tasks, id)
  {
    hide HasId, Minor.MinorStep, Examined;
    Minor.ExaminedMinor(env, s, now);
    forall id | !HasId(s.tasks, id) ensures !HasId(Examined(env, s, now).tasks, id) {
      Runs.MinorGone(s, Examined(env, s, now), id);
    }
  }

  /** A healthy kind has the wanted count, and no health check of the heartbeat changes that. */
  lemma HealthyCount(env: Settings, s: Sys, now: int)
    ensures var r := Examined(env, s, now);
            && (NodesHealthy(env, s, Server, now) ==>
                  |KindIds(s.tasks, Server)| == |KindIds(r.tasks, Server)| == s.cfg.max.server)
            && (AgentsHealthy(env, s, now) ==>
                  |KindIds(s.tasks, Agent)| == |KindIds(r.tasks, Agent)| == s.cfg.max.agent)
  {
    var s1 := HealthChecked(env, s, Server, now);
    Health.HealthCheckCleansOne(env, s, Server, now);
    Health.HealthCheckCleansOne(env, s1, Agent, now);
    KindIdsOfKind(s.tasks, Server);
    KindIdsOfKind(s1.tasks, Agent);
    CheckedKeepsConfig(env, s, Server, now);
    OtherChecked(env, s, Server, now, Agent);
    OtherChecked(env, s1, Agent, now, Server);
    assert NodesHealthy(env, s, Server, now) ==> Count(s.tasks, Server) == s.cfg.max.server;
    assert NodesHealthy(env, s1, Agent, now) ==> Count(s1.tasks, Agent) == s1.cfg.max.agent;
    hide HealthChecked, KindIds, NodesHealthy, Health.Sane, Elapsed, Count;
  }

  lemma AlarmedKilled(s: Sys)
    ensures Alarmed(s).tasks == s.tasks && Alarmed(s).cfg == s.cfg && ScaleKilled(Alarmed(s).log) == ScaleKilled(s.log)
  {
    CallsByEmit(s.log, Revive(HeartbeatStep), ScaleStep);
  }

  lemma SettledKilled(s: Sys)
    ensures Settled(s).tasks == s.tasks && Settled(s).cfg == s.cfg && ScaleKilled(Settled(s).log) == ScaleKilled(s.log)
  {
    hide SweptFrom;
    var s1 := Emit(s, Suppress(HeartbeatStep));
    CallsByEmit(s.log, Suppress(HeartbeatStep), ScaleStep);
    SweptAdds(s1, 0);
    AddsOnly(s1.log, SweptFrom(s1, 0).log, {AgentSweep});
  }

  /** Starting a datastore makes no call, and leaves the other kinds alone. */
  lemma DatastoreStarted(env: Settings, s: Sys, id: string, at: nat, k: Kind)
    requires k != Datastore
    ensures var r := TaskStarted(env, s, Datastore, id, at);
            r.log == s.log && r.cfg == s.cfg && KindIds(r.tasks, k) == KindIds(s.tasks, k)
  {
    hide Put, NewTask, Count, KindIds;
    NewTaskName(env, s.cfg, Datastore, id);
    KindIdsPutOther(s.tasks, NewTask(env, s.cfg, Datastore, id), at, k);
  }

  /** What a heartbeat starts, as far as Scale is concerned, for a kind of which there are enough. */
  lemma LaunchedFront(env: Settings, s: Sys, ds: bool, server: bool, agents: bool, b: Beat, k: Kind)
    requires DistinctIds(s.tasks) && 0 <= s.cfg.max.Of(k) <= |KindIds(s.tasks, k)|
    requires !HasId(s.tasks, b.ids.datastore)
    requires server ==> |KindIds(s.tasks, Server)| == s.cfg.max.server
    requires agents ==> |KindIds(s.tasks, Agent)| == s.cfg.max.agent
    ensures var reruns := match k
              case Datastore => false
              case Server => ds
              case Agent => server;
            KillsFront(s, Launched(env, s, ds, server, agents, b), k,
              if reruns then |KindIds(s.tasks, k)| - s.cfg.max.Of(k) else 0)
  {
    hide TaskStarted, KindIds, ScaleKilled, HasId, DistinctIds;
    var s1 := if !ds then TaskStarted(env, s, Datastore, b.ids.datastore, b.at.datastore) else s;
    KillsNone(s, s, k);
    if k.Datastore? {
      EnoughStarted(env, s, Datastore, b.ids.datastore, b.at.datastore);
    } else {
      DatastoreStarted(env, s, b.ids.datastore, b.at.datastore, k);
      DatastoreStarted(env, s, b.ids.datastore, b.at.datastore, Agent);
      KillsNone(s, s1, k);
    }
    assert DistinctIds(s1.tasks) by { StartedDistinct(env, s, b.ids.datastore, b.at.datastore); }
    if server {
      if !agents {
        AgentsStarted(env, s, s1, b, k);
      }
    } else if ds {
      if k.Server? {
        EnoughStarted(env, s, Server, b.ids.server, b.at.server);
      } else {
        OtherStarted(env, s, Server, b.ids.server, b.at.server, k);
      }
    }
  }

  /** A new ID for the datastore keeps one task for an ID. */
  lemma StartedDistinct(env: Settings, s: Sys, id: string, at: nat)
    requires DistinctIds(s.tasks) && !HasId(s.tasks, id)
    ensures DistinctIds(TaskStarted(env, s, Datastore, id, at).tasks)
  {
    var c := NewTask(env, s.cfg, Datastore, id);
    NewTaskName(env, s.cfg, Datastore, id);
    hide NewTask, Count;
    var p := IndexOfKey(s.tasks, c.name, c.id);
    assert p == |s.tasks|;
  }

  /** Starting agents after the datastore. */
  lemma AgentsStarted(env: Settings, s: Sys, s1: Sys, b: Beat, k: Kind)
    requires KillsFront(s, s1, k, 0) && s1.log == s.log && s1.cfg == s.cfg && DistinctIds(s1.tasks)
    requires KindIds(s1.tasks, Agent) == KindIds(s.tasks, Agent) && 0 <= s.cfg.max.Of(k) <= |KindIds(s.tasks, k)|
    ensures KillsFront(s, TaskStarted(env, s1, Agent, b.ids.agent, b.at.agent), k,
              if k.Agent? then |KindIds(s.tasks, k)| - s.cfg.max.agent else 0)
  {
    hide TaskStarted, KindIds, ScaleKilled, HasId, DistinctIds;
    var r := TaskStarted(env, s1, Agent, b.ids.agent, b.at.agent);
    if k.Agent? {
      EnoughStarted(env, s1, Agent, b.ids.agent, b.at.agent);
    } else {
      OtherStarted(env, s1, Agent, b.ids.agent, b.at.agent, k);
    }
    forall id | id in ScaleKilled(r.log) && id !in ScaleKilled(s1.log) ensures HasId(s.tasks, id) {
      StartedKills(env, s1, b, id);
      KindIdsStored(s.tasks, Agent, id);
    }
    FrontTrans(s, s1, r, k, 0, if k.Agent? then |KindIds(s.tasks, k)| - s.cfg.max.agent else 0);
  }

  lemma StartedKills(env: Settings, s: Sys, b: Beat, id: string)
    requires DistinctIds(s.tasks)
    requires id in ScaleKilled(TaskStarted(env, s, Agent, b.ids.agent, b.at.agent).log) && id !in ScaleKilled(s.log)
    ensures id in KindIds(s.tasks, Agent)
  {
    hide Put, NewTask, Count, Scaled, KindIds, ScaleKilled, DistinctIds, HasId;
    ScaledFront(s, Agent, s.cfg.max.agent, Count(s.tasks, Agent), Agent);
  }

  /** A heartbeat with enough tasks of a kind, none of which its health checks give up, stores the same ones
      afterwards; Scale itself kills exactly those at the front of the iteration order that are too many if it is run
      again, and none of the kind otherwise. */
  lemma HeartbeatKills(env: Settings, s: Sys, b: Beat, k: Kind)
    requires DistinctIds(s.tasks) && !HasId(s.tasks, b.ids.datastore)
    requires 0 <= s.cfg.max.Of(k) <= Count(s.tasks, k) && LeavesAlone(env, s, k, b.now)
    ensures |KindIds(s.tasks, k)| == Count(s.tasks, k)
    ensures KillsFront(s, HeartbeatDone(env, s, b), k,
              if Reruns(env, s, k, Beating(b)) then Count(s.tasks, k) - s.cfg.max.Of(k) else 0)
  {
    KindIdsOfKind(s.tasks, k);
    hide NodesHealthy, DatastoreHealthy, Settled, Alarmed, Count, DistinctIds, KindIds, ScaleKilled, HasId, Examined,
      KillsFront, Launched, AgentsHealthy;
    var s1, r := Examined(env, s, b.now), HeartbeatDone(env, s, b);
    var ds, server := DatastoreHealthy(s.tasks), NodesHealthy(env, s, Server, b.now);
    var agents := AgentsHealthy(env, s, b.now);
    SettledKilled(s);
    if NothingWanted(s) {
      KillsNone(s, r, k);
    } else {
      ExaminedFront(env, s, b.now, k);
      HealthyCount(env, s, b.now);
      if ds && server && agents {
        SettledKilled(s1);
        FrontKeeps(s, s1, r, k, 0);
      } else {
        var s2 := Alarmed(s1);
        AlarmedKilled(s1);
        LaunchedFront(env, s2, ds, server, agents, b, k);
        FrontAfter(s, s2, r, k, if Reruns(env, s, k, Beating(b)) then Count(s.tasks, k) - s.cfg.max.Of(k) else 0);
      }
    }
  }

  lemma FrontKeeps(a: Sys, b: Sys, c: Sys, k: Kind, f: nat)
    requires KillsFront(a, b, k, f) && c.tasks == b.tasks && ScaleKilled(c.log) == ScaleKilled(b.log)
    ensures KillsFront(a, c, k, f)
  {
  }

  lemma FrontAfter(a: Sys, b: Sys, c: Sys, k: Kind, f: nat)
    requires KindIds(b.tasks, k) == KindIds(a.tasks, k) && ScaleKilled(b.log) == ScaleKilled(a.log)
    requires KillsFront(b, c, k, f) && forall id :: HasId(b.tasks, id) ==> HasId(a.tasks, id)
    ensures KillsFront(a, c, k, f)
  {
    hide KindIds, ScaleKilled, HasId;
  }

  /** After Scale was run again for a kind of which there were too many, each of them carries the wanted count. */
  lemma HeartbeatMakesCurrent(env: Settings, s: Sys, b: Beat, k: Kind)
    requires DistinctIds(s.tasks) && Count(s.tasks, k) > s.cfg.max.Of(k) && Reruns(env, s, k, Beating(b))
    ensures KindCurrent(HeartbeatDone(env, s, b), k)
  {
    hide NodesHealthy, DatastoreHealthy, Settled, Alarmed, TaskStarted, Count, DistinctIds, KindIds, ScaleKilled,
      KindCurrent, Examined, HasId;
    var s1 := Examined(env, s, b.now);
    TooManyLeftAlone(env, s, k, b.now);
    ExaminedFront(env, s, b.now, k);
    HealthyCount(env, s, b.now);
    KindIdsOfKind(s.tasks, k);
    KindIdsOfKind(s1.tasks, k);
    hide AgentsHealthy;
    var s2 := Alarmed(s1);
    AlarmedKilled(s1);
    if k.Server? {
      StartedMakesCurrent(env, s2, Server, b.ids.server, b.at.server);
    } else {
      DatastoreStarted(env, s2, b.ids.datastore, b.at.datastore, Agent);
      var s3 := if DatastoreHealthy(s.tasks) then s2
                else TaskStarted(env, s2, Datastore, b.ids.datastore, b.at.datastore);
      KindIdsOfKind(s3.tasks, k);
      StartedMakesCurrent(env, s3, Agent, b.ids.agent, b.at.agent);
    }
  }

  lemma StartedMakesCurrent(env: Settings, s: Sys, k: Kind, id: string, at: nat)
    requires Count(s.tasks, k) > s.cfg.max.Of(k) && !k.Datastore?
    ensures KindCurrent(TaskStarted(env, s, k, id, at), k)
  {
    ScaledCurrent(s, k, Count(s.tasks, k), k);
    hide Scaled, Put, NewTask, KindCurrent;
  }

  // ---------- Other steps ----------

  /** The tasks reported as gone. */
  function GoneBy(e: Event): set<string> {
    if e.Updated? && Terminal(e.u.status) then {e.u.task} else {}
  }

  /** The tasks of a kind that CheckState drops. */
  function DroppedBy(s: Sys, k: Kind, e: Event): set<string> {
    if e.Checking? then Checks.DroppedIds(s.tasks, k, Count(s.tasks, k)) else {}
  }

  lemma StateSetKeys(ts: seq<Command>, us: seq<Command>, p: nat, status: TaskStatus)
    requires Orphans.StateSet(ts, us, p, status)
    ensures |us| == |ts| && forall i | 0 <= i < |ts| :: us[i].name == ts[i].name && us[i].id == ts[i].id
  {
  }

  lemma UpdatedKind(issued: set<string>, s: Sys, u: Update, mesosAgent: string, networks: nat, k: Kind)
    requires LifeCycle(issued, s)
    ensures KindIds(UpdateHandled(s, u, mesosAgent, networks).tasks, k)
         == Left(KindIds(s.tasks, k), GoneBy(Updated(u, mesosAgent, networks)))
  {
    LifeCycleNames(issued, s);
    hide UpdateHandled, LifeCycle, KindIds, Left, Terminal, RemoveAt, Orphans.StateSet, AckFor;
    var ids, r := KindIds(s.tasks, k), UpdateHandled(s, u, mesosAgent, networks);
    if HasId(s.tasks, u.task) {
      var p: nat :| p < |s.tasks| && s.tasks[p].id == u.task;
      Orphans.KnownUpdate(s, u, mesosAgent, networks, p);
      if Terminal(u.status) {
        KindIdsRemoved(s.tasks, p, k);
      } else {
        StateSetKeys(s.tasks, r.tasks, p, u.status);
        KindIdsSame(s.tasks, r.tasks, k);
        LeftAll(ids, {});
      }
    } else {
      Orphans.UnknownUpdate(s, u, mesosAgent, networks);
      KindIdsIn(s.tasks, k, u.task);
      LeftAll(ids, GoneBy(Updated(u, mesosAgent, networks)));
    }
  }

  /** CheckState removes exactly the tasks of a kind that it drops. */
  lemma CheckedKept(env: Settings, issued: set<string>, s: Sys, now: int, k: Kind)
    requires LifeCycle(issued, s)
    ensures KindIds(CheckedFrom(env, s, 0, now).tasks, k)
         == Left(KindIds(s.tasks, k), DroppedBy(s, k, Checking(now)))
    ensures KindIds(CheckedFrom(env, s, 0, now).tasks, k) == Checks.Kept(s.tasks, k, Count(s.tasks, k))
  {
    Checks.LifeCycleTidy(issued, s);
    LifeCycleNames(issued, s);
    hide LifeCycle, CheckedFrom, KindIds, Left, Count, Checks.Kept, Checks.DroppedIds, DistinctIds;
    Checks.CheckedKind(env, s, 0, now, k);
    assert s.tasks[0..] == s.tasks && s.tasks[..0] == [];
    Checks.NoKindIds(k);
    Checks.KeptLeft(s.tasks, k, Count(s.tasks, k));
  }

  /** A step that is no heartbeat, no crash and no request: it takes from a kind the tasks reported gone and
      those dropped, and Scale kills none. */
  lemma QuietStep(env: Settings, issued: set<string>, s: Sys, e: Event, k: Kind)
    requires LifeCycle(issued, s) && Runs.AsksNothing(e) && !e.Beating?
    ensures var r := Apply(env, s, e);
            && KindIds(r.tasks, k) == Left(KindIds(s.tasks, k), GoneBy(e) + DroppedBy(s, k, e))
            && ScaleKilled(r.log) == ScaleKilled(s.log)
            && r.cfg.max == s.cfg.max
  {
    hide CheckedFrom, UpdateHandled, SweptFrom, Cleaned, Offers.OffersHandled, CallsBy, KindIds, Left, Count, LifeCycle,
      Adds, Checks.DroppedIds, Checks.Kept;
    LeftAll(KindIds(s.tasks, k), {});
    assert GoneBy(e) + DroppedBy(s, k, e) == if e.Checking? then DroppedBy(s, k, e) else GoneBy(e);
    var r := Apply(env, s, e);
    match e
    case Checking(now) =>
      CheckedKept(env, issued, s, now, k);
      CheckedFrame(env, s, 0, now);
      CheckedAdds(env, s, 0, now);
      AddsOnly(s.log, r.log, {CheckStateStep});
    case Offered(offers, accepted) =>
      OffersFrame(env, s, offers, accepted);
      OffersCalls(env, s, offers, accepted);
    case Updated(u, a, n) =>
      UpdatedKind(issued, s, u, a, n, k);
      LifeCycleNames(issued, s);
      UpdateCalls(s, u, a, n);
      UpdateMinor(s, u, a, n);
      KeptMax(s, UpdateHandled(s, u, a, n));
    case Sweeping =>
      SweptAdds(s, 0);
      AddsOnly(s.log, r.log, {AgentSweep});
    case CleaningNodes =>
      CleanedAdds(s);
      AddsOnly(s.log, r.log, NODES);
    case NodeReported(_, _) =>
    case ClusterChanged(nodes, up) =>
    case Resubscribed =>
  }

  lemma {:induction false} KindIdsDistinct(ts: seq<Command>, k: Kind)
    requires DistinctIds(ts)
    ensures NoDuplicates(KindIds(ts, k))
  {
    if |ts| == 0 {
    } else {
      var front, t := ts[..|ts| - 1], ts[|ts| - 1];
      KindIdsDistinct(front, k);
      KindIdsIn(front, k, t.id);
    }
  }
}
