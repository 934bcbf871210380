/** Reaching the wanted number of tasks of each kind. */
module Convergence {
  import opened Types
  import opened Store
  import opened Nodes
  import Offers
  import opened Scaling
  import opened Scheduling
  import opened Updates
  import opened Machine
  import opened Safety
  import opened Counts
  import Checks
  import Health
  import Orphans
  import Runs

  /** The IDs a heartbeat brings are not in the store and differ from each other. */
  ghost predicate UnusedIds(ts: seq<Command>, b: Beat) {
    && !HasId(ts, b.ids.datastore) && !HasId(ts, b.ids.server) && !HasId(ts, b.ids.agent)
    && b.ids.datastore != b.ids.server && b.ids.datastore != b.ids.agent && b.ids.server != b.ids.agent
  }

  lemma FreshIdsUnused(issued: set<string>, s: Sys, b: Beat)
    requires LifeCycle(issued, s) && FreshIds(issued, Beating(b))
    ensures UnusedIds(s.tasks, b)
  {
    forall i | 0 <= i < |s.tasks| ensures s.tasks[i].id in issued {
      assert ProperTask(issued, s.sent, s.tasks[i]);
    }
  }

  lemma AlarmedKeeps(s: Sys)
    ensures Alarmed(s).tasks == s.tasks && Alarmed(s).cfg == s.cfg
  {
  }

  lemma SettledKeeps(s: Sys)
    ensures Settled(s).tasks == s.tasks
  {
    hide SweptFrom;
  }

  /** What starting a missing task does to the count of a kind. */
  lemma TaskStartedCount(env: Settings, s: Sys, k: Kind, id: string, at: nat, o: Kind)
    requires !HasId(s.tasks, id)
    ensures var r := TaskStarted(env, s, k, id, at);
            && r.cfg == s.cfg
            && Count(r.tasks, o) == Count(s.tasks, o) + if o == k && Count(s.tasks, k) < s.cfg.max.Of(k) then 1 else 0
  {
    hide ScaledFrom, Put, NewTask, Count;
    var n, max := Count(s.tasks, k), s.cfg.max.Of(k);
    CountPut(s.tasks, NewTask(env, s.cfg, k, id), at, o);
    NewTaskName(env, s.cfg, k, id);
    ScaledKeepsConfig(s, k, max, n);
    ScaledCount(s, k, max, n, o);
  }

  /** In the start order it is the kind's turn: the datastore's while it is unhealthy, the servers' while the
      datastore is healthy, the agents' while the server is. */
  ghost predicate Turn(env: Settings, s: Sys, k: Kind, now: int) {
    match k
    case Datastore => !Health.SomeDatastore(s.tasks)
    case Server => Health.SomeDatastore(s.tasks)
    case Agent => NodesHealthy(env, s, Server, now)
  }

  /** The tasks of a kind after a health check: one fewer only at the wanted count, by the check of the kind itself,
      which then finds it unhealthy. */
  lemma CheckedCount(env: Settings, s: Sys, o: Kind, b: Beat, k: Kind)
    requires UnusedIds(s.tasks, b)
    ensures var s1, n := HealthChecked(env, s, o, b.now), Count(s.tasks, k);
            && UnusedIds(s1.tasks, b) && s1.cfg == s.cfg
            && (Count(s1.tasks, k) == n
                || (k == o && n == s.cfg.max.Of(k) == Count(s1.tasks, k) + 1 && !NodesHealthy(env, s, o, b.now)))
  {
    Health.HealthCheckCleansOne(env, s, o, b.now);
    hide HealthChecked, NodesHealthy, Count, RemoveAt, HasId, Elapsed, Health.Sane;
    if HealthChecked(env, s, o, b.now) != s {
      var p: nat :| Health.FirstOverdue(env, s, o, b.now, p);
      CountRemove(s.tasks, p, k);
      RemoveKeepsUnused(s.tasks, p, b.ids.datastore);
      RemoveKeepsUnused(s.tasks, p, b.ids.server);
      RemoveKeepsUnused(s.tasks, p, b.ids.agent);
    }
  }

  /** The same after both health checks of a heartbeat. */
  lemma ExaminedCount(env: Settings, s: Sys, b: Beat, k: Kind)
    requires UnusedIds(s.tasks, b)
    ensures var s1, n := Examined(env, s, b.now), Count(s.tasks, k);
            && UnusedIds(s1.tasks, b) && s1.cfg == s.cfg
            && (Count(s1.tasks, k) == n
                || (n == s.cfg.max.Of(k) == Count(s1.tasks, k) + 1
                    && ((k.Server? && !NodesHealthy(env, s, Server, b.now))
                        || (k.Agent? && !AgentsHealthy(env, s, b.now)))))
  {
    hide HealthChecked, NodesHealthy, Count, HasId;
    CheckedCount(env, s, Server, b, k);
    CheckedCount(env, HealthChecked(env, s, Server, b.now), Agent, b, k);
  }

  /** The start order, with what is healthy. */
  predicate Due(k: Kind, ds: bool, server: bool, agents: bool) {
    match k
    case Datastore => !ds
    case Server => ds && !server
    case Agent => server && !agents
  }

  /** What a heartbeat starts of a kind. */
  lemma LaunchedCount(env: Settings, s: Sys, ds: bool, server: bool, agents: bool, b: Beat, k: Kind)
    requires UnusedIds(s.tasks, b)
    ensures Count(Launched(env, s, ds, server, agents, b).tasks, k)
         == Count(s.tasks, k) + if Due(k, ds, server, agents) && Count(s.tasks, k) < s.cfg.max.Of(k) then 1 else 0
  {
    hide TaskStarted, Count, HasId;
    TaskStartedCount(env, s, Datastore, b.ids.datastore, b.at.datastore, k);
    TaskStartedCount(env, s, Server, b.ids.server, b.at.server, k);
    var s1 := if !ds then TaskStarted(env, s, Datastore, b.ids.datastore, b.at.datastore)
              else if !server then TaskStarted(env, s, Server, b.ids.server, b.at.server) else s;
    assert !HasId(s1.tasks, b.ids.agent) by {
      Runs.StartedGone(env, s, Datastore, b.ids.datastore, b.at.datastore, b.ids.agent);
      Runs.StartedGone(env, s, Server, b.ids.server, b.at.server, b.ids.agent);
    }
    TaskStartedCount(env, s1, Agent, b.ids.agent, b.at.agent, k);
  }

  /** In its turn a kind gets one task more from a heartbeat while it is below the wanted count, and none otherwise; one
      that a health check gives up at the wanted count is replaced by the same heartbeat. */
  lemma HeartbeatAdds(env: Settings, s: Sys, b: Beat, k: Kind)
    requires Turn(env, s, k, b.now) && UnusedIds(s.tasks, b)
    ensures Count(HeartbeatDone(env, s, b).tasks, k)
         == Count(s.tasks, k) + if Count(s.tasks, k) < s.cfg.max.Of(k) then 1 else 0
  {
    HealthyCounts(env, s, b.now);
    Health.DatastoreMeans(s.tasks);
    ExaminedCount(env, s, b, k);
    hide Health.SomeDatastore, Examined, NodesHealthy, DatastoreHealthy, AgentsHealthy, Settled, Alarmed, Launched,
      Count;
    var s1 := Examined(env, s, b.now);
    var ds, server := DatastoreHealthy(s.tasks), NodesHealthy(env, s, Server, b.now);
    SettledKeeps(s);
    SettledKeeps(s1);
    AlarmedKeeps(s1);
    LaunchedCount(env, Alarmed(s1), ds, server, AgentsHealthy(env, s, b.now), b, k);
  }

  /** Out of its turn a kind gets no task from a heartbeat. */
  lemma HeartbeatWaits(env: Settings, s: Sys, b: Beat, k: Kind)
    requires !Turn(env, s, k, b.now) && UnusedIds(s.tasks, b)
    ensures Count(HeartbeatDone(env, s, b).tasks, k) <= Count(s.tasks, k)
  {
    Health.DatastoreMeans(s.tasks);
    ExaminedCount(env, s, b, k);
    hide Health.SomeDatastore, Examined, NodesHealthy, DatastoreHealthy, AgentsHealthy, Settled, Alarmed, Launched,
      Count;
    var s1 := Examined(env, s, b.now);
    var ds, server := DatastoreHealthy(s.tasks), NodesHealthy(env, s, Server, b.now);
    SettledKeeps(s);
    SettledKeeps(s1);
    AlarmedKeeps(s1);
    LaunchedCount(env, Alarmed(s1), ds, server, AgentsHealthy(env, s, b.now), b, k);
  }

  /** The task that is started for a kind below its wanted count: fresh and undated, with the configured needs of its
      kind and the wanted count, and the host ports of its kind; the datastore asks for one port, a server for the
      API server's and one more, an agent for two and for a third if it serves TCP. */
  lemma StartedTask(env: Settings, s: Sys, k: Kind, id: string, at: nat) returns (t: Command, q: nat)
    requires !HasId(s.tasks, id) && Count(s.tasks, k) < s.cfg.max.Of(k)
    ensures q <= |s.tasks|
    ensures TaskStarted(env, s, k, id, at) == s.(tasks := s.tasks[..q] + [t] + s.tasks[q..])
    ensures t.name == Some(k) && t.id == id && t.state == Fresh && t.since == None && t.instances == s.cfg.max.Of(k)
    ensures t.cpu == env.cpu.Of(k) && t.memory == env.memory.Of(k) && t.disk == env.disk.Of(k)
    ensures t.agent == "" && t.mesosAgent == "" && t.networks == 1 && t.discovery == t.mappings
    ensures t.mappings == match k
                          case Datastore => [0]
                          case Server => [s.cfg.serverPort % 0x1_0000_0000, 0]
                          case Agent => if env.agentTcpPort > 0 then [0, 0, 0] else [0, 0]
  {
    t := NewTask(env, s.cfg, k, id);
    q := PutUnused(s.tasks, t, at);
  }

  lemma HealthyCounts(env: Settings, s: Sys, now: int)
    ensures NodesHealthy(env, s, Server, now) ==>
              && Count(s.tasks, Server) == s.cfg.max.server && !NothingWanted(s)
              && (AgentsHealthy(env, s, now) ==> Count(s.tasks, Agent) == s.cfg.max.agent)
  {
    Health.HealthyMeans(env, s, Server, now);
    Health.HealthCheckCleansOne(env, s, Server, now);
    hide HealthChecked, Health.Sane, Health.SomeReady, Elapsed;
    if NodesHealthy(env, s, Server, now) {
      ServerWanted(s);
    }
  }

  lemma ServerWanted(s: Sys)
    requires Count(s.tasks, Server) == s.cfg.max.server && Health.SomeReady(s, Server, 0)
    ensures !NothingWanted(s)
  {
    var j :| 0 <= j < |s.tasks| && s.tasks[j].name == Some(Server) && Health.OnReadyNode(s, s.tasks[j]);
    CountRemove(s.tasks, j, Server);
  }

  lemma RemoveKeepsUnused(ts: seq<Command>, p: nat, id: string)
    requires p < |ts| && !HasId(ts, id)
    ensures !HasId(RemoveAt(ts, p), id)
  {
  }

  // ---------- Runs ----------

  /** An event that asks for no other counts and reports no task as gone. */
  ghost predicate Calm(e: Event) {
    Runs.AsksNothing(e) && (e.Updated? ==> !Terminal(e.u.status))
  }

  /** A calm step other than a heartbeat keeps a kind, if there are not too many of it for CheckState. */
  lemma CalmCount(env: Settings, issued: set<string>, s: Sys, e: Event, k: Kind)
    requires LifeCycle(issued, s) && KindCurrent(s, k) && Calm(e) && !e.Beating?
    requires Count(s.tasks, k) <= s.cfg.max.Of(k)
    ensures Count(Apply(env, s, e).tasks, k) == Count(s.tasks, k)
  {
    hide CheckedFrom, UpdateHandled, Cleaned, Count, LifeCycle, Offers.OffersHandled;
    if e.Checking? {
      Checks.CheckStateCountsCurrent(env, issued, s, e.now, k);
    } else if e.Offered? {
      OffersFrame(env, s, e.offers, e.accepted);
    } else if e.Updated? {
      UpdateCount(issued, s, e.u, e.mesosAgent, e.networks, k);
    }
  }

  lemma UpdateCount(issued: set<string>, s: Sys, u: Update, mesosAgent: string, networks: nat, k: Kind)
    requires LifeCycle(issued, s) && !Terminal(u.status)
    ensures Count(UpdateHandled(s, u, mesosAgent, networks).tasks, k) == Count(s.tasks, k)
  {
    LifeCycleNames(issued, s);
    hide UpdateHandled, LifeCycle, Count;
    if HasId(s.tasks, u.task) {
      var p: nat :| p < |s.tasks| && s.tasks[p].id == u.task;
      Orphans.KnownUpdate(s, u, mesosAgent, networks, p);
      CountReplace(s.tasks, p, UpdateHandled(s, u, mesosAgent, networks).tasks[p], k);
    } else {
      Orphans.UnknownUpdate(s, u, mesosAgent, networks);
    }
  }

  function Beats(events: seq<Event>): nat {
    if |events| == 0 then 0
    else Beats(events[..|events| - 1]) + (if events[|events| - 1].Beating? then 1 else 0)
  }

  /** It is the kind's turn at every heartbeat of the run. */
  ghost predicate TurnStays(env: Settings, s: Sys, events: seq<Event>, k: Kind) {
    |events| > 0 ==>
      var front, last := events[..|events| - 1], events[|events| - 1];
      TurnStays(env, s, front, k) && (last.Beating? ==> Turn(env, Run(env, s, front), k, last.b.now))
  }

  /** One step towards the wanted count. */
  lemma StepConverges(env: Settings, issued: set<string>, s: Sys, e: Event, k: Kind)
    requires LifeCycle(issued, s) && KindCurrent(s, k) && Calm(e) && FreshIds(issued, e)
    requires Count(s.tasks, k) <= s.cfg.max.Of(k)
    requires e.Beating? ==> Turn(env, s, k, e.b.now)
    ensures var r := Apply(env, s, e);
            && r.cfg.max == s.cfg.max
            && Count(r.tasks, k) == Min(s.cfg.max.Of(k), Count(s.tasks, k) + if e.Beating? then 1 else 0)
  {
    hide LifeCycle, KindCurrent, HeartbeatDone, Turn, FreshIds, CountsBounded, Count;
    Runs.StepCounts(env, issued, s, e);
    BoundedMax(s, Apply(env, s, e));
    if e.Beating? {
      FreshIdsUnused(issued, s, e.b);
      HeartbeatAdds(env, s, e.b, k);
    } else {
      hide Apply;
      CalmCount(env, issued, s, e, k);
    }
  }

  lemma BoundedMax(s: Sys, r: Sys)
    requires CountsBounded(s, r)
    ensures r.cfg.max == s.cfg.max
  {
  }

  /** Convergence, kind by kind: from at most the wanted number M of tasks, while it is the kind's turn at each
      heartbeat and no task is reported gone, every heartbeat brings one more until there are exactly M, and then
      none, whatever CheckStates, offers and other updates come in between. */
  lemma {:induction false} RunConverges(env: Settings, issued: set<string>, s: Sys, events: seq<Event>, k: Kind)
    requires Safe(env, false, issued, s) && KindCurrent(s, k) && FreshRun(issued, events)
    requires TurnStays(env, s, events, k) && forall i | 0 <= i < |events| :: Calm(events[i])
    requires Count(s.tasks, k) <= s.cfg.max.Of(k)
    ensures var r := Run(env, s, events);
            && r.cfg.max == s.cfg.max
            && Count(r.tasks, k) == Min(s.cfg.max.Of(k), Count(s.tasks, k) + Beats(events))
  {
    hide Apply, LifeCycle, Carried, KindCurrent, Count, Turn, FreshIds, Calm;
    if |events| == 0 {
    } else {
      var front, last := events[..|events| - 1], events[|events| - 1];
      assert forall i | 0 <= i < |front| :: Calm(front[i]);
      RunConverges(env, issued, s, front, k);
      RunSafe(env, false, issued, s, front);
      assert forall i | 0 <= i < |front| :: !front[i].Crashed? by { NoCrash(front); }
      Runs.RunCurrent(env, issued, s, front, k);
      StepConverges(env, Issued(issued, front), Run(env, s, front), last, k);
    }
  }

  lemma NoCrash(events: seq<Event>)
    requires forall i | 0 <= i < |events| :: Calm(events[i])
    ensures forall i | 0 <= i < |events| :: !events[i].Crashed?
  {
    assert forall i | 0 <= i < |events| :: Calm(events[i]) ==> !events[i].Crashed?;
  }
}
