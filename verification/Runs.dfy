/** The main results about whole runs: every sequence of events from a booted framework. */
module Runs {
  import opened Types
  import opened Store
  import opened Nodes
  import opened Ports
  import opened Offers
  import opened Scaling
  import opened Scheduling
  import opened Updates
  import opened Machine
  import opened Minor
  import opened Safety
  import opened Counts

  /** An empty store, an empty channel and no calls yet; whatever the configuration, nodes and locks. */
  ghost predicate Booted(s: Sys) {
    && s.tasks == [] && s.queue == [] && s.log == [] && s.sent == [] && s.lost == [] && !s.exhausted
  }

  /** The configured API server port, in memory and saved, is a port no search can hand out. */
  ghost predicate ServerPortReserved(env: Settings, s: Sys) {
    FixedPortOutside(env, s.cfg.serverPort) && FixedPortOutside(env, s.saved.serverPort)
  }

  lemma BootedSafe(env: Settings, ports: bool, s: Sys)
    requires Booted(s) && (ports ==> ServerPortReserved(env, s))
    ensures Safe(env, ports, {}, s)
  {
    assert QueueIds(s.queue) == [] && Launches(s.log) == [];
  }

  lemma OneOfEach(ids: seq<string>, i: nat, j: nat)
    requires i < j < |ids| && ids[i] == ids[j]
    ensures multiset(ids)[ids[i]] >= 2
  {
    assert ids == ids[..j] + [ids[j]] + ids[j + 1..];
    assert ids[..j][i] in multiset(ids[..j]);
  }

  lemma {:induction false} CountedOnce(ids: seq<string>, id: string)
    requires NoDuplicates(ids)
    ensures multiset(ids)[id] <= 1
  {
    if |ids| == 0 {
    } else {
      CountedOnce(ids[1..], id);
      assert ids == [ids[0]] + ids[1..];
      if id == ids[0] {
        assert id !in ids[1..];
      }
    }
  }

  /** No double launch: over every run, each task ID is enqueued by CheckState at most once, is in the channel at most
      once, and is in at most one ACCEPT; and an ID still in the channel is in no ACCEPT. */
  lemma NoDoubleLaunch(env: Settings, s: Sys, events: seq<Event>)
    requires Booted(s) && FreshRun({}, events)
    ensures var r := Run(env, s, events);
            && NoDuplicates(r.sent)
            && NoDuplicates(QueueIds(r.queue))
            && NoDuplicates(Launches(r.log))
            && forall id | id in QueueIds(r.queue) :: id !in Launches(r.log)
  {
    BootedSafe(env, false, s);
    RunSafe(env, false, {}, s, events);
    hide Run, FreshRun, Booted;
    var r := Run(env, s, events);
    var q, l := QueueIds(r.queue), Launches(r.log);
    forall id ensures multiset(q)[id] + multiset(l)[id] <= 1 {
      CountedOnce(r.sent, id);
      assert (multiset(q) + multiset(l) + multiset(r.lost))[id] == multiset(r.sent)[id];
    }
    hide QueueIds, Launches, Safe;
    forall i, j | 0 <= i < j < |q| ensures q[i] != q[j] {
      if q[i] == q[j] {
        OneOfEach(q, i, j);
      }
    }
    forall i, j | 0 <= i < j < |l| ensures l[i] != l[j] {
      if l[i] == l[j] {
        OneOfEach(l, i, j);
      }
    }
    forall id | id in q ensures id !in l {
      assert id in multiset(q);
    }
  }

  /** Command conservation: over every run, what CheckState enqueued is what is queued, was offered to Mesos in an
      ACCEPT, or was lost with the channel in a crash; and HandleOffers never meets a command it would drop. */
  lemma CommandsConserved(env: Settings, s: Sys, events: seq<Event>)
    requires Booted(s) && FreshRun({}, events)
    ensures var r := Run(env, s, events);
            && multiset(QueueIds(r.queue)) + multiset(Launches(r.log)) + multiset(r.lost) == multiset(r.sent)
            && forall i | 0 <= i < |r.queue| :: r.queue[i].id != "" && r.queue[i].name.Some?
  {
    BootedSafe(env, false, s);
    RunSafe(env, false, {}, s, events);
  }

  /** Port disjointness: in every reachable state in which no search was exhausted, a dynamic host port of a scheduled
      task is listed by no other stored task, scheduled or not; every dynamic port lies between the start of the range
      and the end of the last block; and the mappings of a task agree with its discovery record. */
  lemma PortsDisjoint(env: Settings, s: Sys, events: seq<Event>, i: nat, j: nat)
    requires RangeSane(env) && Booted(s) && ServerPortReserved(env, s) && FreshRun({}, events)
    requires var r := Run(env, s, events);
             !r.exhausted && i < |r.tasks| && j < |r.tasks| && i != j && r.tasks[i].id in r.sent
    ensures var t, u := Run(env, s, events).tasks[i], Run(env, s, events).tasks[j];
            && t.mappings == t.discovery
            && (forall m | 0 <= m < |Dynamic(t.name, t.mappings)| ::
                  env.portFrom + 1 <= Dynamic(t.name, t.mappings)[m] <= env.portTo + |t.mappings| - 2)
            && Disjoint(Dynamic(t.name, t.mappings), u.mappings)
            && Disjoint(Dynamic(t.name, t.mappings), u.discovery)
  {
    BootedSafe(env, true, s);
    RunSafe(env, true, {}, s, events);
    hide Run;
    var r := Run(env, s, events);
    var t, u := r.tasks[i], r.tasks[j];
    assert Ported(env, r, t) && Ported(env, r, u);
    var a, b := Dynamic(t.name, t.mappings), Dynamic(u.name, u.mappings);
    if u.id in r.sent {
      assert if i < j then Disjoint(a, b) else Disjoint(b, a);
    }
    forall m, n | 0 <= m < |a| && 0 <= n < |u.mappings|
      ensures a[m] != u.mappings[n]
    {
      PortApart(env, r, t, u, m, n);
    }
  }

  lemma PortApart(env: Settings, r: Sys, t: Command, u: Command, m: nat, n: nat)
    requires RangeSane(env) && WellAssigned(env, t) && Ported(env, r, u)
    requires m < |Dynamic(t.name, t.mappings)| && n < |u.mappings|
    requires u.id in r.sent ==>
      (Disjoint(Dynamic(t.name, t.mappings), Dynamic(u.name, u.mappings))
       || Disjoint(Dynamic(u.name, u.mappings), Dynamic(t.name, t.mappings)))
    ensures Dynamic(t.name, t.mappings)[m] != u.mappings[n]
  {
    var b := Dynamic(u.name, u.mappings);
    if u.name == Some(Server) {
      if n > 0 {
        assert u.mappings[n] == b[n - 1];
      }
    } else {
      assert u.mappings[n] == b[n];
    }
  }

  /** The ports queued for a stored task and the ports claimed when it was launched are its mappings. */
  lemma PortsClaimedAreMapped(env: Settings, s: Sys, events: seq<Event>, i: nat)
    requires Booted(s) && FreshRun({}, events) && i < |Run(env, s, events).tasks|
    ensures PortsCarried(Run(env, s, events), Run(env, s, events).tasks[i])
  {
    BootedSafe(env, false, s);
    RunSafe(env, false, {}, s, events);
  }

  /** Over every run, each stored task is the only one with its ID, so under its own key, has a name, and its
      discovery record agrees with its mappings, port by port, even after an exhausted search. */
  lemma StoreInOrder(env: Settings, s: Sys, events: seq<Event>)
    requires Booted(s) && FreshRun({}, events)
    ensures var r := Run(env, s, events);
            && DistinctIds(r.tasks)
            && forall i | 0 <= i < |r.tasks| ::
                 r.tasks[i].id != "" && r.tasks[i].name.Some? && r.tasks[i].mappings == r.tasks[i].discovery
  {
    BootedSafe(env, false, s);
    RunSafe(env, false, {}, s, events);
    hide Run, FreshRun, Accounted, Carried;
    var r := Run(env, s, events);
    forall i | 0 <= i < |r.tasks| ensures ProperTask(Issued({}, events), r.sent, r.tasks[i]) {
    }
  }

  /** Why the API server port must be reserved: when it is the port the search finds next, the agent scheduled
      with that port and the next server collide. */
  lemma UnreservedPortCollides(env: Settings, cfg: Config, ts: seq<Command>, t: Command, now: int, id: string)
    requires RangeSane(env) && Unassigned(env, t) && t.name == Some(Agent)
    requires HostPort(env, ts, |t.discovery|) != 0 && U32(cfg.serverPort) == HostPort(env, ts, |t.discovery|)
    ensures !Disjoint(Dynamic(t.name, Promoted(env, ts, t, now).mappings), NewTask(env, cfg, Server, id).mappings)
  {
    DynamicPort(env, ts, t, now, 0);
    assert NewTask(env, cfg, Server, id).mappings[0] == U32(cfg.serverPort);
    assert Dynamic(t.name, Promoted(env, ts, t, now).mappings)[0] == HostPort(env, ts, |t.discovery|);
  }

  // ---------- When the port range is large enough ----------

  lemma {:induction false} CountTotal(ts: seq<Command>)
    requires forall i | 0 <= i < |ts| :: ts[i].name.Some?
    ensures |ts| == Count(ts, Datastore) + Count(ts, Server) + Count(ts, Agent)
  {
    if |ts| == 0 {
    } else {
      CountTotal(ts[..|ts| - 1]);
      var k := ts[|ts| - 1].name.value;
      assert k.Datastore? || k.Server? || k.Agent?;
    }
  }

  lemma {:induction false} PortsOfSize(ts: seq<Command>)
    requires forall i | 0 <= i < |ts| :: |ts[i].discovery| <= 3
    ensures |PortsOf(ts)| <= 3 * |ts|
  {
    if |ts| == 0 {
      assert PortsOf(ts) == {};
    } else {
      var front, last := ts[..|ts| - 1], ts[|ts| - 1];
      PortsOfSize(front);
      PortsOfLast(ts);
      hide PortsOf;
      UnionSize(PortsOf(ts), PortsOf(front), Among(last.discovery));
      ThreeAtMost(last.discovery);
    }
  }

  function Among(ports: seq<nat>): set<nat> { set p | p in ports }

  lemma PortsOfLast(ts: seq<Command>)
    requires |ts| > 0
    ensures PortsOf(ts) <= PortsOf(ts[..|ts| - 1]) + Among(ts[|ts| - 1].discovery)
  {
    var front, last := ts[..|ts| - 1], ts[|ts| - 1];
    forall p | p in PortsOf(ts) && p !in last.discovery ensures p in PortsOf(front) {
      var i, j :| 0 <= i < |ts| && 0 <= j < |ts[i].discovery| && ts[i].discovery[j] == p;
      assert front[i].discovery[j] == p;
    }
  }

  lemma ThreeAtMost(ports: seq<nat>)
    requires |ports| <= 3
    ensures |Among(ports)| <= 3
  {
    var some := (if |ports| > 0 then {ports[0]} else {}) + (if |ports| > 1 then {ports[1]} else {})
      + (if |ports| > 2 then {ports[2]} else {});
    assert Among(ports) == some;
  }

  /** Nine ports of the range for every task there may be. */
  ghost predicate Roomy(env: Settings, tasks: nat) { 9 * tasks < env.portTo - env.portFrom - 1 }

  lemma ScheduledHasRoom(env: Settings, issued: set<string>, s: Sys, i: nat)
    requires RangeSane(env) && Safe(env, true, issued, s) && !s.exhausted && Roomy(env, |s.tasks|) && i < |s.tasks|
    ensures HostPort(env, s.tasks, |s.tasks[i].discovery|) != 0
  {
    forall j | 0 <= j < |s.tasks| ensures |s.tasks[j].discovery| <= 3 {
      assert Ported(env, s, s.tasks[j]);
    }
    PortsOfSize(s.tasks);
    var num, used := |s.tasks[i].discovery|, |PortsOf(s.tasks)|;
    assert num * used <= 3 * used;
    SearchSucceeds(env, s.tasks, num);
  }

  lemma {:induction false} CheckedHasRoom(env: Settings, issued: set<string>, s: Sys, i: nat, now: int)
    requires RangeSane(env) && Safe(env, true, issued, s) && !s.exhausted && Roomy(env, |s.tasks|) && i <= |s.tasks|
    ensures !CheckedFrom(env, s, i, now).exhausted
    decreases |s.tasks| - i
  {
    hide Safe, Wanted, HostPort, Promoted;
    if i == |s.tasks| {
    } else {
      var t := s.tasks[i];
      WantedIsFresh(s.tasks, t);
      if t.id == "" || t.name.None? {
        CheckedHasRoom(env, issued, s, i + 1, now);
      } else if Wanted(s.tasks, t) {
        ScheduledHasRoom(env, issued, s, i);
        ScheduledSafe(env, true, issued, s, i, now);
        CheckedHasRoom(env, issued, Scheduled(env, s, i, now), i + 1, now);
      } else if t.state.Fresh? && t.since.None? {
        RemoveMinor(s, i);
        MinorSafe(env, true, issued, s, s.(tasks := RemoveAt(s.tasks, i)));
        CheckedHasRoom(env, issued, s.(tasks := RemoveAt(s.tasks, i)), i, now);
      } else {
        CheckedHasRoom(env, issued, s, i + 1, now);
      }
    }
  }

  lemma HeartbeatSearchesNot(env: Settings, s: Sys, b: Beat)
    ensures HeartbeatDone(env, s, b).exhausted == s.exhausted
  {
    hide HealthChecked, SweptFrom, NodesHealthy, DatastoreHealthy, TaskStarted;
    if !NothingWanted(s) {
      var s1 := Alarmed(Examined(env, s, b.now));
      var ds, server := DatastoreHealthy(s.tasks), NodesHealthy(env, s, Server, b.now);
      var s2 := if !ds then TaskStarted(env, s1, Datastore, b.ids.datastore, b.at.datastore)
                else if !server then TaskStarted(env, s1, Server, b.ids.server, b.at.server) else s1;
      StartedSaves(env, s1, Datastore, b.ids.datastore, b.at.datastore);
      StartedSaves(env, s1, Server, b.ids.server, b.at.server);
      StartedSaves(env, s2, Agent, b.ids.agent, b.at.agent);
    }
  }

  lemma StepHasRoom(env: Settings, issued: set<string>, bound: PerKind<nat>, s: Sys, e: Event)
    requires RangeSane(env) && Safe(env, true, issued, s) && !s.exhausted && Within(bound, s)
    requires Roomy(env, bound.datastore + bound.server + bound.agent)
    ensures !Apply(env, s, e).exhausted
  {
    LifeCycleNames(issued, s);
    if e.Checking? {
      CountTotal(s.tasks);
      assert Count(s.tasks, Datastore) <= bound.Of(Datastore);
      assert Count(s.tasks, Server) <= bound.Of(Server);
      assert Count(s.tasks, Agent) <= bound.Of(Agent);
      CheckedHasRoom(env, issued, s, 0, e.now);
    } else if e.Beating? {
      HeartbeatSearchesNot(env, s, e.b);
    } else if e.Offered? {
      OffersFrame(env, s, e.offers, e.accepted);
    } else if !e.Crashed? {
      OtherMinor(env, s, e);
    }
  }

  lemma {:induction false} RunHasRoom(env: Settings, issued: set<string>, bound: PerKind<nat>, s: Sys,
          events: seq<Event>)
    requires RangeSane(env) && Safe(env, true, issued, s) && !s.exhausted && Within(bound, s)
        && FreshRun(issued, events)
    requires Roomy(env, bound.datastore + bound.server + bound.agent)
    requires forall i | 0 <= i < |events| :: Asks(bound, events[i])
    ensures !Run(env, s, events).exhausted && Within(bound, Run(env, s, events))
  {
    hide Safe, Apply, Within, Asks;
    if |events| == 0 {
    } else {
      var front, last := events[..|events| - 1], events[|events| - 1];
      RunHasRoom(env, issued, bound, s, front);
      RunSafe(env, true, issued, s, front);
      var r := Run(env, s, front);
      StepHasRoom(env, Issued(issued, front), bound, r, last);
      SafeLifeCycle(env, true, Issued(issued, front), r);
      StepWithin(env, Issued(issued, front), bound, r, last);
    }
  }

  /** With nine ports in the range for every task the operator may ask for, no search is ever exhausted: the ports of
      any two stored tasks, one of them scheduled, are disjoint in every reachable state. */
  lemma PortsDisjointWithRoom(env: Settings, bound: PerKind<nat>, s: Sys, events: seq<Event>, i: nat, j: nat)
    requires RangeSane(env) && Booted(s) && ServerPortReserved(env, s) && FreshRun({}, events)
    requires Within(bound, s) && forall i | 0 <= i < |events| :: Asks(bound, events[i])
    requires Roomy(env, bound.datastore + bound.server + bound.agent)
    requires var r := Run(env, s, events);
             i < |r.tasks| && j < |r.tasks| && i != j && r.tasks[i].id in r.sent
    ensures var t, u := Run(env, s, events).tasks[i], Run(env, s, events).tasks[j];
            Disjoint(Dynamic(t.name, t.mappings), u.mappings)
  {
    BootedSafe(env, true, s);
    RunHasRoom(env, {}, bound, s, events);
    PortsDisjoint(env, s, events, i, j);
  }

  // ---------- Instances and counts over runs ----------

  /** At every crash of the run, for every kind with a stored task, the saved wanted count is the current one. */
  ghost predicate CrashesAgree(env: Settings, s: Sys, events: seq<Event>) {
    |events| > 0 ==>
      var front := events[..|events| - 1];
      CrashesAgree(env, s, front) && (events[|events| - 1].Crashed? ==> SavedAgrees(Run(env, s, front)))
  }

  /** The stored tasks carry the wanted counts in every state of the run. */
  ghost predicate AlwaysCurrent(env: Settings, s: Sys, events: seq<Event>) {
    && InstancesCurrent(Run(env, s, events))
    && (|events| > 0 ==> AlwaysCurrent(env, s, events[..|events| - 1]))
  }

  /** Over every run, each stored task carries the current wanted count of its kind in every state, if and only if
      every crash finds the wanted counts of the stored kinds saved. */
  lemma {:induction false} RunInstances(env: Settings, issued: set<string>, s: Sys, events: seq<Event>)
    requires Safe(env, false, issued, s) && FreshRun(issued, events) && InstancesCurrent(s)
    ensures AlwaysCurrent(env, s, events) <==> CrashesAgree(env, s, events)
  {
    hide InstancesCurrent, Apply, LifeCycle, Carried, SavedAgrees, FreshIds;
    if |events| == 0 {
    } else {
      var front, last := events[..|events| - 1], events[|events| - 1];
      RunInstances(env, issued, s, front);
      RunSafe(env, false, issued, s, front);
      var t := Run(env, s, front);
      if last.Crashed? {
        assert Apply(env, t, last) == Restarted(t) by { CrashApplied(env, t); }
        if InstancesCurrent(t) {
          CrashInstances(t);
        }
      } else if InstancesCurrent(t) {
        StepInstances(env, Issued(issued, front), t, last);
      }
    }
  }

  /** Over every run without a crash the stored tasks of a kind keep carrying its wanted count. */
  lemma {:induction false} RunCurrent(env: Settings, issued: set<string>, s: Sys, events: seq<Event>, k: Kind)
    requires Safe(env, false, issued, s) && FreshRun(issued, events) && KindCurrent(s, k)
    requires forall i | 0 <= i < |events| :: !events[i].Crashed?
    ensures KindCurrent(Run(env, s, events), k)
  {
    hide KindCurrent, Apply, LifeCycle, Carried, FreshIds;
    if |events| == 0 {
    } else {
      var front := events[..|events| - 1];
      RunCurrent(env, issued, s, front, k);
      RunSafe(env, false, issued, s, front);
      StepCurrent(env, Issued(issued, front), Run(env, s, front), events[|events| - 1], k);
    }
  }

  lemma CrashApplied(env: Settings, s: Sys)
    ensures Apply(env, s, Crashed) == Restarted(s)
  {
  }

  /** An event that by its kind does not change the wanted counts. */
  ghost predicate AsksNothing(e: Event) {
    !e.ScaleRequest? && !e.StopRequest? && !e.StartRequest? && !e.Crashed?
  }

  /** A step that leaves the wanted counts alone, by its kind or because it happens to, keeps the counts in bounds. */
  lemma StepCounts(env: Settings, issued: set<string>, s: Sys, e: Event)
    requires LifeCycle(issued, s) && (AsksNothing(e) || Apply(env, s, e).cfg.max == s.cfg.max)
    ensures CountsBounded(s, Apply(env, s, e))
  {
    hide HeartbeatDone, CheckedFrom, UpdateHandled, ScaledTo, Stopped, Started, SweptFrom, Cleaned, MinorStep,
      OffersHandled, CountsBounded, Count;
    LifeCycleNames(issued, s);
    if e.Beating? {
      HeartbeatBounded(env, s, e.b);
    } else if e.Checking? {
      CheckedBounded(env, s, 0, e.now);
    } else if e.Offered? {
      OffersFrame(env, s, e.offers, e.accepted);
      SameBounded(s, Apply(env, s, e));
    } else if e.Crashed? {
      SameBounded(s, Apply(env, s, e));
    } else {
      OtherMinor(env, s, e);
      if e.Updated? {
        UpdateMinor(s, e.u, e.mesosAgent, e.networks);
        KeptConfig(s, UpdateHandled(s, e.u, e.mesosAgent, e.networks));
      }
      MinorBounded(s, Apply(env, s, e));
    }
  }

  lemma SameBounded(s: Sys, r: Sys)
    requires r.tasks == s.tasks && r.cfg.max == s.cfg.max
    ensures CountsBounded(s, r)
  {
  }

  /** The wanted counts stay what they are throughout the run, whatever its events. */
  ghost predicate WantsFixed(env: Settings, s: Sys, events: seq<Event>) {
    |events| > 0 ==>
      var front := events[..|events| - 1];
      WantsFixed(env, s, front) && Run(env, s, events).cfg.max == Run(env, s, front).cfg.max
  }

  /** While the wanted counts stay what they are, a kind never has more tasks than the larger of its starting count and
      its wanted count: over every run, also with crashes and requests that leave the wanted counts as they were. */
  lemma {:induction false} RunCounts(env: Settings, issued: set<string>, s: Sys, events: seq<Event>)
    requires Safe(env, false, issued, s) && FreshRun(issued, events) && WantsFixed(env, s, events)
    ensures CountsBounded(s, Run(env, s, events))
  {
    hide CountsBounded, Apply, LifeCycle, Carried, AsksNothing, FreshIds;
    if |events| == 0 {
      SelfBounded(s);
    } else {
      var front := events[..|events| - 1];
      RunCounts(env, issued, s, front);
      RunSafe(env, false, issued, s, front);
      StepCounts(env, Issued(issued, front), Run(env, s, front), events[|events| - 1]);
      BoundedTrans(s, Run(env, s, front), Run(env, s, events));
    }
  }

  // ---------- Forgotten tasks ----------

  lemma MinorGone(s: Sys, r: Sys, id: string)
    requires MinorStep(s, r) && !HasId(s.tasks, id)
    ensures !HasId(r.tasks, id)
  {
    forall i | 0 <= i < |r.tasks| ensures r.tasks[i].id != id {
      assert EvolvedFrom(s.tasks, r.tasks[i]);
    }
  }

  lemma PutGone(ts: seq<Command>, c: Command, at: nat, id: string)
    requires !HasId(ts, id) && c.id != id
    ensures !HasId(Put(ts, c, at), id)
  {
  }

  lemma StartedGone(env: Settings, s: Sys, k: Kind, newId: string, at: nat, id: string)
    requires !HasId(s.tasks, id) && newId != id
    ensures !HasId(TaskStarted(env, s, k, newId, at).tasks, id)
  {
    hide MinorStep, HasId, Put, Scaled;
    var n, max := Count(s.tasks, k), s.cfg.max.Of(k);
    PutGone(s.tasks, NewTask(env, s.cfg, k, newId), at, id);
    ScaledMinor(s, k, max, n);
    MinorGone(s, Scaled(s, k, max, n), id);
  }

  lemma HeartbeatGone(env: Settings, s: Sys, b: Beat, id: string)
    requires !HasId(s.tasks, id) && id !in IdsOf(Beating(b))
    ensures !HasId(HeartbeatDone(env, s, b).tasks, id)
  {
    hide HasId, MinorStep, KeepsWants, Settled, Alarmed, HealthChecked, TaskStarted, NodesHealthy, DatastoreHealthy;
    SettledMinor(s);
    MinorGone(s, Settled(s), id);
    if !NothingWanted(s) {
      var s1 := Examined(env, s, b.now);
      ExaminedMinor(env, s, b.now);
      MinorGone(s, s1, id);
      SettledMinor(s1);
      MinorGone(s1, Settled(s1), id);
      var s2 := Alarmed(s1);
      AlarmedMinor(s1);
      MinorGone(s1, s2, id);
      var ds, server := DatastoreHealthy(s.tasks), NodesHealthy(env, s, Server, b.now);
      var s3 := if !ds then TaskStarted(env, s2, Datastore, b.ids.datastore, b.at.datastore)
                else if !server then TaskStarted(env, s2, Server, b.ids.server, b.at.server) else s2;
      StartedGone(env, s2, Datastore, b.ids.datastore, b.at.datastore, id);
      StartedGone(env, s2, Server, b.ids.server, b.at.server, id);
      StartedGone(env, s3, Agent, b.ids.agent, b.at.agent, id);
    }
  }

  lemma {:induction false} CheckedGone(env: Settings, s: Sys, i: nat, now: int, id: string)
    requires !HasId(s.tasks, id) && i <= |s.tasks|
    ensures !HasId(CheckedFrom(env, s, i, now).tasks, id)
    decreases |s.tasks| - i
  {
    hide Wanted, HostPort, Assigned, Synced;
    if i == |s.tasks| {
    } else {
      var t := s.tasks[i];
      if t.id == "" || t.name.None? {
        CheckedGone(env, s, i + 1, now, id);
      } else if Wanted(s.tasks, t) {
        CheckedGone(env, Scheduled(env, s, i, now), i + 1, now, id);
      } else if t.state.Fresh? && t.since.None? {
        CheckedGone(env, s.(tasks := RemoveAt(s.tasks, i)), i, now, id);
      } else {
        CheckedGone(env, s, i + 1, now, id);
      }
    }
  }

  /** A task that was forgotten is never stored again. */
  lemma StepGone(env: Settings, issued: set<string>, s: Sys, e: Event, id: string)
    requires LifeCycle(issued, s) && FreshIds(issued, e) && id in issued && !HasId(s.tasks, id)
    ensures !HasId(Apply(env, s, e).tasks, id)
  {
    hide HasId, HeartbeatDone, CheckedFrom, OffersHandled, MinorStep;
    LifeCycleNames(issued, s);
    if e.Beating? {
      HeartbeatGone(env, s, e.b, id);
    } else if e.Checking? {
      CheckedGone(env, s, 0, e.now, id);
    } else if e.Offered? {
      OffersFrame(env, s, e.offers, e.accepted);
    } else if !e.Crashed? {
      OtherMinor(env, s, e);
      MinorGone(s, Apply(env, s, e), id);
    }
  }

  lemma {:induction false} RunGone(env: Settings, issued: set<string>, s: Sys, events: seq<Event>, id: string)
    requires Safe(env, false, issued, s) && FreshRun(issued, events) && id in issued && !HasId(s.tasks, id)
    ensures !HasId(Run(env, s, events).tasks, id)
  {
    hide HasId, Apply, LifeCycle, Carried;
    if |events| == 0 {
    } else {
      var front := events[..|events| - 1];
      RunGone(env, issued, s, front, id);
      RunSafe(env, false, issued, s, front);
      IssuedGrows(issued, front);
      StepGone(env, Issued(issued, front), Run(env, s, front), events[|events| - 1], id);
    }
  }

  lemma {:induction false} IssuedGrows(issued: set<string>, events: seq<Event>)
    ensures issued <= Issued(issued, events)
  {
    if |events| == 0 {
    } else {
      IssuedGrows(issued, events[..|events| - 1]);
    }
  }
}
