/** Edge detection: the heartbeat's own SUPPRESS and REVIVE calls are the changes in what it observes. */
module Edges {
  import opened Types
  import opened Store
  import opened Nodes
  import opened Offers
  import opened Scaling
  import opened Scheduling
  import opened Updates
  import opened Machine
  import opened Counts
  import opened Calls
  import Health

  /** What the locks react to: a heartbeat's observation, or the reset when the heartbeat loop (re)starts. */
  datatype Signal = Seen(well: bool) | Reset

  /** Whether the framework was taken to be settled after these signals; it starts out unsettled. */
  predicate SettledAfter(signals: seq<Signal>) {
    |signals| > 0 && signals[|signals| - 1] == Seen(true)
  }

  /** The call a signal causes: SUPPRESS when all becomes well, REVIVE when it no longer is; none for a reset. */
  function ChangeCall(settled: bool, signal: Signal): seq<Call> {
    if signal.Reset? || signal.well == settled then []
    else [if signal.well then Suppress(HeartbeatStep) else Revive(HeartbeatStep)]
  }

  /** One call for each change. */
  function ChangeCalls(signals: seq<Signal>): seq<Call> {
    if |signals| == 0 then []
    else
      var front := signals[..|signals| - 1];
      ChangeCalls(front) + ChangeCall(SettledAfter(front), signals[|signals| - 1])
  }

  /** The signal an event gives, if any. */
  ghost function SignalOf(env: Settings, s: Sys, e: Event): Option<Signal> {
    if e.Beating? then Some(Seen(ObservedWell(env, s, e.b.now)))
    else if e.Resubscribed? || e.Crashed? then Some(Reset)
    else None
  }

  /** The signals of a run. */
  ghost function Signals(env: Settings, s: Sys, events: seq<Event>): seq<Signal> {
    if |events| == 0 then []
    else
      var front := events[..|events| - 1];
      var rest := Signals(env, s, front);
      match SignalOf(env, Run(env, s, front), events[|events| - 1])
      case None => rest
      case Some(signal) => rest + [signal]
  }

  /** Between resets the calls strictly alternate, starting with SUPPRESS, and the last one tells the state. */
  lemma {:induction false} Alternate(signals: seq<Signal>)
    requires forall i | 0 <= i < |signals| :: signals[i].Seen?
    ensures var calls := ChangeCalls(signals);
            && (forall i | 0 <= i < |calls| ::
                  calls[i] == if i % 2 == 0 then Suppress(HeartbeatStep) else Revive(HeartbeatStep))
            && (|calls| % 2 == 1 <==> SettledAfter(signals))
  {
    if |signals| == 0 {
    } else {
      Alternate(signals[..|signals| - 1]);
    }
  }

  /** The locks, as every step leaves them. */
  ghost predicate LocksAgree(s: Sys, settled: bool) {
    s.suppressLock == settled && s.reviveLock == !settled
  }

  /** What a heartbeat does to its calls and locks. */
  lemma HeartbeatEdge(env: Settings, s: Sys, b: Beat)
    requires LocksAgree(s, s.suppressLock)
    ensures var r, well := HeartbeatDone(env, s, b), ObservedWell(env, s, b.now);
            && LocksAgree(r, well)
            && CallsBy(r.log, HeartbeatStep) == CallsBy(s.log, HeartbeatStep)
                 + (if well == s.suppressLock then []
                    else [if well then Suppress(HeartbeatStep) else Revive(HeartbeatStep)])
  {
    hide HealthChecked, NodesHealthy, DatastoreHealthy, SweptFrom, CallsBy, Launched, Adds, Settled, Alarmed;
    SettledEdge(s);
    if !NothingWanted(s) {
      var s1 := Examined(env, s, b.now);
      ExaminedAdds(env, s, b.now);
      AddsOnly(s.log, s1.log, {HealthCheck});
      SettledEdge(s1);
      var s2 := Alarmed(s1);
      AlarmedEdge(s1);
      var ds, server := DatastoreHealthy(s.tasks), NodesHealthy(env, s, Server, b.now);
      var agents := AgentsHealthy(env, s, b.now);
      var s3 := Launched(env, s2, ds, server, agents, b);
      LaunchedAdds(env, s2, ds, server, agents, b);
      AddsOnly(s2.log, s3.log, SCALE);
      LaunchedLocks(env, s2, ds, server, agents, b);
    }
  }

  /** What a heartbeat takes for settled: nothing is wanted, or a datastore runs and both servers and agents are
      healthy. */
  lemma ObservedMeans(env: Settings, s: Sys, now: int)
    ensures ObservedWell(env, s, now)
       <==> || (s.cfg.max.datastore == 0 && s.cfg.max.server == 0 && s.cfg.max.agent == 0)
            || (Health.SomeDatastore(s.tasks) && NodesHealthy(env, s, Server, now) && NodesHealthy(env, s, Agent, now))
  {
    Health.DatastoreMeans(s.tasks);
    Health.HealthCheckCleansOne(env, s, Server, now);
    hide Health.SomeDatastore, Health.Sane, HealthChecked, NodesHealthy, DatastoreHealthy;
  }

  /** A heartbeat that finds the framework settled changes nothing if it had found so before; else it refuses offers and
      sweeps the cached agent nodes once: strays go, and silent agents are killed. */
  lemma HeartbeatSettles(env: Settings, s: Sys, b: Beat)
    requires ObservedWell(env, s, b.now)
    ensures HeartbeatDone(env, s, b)
         == if s.suppressLock then s
            else s.(suppressLock := true, reviveLock := false, cache := Health.Mapped(s.tasks, s.cache),
                    log := s.log + [Suppress(HeartbeatStep)] + Health.SilentKills(s.tasks, s.cache))
  {
    Health.HealthCheckCleansOne(env, s, Server, b.now);
    Health.HealthCheckCleansOne(env, s, Agent, b.now);
    hide Health.Sane, Elapsed, HealthChecked, NodesHealthy, DatastoreHealthy, SweptFrom, Health.Mapped,
      Health.SilentKills;
    assert !NothingWanted(s) ==> Examined(env, s, b.now) == s;
    var s1 := Emit(s, Suppress(HeartbeatStep));
    Health.SweptFromEffect(s1, 0);
    assert s.cache[0..] == s.cache && s.cache[..0] == [];
    assert [] + Health.Mapped(s.tasks, s.cache) == Health.Mapped(s.tasks, s.cache);
  }

  lemma SettledEdge(s: Sys)
    requires LocksAgree(s, s.suppressLock)
    ensures LocksAgree(Settled(s), true)
    ensures CallsBy(Settled(s).log, HeartbeatStep)
         == CallsBy(s.log, HeartbeatStep) + if s.suppressLock then [] else [Suppress(HeartbeatStep)]
  {
    var s1 := Emit(s, Suppress(HeartbeatStep));
    CallsByEmit(s.log, Suppress(HeartbeatStep), HeartbeatStep);
    SweptAdds(s1, 0);
    AddsOnly(s1.log, SweptFrom(s1, 0).log, {AgentSweep});
  }

  lemma AlarmedEdge(s: Sys)
    requires LocksAgree(s, s.suppressLock)
    ensures LocksAgree(Alarmed(s), false)
    ensures CallsBy(Alarmed(s).log, HeartbeatStep)
         == CallsBy(s.log, HeartbeatStep) + if s.suppressLock then [Revive(HeartbeatStep)] else []
  {
    CallsByEmit(s.log, Revive(HeartbeatStep), HeartbeatStep);
  }

  lemma LaunchedLocks(env: Settings, s: Sys, ds: bool, server: bool, agents: bool, b: Beat)
    ensures var r := Launched(env, s, ds, server, agents, b);
            r.reviveLock == s.reviveLock && r.suppressLock == s.suppressLock
  {
    hide TaskStarted;
    var s1 := if !ds then TaskStarted(env, s, Datastore, b.ids.datastore, b.at.datastore)
              else if !server then TaskStarted(env, s, Server, b.ids.server, b.at.server) else s;
    TaskStartedLocks(env, s, Datastore, b.ids.datastore, b.at.datastore);
    TaskStartedLocks(env, s, Server, b.ids.server, b.at.server);
    TaskStartedLocks(env, s1, Agent, b.ids.agent, b.at.agent);
  }

  lemma TaskStartedLocks(env: Settings, s: Sys, k: Kind, id: string, at: nat)
    ensures var r := TaskStarted(env, s, k, id, at);
            r.reviveLock == s.reviveLock && r.suppressLock == s.suppressLock
  {
    hide ScaledFrom, Put, NewTask, Count;
    ScaledFromStore(SaveConfig(s), k, s.cfg.max.Of(k), Count(s.tasks, k), 0);
  }

  lemma ScaledToLocks(s: Sys, k: Kind, count: int)
    ensures ScaledTo(s, k, count).reviveLock == s.reviveLock && ScaledTo(s, k, count).suppressLock == s.suppressLock
  {
    hide ScaledFrom;
    ScaledFromStore(SaveConfig(s), k, count, s.cfg.max.Of(k), 0);
  }

  /** A step that is no heartbeat and no reset changes neither the locks nor the heartbeat's calls. */
  lemma OtherEdge(env: Settings, s: Sys, e: Event)
    requires !e.Beating? && !e.Resubscribed? && !e.Crashed?
    requires forall i | 0 <= i < |s.tasks| :: s.tasks[i].id != ""
    ensures var r := Apply(env, s, e);
            && r.reviveLock == s.reviveLock && r.suppressLock == s.suppressLock
            && CallsBy(r.log, HeartbeatStep) == CallsBy(s.log, HeartbeatStep)
  {
    hide CheckedFrom, OffersHandled, UpdateHandled, ScaledTo, SweptFrom, Cleaned, Adds, CallsBy;
    match e
    case Checking(now) =>
      CheckedAdds(env, s, 0, now);
      CheckedFrame(env, s, 0, now);
      AddsOnly(s.log, Apply(env, s, e).log, {CheckStateStep});
    case Offered(offers, accepted) =>
      OffersCalls(env, s, offers, accepted);
      Safety.OffersFrame(env, s, offers, accepted);
    case Updated(u, a, n) =>
      UpdateCalls(s, u, a, n);
      UpdateLocks(s, u, a, n);
    case ScaleRequest(k, count) =>
      ScaledToAdds(s, k, count);
      ScaledToLocks(s, k, count);
      AddsOnly(s.log, Apply(env, s, e).log, SCALE);
    case StopRequest(ds) =>
      StoppedAdds(s, ds);
      StoppedLocks(s, ds);
      AddsOnly(s.log, Apply(env, s, e).log, STOP);
    case StartRequest =>
      StartedAdds(s);
      StartedLocks(s);
      AddsNothing(s.log, SCALE);
      AddsOnly(s.log, Apply(env, s, e).log, SCALE);
    case Sweeping =>
      SweptAdds(s, 0);
      AddsOnly(s.log, Apply(env, s, e).log, {AgentSweep});
    case CleaningNodes =>
      CleanedAdds(s);
      AddsOnly(s.log, Apply(env, s, e).log, NODES);
    case NodeReported(_, _) =>
    case ClusterChanged(nodes, up) =>
  }

  lemma UpdateLocks(s: Sys, u: Update, mesosAgent: string, networks: nat)
    ensures var r := UpdateHandled(s, u, mesosAgent, networks);
            r.reviveLock == s.reviveLock && r.suppressLock == s.suppressLock
  {
    hide TaskOf, Recorded;
    var t := TaskOf(s, u);
    RecordedLocks(s, t, u, mesosAgent, networks);
    RecordedLocks(Emit(s, Kill(UpdateStep, u.task, u.agent)), t, u, mesosAgent, networks);
  }

  lemma RecordedLocks(s: Sys, t: Command, u: Update, mesosAgent: string, networks: nat)
    ensures var r := Recorded(s, t, u, mesosAgent, networks);
            r.reviveLock == s.reviveLock && r.suppressLock == s.suppressLock
  {
    hide Terminal, NodesForgotten, Put, Delete;
  }

  lemma StoppedLocks(s: Sys, ds: bool)
    ensures Stopped(s, ds).reviveLock == s.reviveLock && Stopped(s, ds).suppressLock == s.suppressLock
  {
    hide ScaledTo;
    var s1 := SaveConfig(s.(cfg := Remembered(s.cfg)));
    ScaledToLocks(s1, Agent, 0);
    ScaledToLocks(ScaledTo(s1, Agent, 0), Server, 0);
    ScaledToLocks(ScaledTo(ScaledTo(s1, Agent, 0), Server, 0), Datastore, 0);
  }

  lemma StartedLocks(s: Sys)
    ensures Started(s).reviveLock == s.reviveLock && Started(s).suppressLock == s.suppressLock
  {
    hide ScaledTo;
    var s1 := ScaledTo(s, Datastore, s.cfg.restore.datastore);
    var s2 := ScaledTo(s1, Server, s1.cfg.restore.server);
    ScaledToLocks(s, Datastore, s.cfg.restore.datastore);
    ScaledToLocks(s1, Server, s1.cfg.restore.server);
    ScaledToLocks(s2, Agent, s2.cfg.restore.agent);
  }

  /** One step of any kind: the locks follow its signal, and the heartbeat's calls are the one for the change. */
  lemma StepEdge(env: Settings, s: Sys, e: Event, settled: bool)
    requires LocksAgree(s, settled) && forall i | 0 <= i < |s.tasks| :: s.tasks[i].id != ""
    ensures var r, signal := Apply(env, s, e), SignalOf(env, s, e);
            if signal.None? then
              LocksAgree(r, settled) && CallsBy(r.log, HeartbeatStep) == CallsBy(s.log, HeartbeatStep)
            else
              && LocksAgree(r, signal.value == Seen(true))
              && CallsBy(r.log, HeartbeatStep) == CallsBy(s.log, HeartbeatStep) + ChangeCall(settled, signal.value)
  {
    hide CallsBy, ObservedWell, HeartbeatDone;
    if e.Beating? {
      HeartbeatEdge(env, s, e.b);
    } else if !e.Resubscribed? && !e.Crashed? {
      OtherEdge(env, s, e);
    }
  }

  lemma ChangeCallsMore(signals: seq<Signal>, signal: Signal)
    ensures ChangeCalls(signals + [signal]) == ChangeCalls(signals) + ChangeCall(SettledAfter(signals), signal)
    ensures SettledAfter(signals + [signal]) <==> signal == Seen(true)
  {
    assert (signals + [signal])[..|signals|] == signals;
  }

  /** Over every run from a (re)started heartbeat loop, with every other event interleaved: one lock is always the
      negation of the other, and the heartbeat's own calls are exactly the changes in what it observed. */
  lemma {:induction false} RunEdges(env: Settings, issued: set<string>, s: Sys, events: seq<Event>)
    requires Safety.Safe(env, false, issued, s) && FreshRun(issued, events) && LocksAgree(s, false)
    ensures var r, signals := Run(env, s, events), Signals(env, s, events);
            && LocksAgree(r, SettledAfter(signals))
            && CallsBy(r.log, HeartbeatStep) == CallsBy(s.log, HeartbeatStep) + ChangeCalls(signals)
  {
    hide Apply, CallsBy, Safety.Safe, Safety.LifeCycle, SignalOf, LocksAgree, FreshIds;
    if |events| == 0 {
    } else {
      var front, last := events[..|events| - 1], events[|events| - 1];
      RunEdges(env, issued, s, front);
      Safety.RunSafe(env, false, issued, s, front);
      var t := Run(env, s, front);
      Safety.SafeLifeCycle(env, false, Issued(issued, front), t);
      Safety.LifeCycleNames(Issued(issued, front), t);
      var signals := Signals(env, s, front);
      StepEdge(env, t, last, SettledAfter(signals));
      var signal := SignalOf(env, t, last);
      if signal.Some? {
        ChangeCallsMore(signals, signal.value);
      }
    }
  }
}
