/** Answering status updates over whole runs: acknowledgements, and updates about tasks that were forgotten. */
module Orphans {
  import opened Types
  import opened Store
  import opened Nodes
  import opened Offers
  import opened Scaling
  import opened Scheduling
  import opened Updates
  import opened Machine
  import opened Safety
  import opened Calls
  import Runs

  lemma HeartbeatAdds(env: Settings, s: Sys, b: Beat)
    ensures Adds(s.log, HeartbeatDone(env, s, b).log, BEAT)
  {
    hide HealthChecked, NodesHealthy, DatastoreHealthy, SweptFrom, Launched, Adds, Settled, Alarmed;
    SettledAdds(s);
    if !NothingWanted(s) {
      var s1 := Examined(env, s, b.now);
      ExaminedAdds(env, s, b.now);
      AddsMore(s.log, s1.log, {HealthCheck}, BEAT);
      SettledAdds(s1);
      AddsTrans(s.log, s1.log, Settled(s1).log, BEAT);
      var s2 := Alarmed(s1);
      AlarmedAdds(s1);
      AddsTrans(s.log, s1.log, s2.log, BEAT);
      var ds, server := DatastoreHealthy(s.tasks), NodesHealthy(env, s, Server, b.now);
      var agents := AgentsHealthy(env, s, b.now);
      var s3 := Launched(env, s2, ds, server, agents, b);
      LaunchedAdds(env, s2, ds, server, agents, b);
      AddsMore(s2.log, s3.log, SCALE, BEAT);
      AddsTrans(s.log, s2.log, s3.log, BEAT);
    }
  }

  lemma SettledAdds(s: Sys)
    ensures Adds(s.log, Settled(s).log, BEAT)
  {
    hide Adds, SweptFrom;
    var s1 := Emit(s, Suppress(HeartbeatStep));
    AddsNothing(s.log, BEAT);
    AddsOne(s.log, Suppress(HeartbeatStep), BEAT);
    SweptAdds(s1, 0);
    AddsMore(s1.log, SweptFrom(s1, 0).log, {AgentSweep}, BEAT);
    AddsTrans(s.log, s1.log, SweptFrom(s1, 0).log, BEAT);
  }

  lemma AlarmedAdds(s: Sys)
    ensures Adds(s.log, Alarmed(s).log, BEAT)
  {
    AddsNothing(s.log, BEAT);
    AddsOne(s.log, Revive(HeartbeatStep), BEAT);
  }

  // ---------- Acknowledgements ----------

  /** The acknowledgements the updates of a run ask for. */
  function AcksFor(events: seq<Event>): seq<Call> {
    if |events| == 0 then []
    else
      var front, last := events[..|events| - 1], events[|events| - 1];
      if last.Updated? then AcksFor(front) + AckFor(last.u) else AcksFor(front)
  }

  lemma StepAcks(env: Settings, s: Sys, e: Event)
    requires forall i | 0 <= i < |s.tasks| :: s.tasks[i].id != ""
    ensures Acks(Apply(env, s, e).log) == if e.Updated? then Acks(s.log) + AckFor(e.u) else Acks(s.log)
  {
    hide CheckedFrom, OffersHandled, UpdateHandled, ScaledTo, SweptFrom, Cleaned, Adds, Acks, HeartbeatDone, CallsBy;
    var r := Apply(env, s, e);
    match e
    case Beating(b) =>
      HeartbeatAdds(env, s, b);
      AddsOnly(s.log, r.log, BEAT);
    case Checking(now) =>
      CheckedAdds(env, s, 0, now);
      AddsOnly(s.log, r.log, {CheckStateStep});
    case Offered(offers, accepted) =>
      OffersCalls(env, s, offers, accepted);
    case Updated(u, a, n) => UpdateCalls(s, u, a, n);
    case ScaleRequest(k, count) =>
      ScaledToAdds(s, k, count);
      AddsOnly(s.log, r.log, SCALE);
    case StopRequest(ds) =>
      StoppedAdds(s, ds);
      AddsOnly(s.log, r.log, STOP);
    case StartRequest =>
      StartedAdds(s);
      AddsNothing(s.log, SCALE);
      AddsOnly(s.log, r.log, SCALE);
    case Sweeping =>
      SweptAdds(s, 0);
      AddsOnly(s.log, r.log, {AgentSweep});
    case CleaningNodes =>
      CleanedAdds(s);
      AddsOnly(s.log, r.log, NODES);
    case NodeReported(_, _) =>
    case ClusterChanged(nodes, up) =>
    case Resubscribed =>
    case Crashed =>
  }

  /** Over every run: the acknowledgements sent are exactly one for each update that carries a UUID, in order. */
  lemma {:induction false} RunAcks(env: Settings, issued: set<string>, s: Sys, events: seq<Event>)
    requires Safe(env, false, issued, s) && FreshRun(issued, events)
    ensures Acks(Run(env, s, events).log) == Acks(s.log) + AcksFor(events)
  {
    hide Apply, Acks, Safe, AckFor;
    if |events| == 0 {
    } else {
      var front := events[..|events| - 1];
      RunAcks(env, issued, s, front);
      RunSafe(env, false, issued, s, front);
      SafeLifeCycle(env, false, Issued(issued, front), Run(env, s, front));
      LifeCycleNames(Issued(issued, front), Run(env, s, front));
      StepAcks(env, Run(env, s, front), events[|events| - 1]);
    }
  }

  // ---------- Orphans ----------

  /** An update for a task the store does not know kills it, unless Mesos lost it, answers the update, and changes
      nothing else but the entry under the empty key: no stored task, no count, no node, no configuration. */
  lemma UnknownUpdate(s: Sys, u: Update, mesosAgent: string, networks: nat)
    requires !HasId(s.tasks, u.task)
    ensures var r := UpdateHandled(s, u, mesosAgent, networks);
            && r == s.(anonymous := r.anonymous, log := r.log)
            && r.log == s.log + (if u.status == Lost then [] else [Kill(UpdateStep, u.task, u.agent)]) + AckFor(u)
            && r.anonymous == if u.status in FINAL then None
                              else Some(Told(EMPTY, u, mesosAgent, networks))
  {
    var t := EMPTY.(state := Reported(u.status));
    assert TaskOf(s, u) == t;
    hide TaskOf, Recorded;
    RecordedEmpty(s, t, u, mesosAgent, networks);
    RecordedEmpty(Emit(s, Kill(UpdateStep, u.task, u.agent)), t, u, mesosAgent, networks);
  }

  /** The statuses after which a task is over for the framework. */
  const FINAL := {Finished, Failed, Killed, Error, Lost}

  /** A task with what an update tells about it: its status, and where it runs if it is running. */
  function Told(t: Command, u: Update, mesosAgent: string, networks: nat): Command {
    var v := t.(state := Reported(u.status));
    if u.status == Running then v.(agent := u.agent, mesosAgent := mesosAgent, networks := networks) else v
  }

  lemma RecordedEmpty(s: Sys, t: Command, u: Update, mesosAgent: string, networks: nat)
    requires t == EMPTY.(state := Reported(u.status))
    ensures var r := Recorded(s, t, u, mesosAgent, networks);
            && r == s.(anonymous := r.anonymous)
            && r.anonymous == if u.status in FINAL then None else Some(Told(EMPTY, u, mesosAgent, networks))
  {
    hide NodeDeleted;
  }

  /** Once the store does not know a task, whatever happens to its command: every later update about it that is not
      TASK_LOST, after any run, sends exactly one kill for it, and no stored task is touched. */
  lemma OrphanKilled(env: Settings, issued: set<string>, s: Sys, events: seq<Event>, u: Update, mesosAgent: string,
          networks: nat)
    requires Safe(env, false, issued, s) && FreshRun(issued, events)
    requires u.task in issued && !HasId(s.tasks, u.task) && !u.status.Lost?
    ensures var r := Run(env, s, events);
            var r' := Apply(env, r, Updated(u, mesosAgent, networks));
            && r'.tasks == r.tasks && r'.cfg == r.cfg && r'.queue == r.queue
            && r'.log == r.log + [Kill(UpdateStep, u.task, u.agent)] + AckFor(u)
  {
    Runs.RunGone(env, issued, s, events, u.task);
    hide Run, FreshRun, Safe, UpdateHandled;
    UnknownUpdate(Run(env, s, events), u, mesosAgent, networks);
  }

  /** One task has a new state and may have a new place; the rest of it and every other task are as before. */
  ghost predicate StateSet(ts: seq<Command>, us: seq<Command>, p: nat, status: TaskStatus) {
    && p < |ts| == |us|
    && us == ts[p := us[p]]
    && us[p].state == Reported(status)
    && us[p] == ts[p].(state := us[p].state, agent := us[p].agent,
                       mesosAgent := us[p].mesosAgent, networks := us[p].networks)
  }

  /** An update for a stored task changes that task alone: a terminal one removes it, any other one sets its state. */
  lemma KnownUpdate(s: Sys, u: Update, mesosAgent: string, networks: nat, p: nat)
    requires DistinctIds(s.tasks) && forall i | 0 <= i < |s.tasks| :: s.tasks[i].id != "" && s.tasks[i].name.Some?
    requires p < |s.tasks| && s.tasks[p].id == u.task
    ensures var r := UpdateHandled(s, u, mesosAgent, networks);
            if Terminal(u.status) then r.tasks == RemoveAt(s.tasks, p)
            else StateSet(s.tasks, r.tasks, p, u.status)
  {
    IdsMakeKeys(s.tasks);
    assert IndexOfId(s.tasks, u.task) == p;
    hide Recorded, DistinctIds, StateSet;
    RecordedAt(s, u, mesosAgent, networks, p);
  }

  lemma RecordedAt(s: Sys, u: Update, mesosAgent: string, networks: nat, p: nat)
    requires DistinctKeys(s.tasks) && p < |s.tasks| && s.tasks[p].name.Some?
    ensures var r := Recorded(s, s.tasks[p].(state := Reported(u.status)), u, mesosAgent, networks);
            if Terminal(u.status) then r.tasks == RemoveAt(s.tasks, p)
            else StateSet(s.tasks, r.tasks, p, u.status)
  {
    hide NodesForgotten;
    DeleteAt(s.tasks, p);
    var t := s.tasks[p].(state := Reported(u.status));
    PutAt(s.tasks, p, t, 0);
    PutAt(s.tasks, p, t.(mesosAgent := mesosAgent, networks := networks, agent := u.agent), 0);
    hide DistinctKeys, Put, Delete, RemoveAt;
  }

  /** What an update about a stored task changes in full: a final one removes that task, and possibly its node; any
      other one stores what it tells, and one about a running server also remembers the host port the server is
      reached at. It is acknowledged. */
  lemma UpdateStores(s: Sys, u: Update, mesosAgent: string, networks: nat, p: nat)
    requires DistinctIds(s.tasks) && forall i | 0 <= i < |s.tasks| :: s.tasks[i].id != "" && s.tasks[i].name.Some?
    requires p < |s.tasks| && s.tasks[p].id == u.task
    ensures var r, t := UpdateHandled(s, u, mesosAgent, networks), s.tasks[p];
            if u.status in FINAL then
              r == s.(tasks := s.tasks[..p] + s.tasks[p + 1..], cluster := r.cluster, cache := r.cache, log := r.log)
            else
              r == s.(tasks := s.tasks[p := Told(t, u, mesosAgent, networks)], log := s.log + AckFor(u), cfg :=
                if u.status == Running && t.name == Some(Server) && |t.mappings| > 0 then
                  s.cfg.(serverPort := t.mappings[0])
                else s.cfg)
  {
    IdsMakeKeys(s.tasks);
    assert IndexOfId(s.tasks, u.task) == p;
    hide DistinctIds, Recorded;
    RecordedInFull(s, u, mesosAgent, networks, p);
    assert s.log + [] == s.log;
  }

  lemma RecordedInFull(s: Sys, u: Update, mesosAgent: string, networks: nat, p: nat)
    requires DistinctKeys(s.tasks) && p < |s.tasks| && s.tasks[p].name.Some?
    ensures var t := s.tasks[p];
            var r := Recorded(s, t.(state := Reported(u.status)), u, mesosAgent, networks);
            if u.status in FINAL then
              && r == s.(tasks := s.tasks[..p] + s.tasks[p + 1..], cluster := r.cluster, cache := r.cache, log := r.log)
              && r == NodesForgotten(s.(tasks := s.tasks[..p] + s.tasks[p + 1..]), t.(state := Reported(u.status)))
            else
              r == s.(tasks := s.tasks[p := Told(t, u, mesosAgent, networks)], cfg :=
                if u.status == Running && t.name == Some(Server) && |t.mappings| > 0 then
                  s.cfg.(serverPort := t.mappings[0])
                else s.cfg)
  {
    hide NodesForgotten;
    DeleteAt(s.tasks, p);
    var t := s.tasks[p].(state := Reported(u.status));
    PutAt(s.tasks, p, t, 0);
    PutAt(s.tasks, p, t.(mesosAgent := mesosAgent, networks := networks, agent := u.agent), 0);
    hide DistinctKeys, Put, Delete;
  }

  /** The first cached node that carries the task ID has this name. */
  ghost predicate Its(cache: seq<Node>, id: string, name: string) {
    exists q: nat :: FirstCarrying(cache, id, q) && cache[q].name == name
  }

  /** A final update about a stored task takes its node along: an agent's from Kubernetes, with every unready node,
      and from the cache; a server's from the cache alone; a datastore's none.  Every other named node stays. */
  lemma NodeForgotten(s: Sys, u: Update, mesosAgent: string, networks: nat, p: nat)
    requires DistinctIds(s.tasks) && forall i | 0 <= i < |s.tasks| :: s.tasks[i].id != "" && s.tasks[i].name.Some?
    requires p < |s.tasks| && s.tasks[p].id == u.task && u.status in FINAL && DistinctNames(s.cluster)
    ensures var r, t := UpdateHandled(s, u, mesosAgent, networks), s.tasks[p];
            match t.name.value
            case Datastore => r.cluster == s.cluster && r.cache == s.cache
            case Server =>
              && r.cluster == s.cluster
              && forall n: Node | n.name != "" :: n in r.cache <==> n in s.cache && !Its(s.cache, t.id, n.name)
            case Agent =>
              && (forall n: Node | n.name != "" :: n in r.cluster
                   <==> n in s.cluster
                        && (s.kubeUp ==> !Its(s.cache, t.id, n.name) && n.ready !in {ReadyFalse, ReadyUnknown}))
              && (forall n: Node | n.name != "" :: n in r.cache
                   <==> n in s.cache && !Its(s.cache, t.id, n.name)
                        && (s.kubeUp ==> forall m | m in s.cluster && m.ready in {ReadyFalse, ReadyUnknown} ::
                              m.name != n.name))
  {
    IdsMakeKeys(s.tasks);
    assert IndexOfId(s.tasks, u.task) == p;
    RecordedInFull(s, u, mesosAgent, networks, p);
    hide DistinctIds, DistinctKeys, Recorded, NodesForgotten;
    var t := s.tasks[p];
    var s1 := s.(tasks := s.tasks[..p] + s.tasks[p + 1..]);
    ForgottenNodes(s1, t.(state := Reported(u.status)));
  }

  lemma ForgottenNodes(s: Sys, t: Command)
    requires DistinctNames(s.cluster) && t.name.Some?
    ensures var r := NodesForgotten(s, t);
            match t.name.value
            case Datastore => r == s
            case Server =>
              && r == s.(cache := r.cache)
              && forall n: Node | n.name != "" :: n in r.cache <==> n in s.cache && !Its(s.cache, t.id, n.name)
            case Agent =>
              && (forall n: Node | n.name != "" :: n in r.cluster
                   <==> n in s.cluster
                        && (s.kubeUp ==> !Its(s.cache, t.id, n.name) && n.ready !in {ReadyFalse, ReadyUnknown}))
              && (forall n: Node | n.name != "" :: n in r.cache
                   <==> n in s.cache && !Its(s.cache, t.id, n.name)
                        && (s.kubeUp ==> forall m | m in s.cluster && m.ready in {ReadyFalse, ReadyUnknown} ::
                              m.name != n.name))
  {
    var name := NodeOf(s.cache, t.id).name;
    ItsName(s.cache, t.id);
    hide Without, NodeDeleted, Its, NodeOf, DistinctNames;
    if t.name == Some(Server) {
      WithoutIn(s.cache, {name});
    } else if t.name == Some(Agent) {
      AgentNode(s, t.id, name);
    }
  }

  lemma AgentNode(s: Sys, id: string, name: string)
    requires DistinctNames(s.cluster) && forall other | other != "" :: Its(s.cache, id, other) <==> other == name
    ensures var s1 := NodeDeleted(s, name);
            var cache := Without(s1.cache, {name});
            && (forall n: Node | n.name != "" :: n in s1.cluster
                 <==> n in s.cluster
                      && (s.kubeUp ==> !Its(s.cache, id, n.name) && n.ready !in {ReadyFalse, ReadyUnknown}))
            && (forall n: Node | n.name != "" :: n in cache
                 <==> n in s.cache && !Its(s.cache, id, n.name)
                      && (s.kubeUp ==> forall m | m in s.cluster && m.ready in {ReadyFalse, ReadyUnknown} ::
                            m.name != n.name))
  {
    DeletedEffect(s, name);
    WithoutIn(NodeDeleted(s, name).cache, {name});
    hide Without, NodeDeleted, Its, DistinctNames;
  }

  lemma ItsName(cache: seq<Node>, id: string)
    ensures forall name | name != "" :: Its(cache, id, name) <==> name == NodeOf(cache, id).name
  {
    NodeOfFirst(cache, id);
    hide NodeOf;
    if q: nat :| FirstCarrying(cache, id, q) {
      assert forall r: nat :: FirstCarrying(cache, id, r) ==> r == q;
    }
  }
}
