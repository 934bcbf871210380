/** The reconciling steps: health checks, starting tasks, the heartbeat and CheckState. */
module Scheduling {
  import opened Types
  import opened Store
  import opened Nodes
  import opened Ports
  import opened Scaling

  // ---------- Starting tasks ----------

  /** The host ports a new task asks for; 0 leaves the port to the framework. */
  function Template(env: Settings, cfg: Config, k: Kind): seq<nat> {
    match k
    case Datastore => [0]
    case Server => [U32(cfg.serverPort), 0]
    case Agent => if env.agentTcpPort > 0 then [0, 0, 0] else [0, 0]
  }

  function NewTask(env: Settings, cfg: Config, k: Kind, id: string): Command {
    var ports := Template(env, cfg, k);
    Command(Some(k), id, Fresh, None, cfg.max.Of(k), ports, ports,
            env.cpu.Of(k), env.memory.Of(k), env.disk.Of(k), "", "", 1)
  }

  /** StartDatastore, StartK3SServer and StartK3SAgent: add one task below the wanted count; above it
      servers and agents are scaled down to it. */
  function TaskStarted(env: Settings, s: Sys, k: Kind, id: string, at: nat): Sys {
    var n, max := Count(s.tasks, k), s.cfg.max.Of(k);
    if n < max then s.(tasks := Put(s.tasks, NewTask(env, s.cfg, k, id), at))
    else if n > max && !k.Datastore? then Scaled(s, k, max, n)
    else s
  }

  // ---------- Health checks ----------

  predicate DatastoreHealthy(ts: seq<Command>) {
    exists i :: 0 <= i < |ts| && ts[i].name == Some(Datastore) && ts[i].state == Reported(Running) && ts[i].networks > 0
  }

  /** At least `limit` has passed since a time; the zero time is longer ago than any limit. */
  predicate Elapsed(now: int, since: Option<int>, limit: int) {
    since.None? || now - since.value >= limit
  }

  /** What the walk over the tasks of a kind finds: no fault and whether some node is Ready,
      or the first faulty task and whether its time is up. */
  datatype Verdict = Sound(ready: bool) | Faulty(position: nat, expired: bool)

  function Inspect(s: Sys, k: Kind, now: int, limit: int, i: nat, ready: bool): (v: Verdict)
    requires i <= |s.tasks|
    ensures v.Faulty? ==> i <= v.position < |s.tasks| && s.tasks[v.position].name == Some(k)
    decreases |s.tasks| - i
  {
    if i == |s.tasks| then Sound(ready)
    else if s.tasks[i].name != Some(k) then Inspect(s, k, now, limit, i + 1, ready)
    else
      var t := s.tasks[i];
      var node := NodeOf(s.cache, t.id);
      if node.name == "" then Faulty(i, Elapsed(now, t.since, limit))
      else if Unready(node) && Elapsed(now, t.since, limit) then Faulty(i, true)
      else Inspect(s, k, now, limit, i + 1, ready || node.ready.ReadyTrue?)
  }

  /** The answer of healthCheckNode. */
  predicate NodesHealthy(env: Settings, s: Sys, k: Kind, now: int) {
    Count(s.tasks, k) == s.cfg.max.Of(k) && Inspect(s, k, now, env.nodeTimeout, 0, false) == Sound(true)
  }

  /** cleanupUnreadyTask: once the cleanup time is up, an unlaunched task is forgotten and a launched one killed. */
  function UnreadyCleaned(env: Settings, s: Sys, i: nat, now: int): (r: Sys)
    requires i < |s.tasks|
    ensures OnlyStoreAndNodes(s, r)
  {
    var t := s.tasks[i];
    if !Elapsed(now, t.since, env.cleanupTime) then s
    else if t.mesosAgent == "" then s.(tasks := RemoveAt(s.tasks, i))
    else Emit(s, Kill(HealthCheck, t.id, t.mesosAgent))
  }

  /** The effect of healthCheckNode. */
  function HealthChecked(env: Settings, s: Sys, k: Kind, now: int): (r: Sys)
    ensures OnlyStoreAndNodes(s, r)
  {
    if Count(s.tasks, k) != s.cfg.max.Of(k) then s
    else
      match Inspect(s, k, now, env.nodeTimeout, 0, false)
      case Sound(_) => s
      case Faulty(i, expired) => if expired then UnreadyCleaned(env, s, i, now) else s
  }

  // ---------- Sweeping the node cache ----------

  predicate OccursAt(s: string, part: string, i: nat) { i + |part| <= |s| && s[i..i + |part|] == part }

  predicate Contains(s: string, part: string) { exists i: nat :: i <= |s| && OccursAt(s, part, i) }

  /** The key pattern of cached agent nodes. */
  predicate IsAgentNode(n: Node) { Contains(n.name, "agent") }

  /** removeNotExistingAgents from position `i` of the cache on. */
  function SweptFrom(s: Sys, i: nat): (r: Sys)
    requires i <= |s.cache|
    ensures OnlyNodes(s, r)
    decreases |s.cache| - i
  {
    if i == |s.cache| then s
    else
      var n := s.cache[i];
      var t := TaskOfNode(s.tasks, n, Agent);
      if !IsAgentNode(n) then SweptFrom(s, i + 1)
      else if t.id == "" then SweptFrom(s.(cache := s.cache[..i] + s.cache[i + 1..]), i)
      else if n.ready.ReadyUnknown? && t.state == Reported(Running) then
        SweptFrom(Emit(s, Kill(AgentSweep, t.id, t.agent)), i + 1)
      else SweptFrom(s, i + 1)
  }

  // ---------- Heartbeat ----------

  /** What a heartbeat takes from outside: the time, fresh task IDs and where new keys land in the store. */
  datatype Beat = Beat(now: int, ids: PerKind<string>, at: PerKind<nat>)

  /** Something is unhealthy: ask for offers again, once. */
  function Alarmed(s: Sys): Sys {
    var s1 := s.(reviveLock := true, suppressLock := false);
    if s.reviveLock then s1 else Emit(s1, Revive(HeartbeatStep))
  }

  /** All is well, or nothing is wanted: refuse offers, once, and sweep the cache. */
  function Settled(s: Sys): Sys {
    if s.suppressLock then s
    else SweptFrom(Emit(s, Suppress(HeartbeatStep)), 0).(suppressLock := true, reviveLock := false)
  }

  predicate NothingWanted(s: Sys) { s.cfg.max == PerKind(0, 0, 0) }

  /** The state after the health checks of a heartbeat. */
  function Examined(env: Settings, s: Sys, now: int): Sys {
    HealthChecked(env, HealthChecked(env, s, Server, now), Agent, now)
  }

  predicate AgentsHealthy(env: Settings, s: Sys, now: int) {
    NodesHealthy(env, HealthChecked(env, s, Server, now), Agent, now)
  }

  /** Whether a heartbeat takes the framework to be settled. */
  predicate AllWell(env: Settings, s: Sys, now: int) {
    DatastoreHealthy(s.tasks) && NodesHealthy(env, s, Server, now) && AgentsHealthy(env, s, now)
  }

  predicate ObservedWell(env: Settings, s: Sys, now: int) {
    NothingWanted(s) || AllWell(env, s, now)
  }

  /** The start order: datastore; server once the datastore runs; agents once the server is healthy. */
  function Launched(env: Settings, s: Sys, ds: bool, server: bool, agents: bool, b: Beat): Sys {
    var s1 := if !ds then TaskStarted(env, s, Datastore, b.ids.datastore, b.at.datastore)
              else if !server then TaskStarted(env, s, Server, b.ids.server, b.at.server) else s;
    if server && !agents then TaskStarted(env, s1, Agent, b.ids.agent, b.at.agent) else s1
  }

  function HeartbeatDone(env: Settings, s: Sys, b: Beat): Sys {
    if NothingWanted(s) then Settled(s)
    else
      var ds, server := DatastoreHealthy(s.tasks), NodesHealthy(env, s, Server, b.now);
      var agents := AgentsHealthy(env, s, b.now);
      var s1 := Examined(env, s, b.now);
      if ds && server && agents then Settled(s1)
      else Launched(env, Alarmed(s1), ds, server, agents, b)
  }

  // ---------- CheckState ----------

  /** A fresh task is scheduled while its kind has no more tasks than instances wanted. */
  predicate Wanted(ts: seq<Command>, t: Command) {
    t.state.Fresh? && t.name.Some? && Count(ts, t.name.value) <= t.instances
  }

  /** CheckState schedules the task at position `i`: ports, channel, store. */
  function Scheduled(env: Settings, s: Sys, i: nat, now: int): Sys
    requires i < |s.tasks|
  {
    var t := s.tasks[i];
    var u := Promoted(env, s.tasks, t, now);
    Emit(s, Revive(CheckStateStep)).(
      tasks := s.tasks[i := u], queue := s.queue + [u], sent := s.sent + [u.id],
      exhausted := s.exhausted || HostPort(env, s.tasks, |t.discovery|) == 0)
  }

  /** CheckState from position `i` of the store on. */
  function CheckedFrom(env: Settings, s: Sys, i: nat, now: int): Sys
    requires i <= |s.tasks|
    decreases |s.tasks| - i
  {
    if i == |s.tasks| then s
    else
      var t := s.tasks[i];
      if t.id == "" || t.name.None? then CheckedFrom(env, s, i + 1, now)
      else if Wanted(s.tasks, t) then CheckedFrom(env, Scheduled(env, s, i, now), i + 1, now)
      else if t.state.Fresh? && t.since.None? then CheckedFrom(env, s.(tasks := RemoveAt(s.tasks, i)), i, now)
      else CheckedFrom(env, s, i + 1, now)
  }
}
