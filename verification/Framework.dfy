/** The framework process.  The scheduler, the API, the Kubernetes controller and the Redis client of the source
    all point at the same store and configuration; here these are the fields of one object. */
module FrameworkProcess {
  import opened Types
  import opened Store
  import opened Nodes
  import opened Ports
  import opened Offers
  import opened Scaling
  import opened Scheduling
  import opened Updates
  import opened Machine
  import opened Safety
  import Runs

  class Framework {
    const env: Settings

    var tasks: seq<Command>
    var anonymous: Option<Command>
    var cache: seq<Node>
    var saved: Config
    var cfg: Config
    var queue: seq<Command>
    var reviveLock: bool
    var suppressLock: bool
    var cluster: seq<Node>
    var kubeUp: bool

    ghost var log: seq<Call>
    ghost var sent: seq<string>
    ghost var lost: seq<string>
    ghost var exhausted: bool

    ghost function View(): Sys
      reads this
    {
      Sys(tasks, anonymous, cache, saved, cfg, queue, reviveLock, suppressLock, cluster, kubeUp,
          log, sent, lost, exhausted)
    }

    /** One entry per key, and port lists the two rewrites can walk together. */
    ghost predicate Valid()
      reads this
    {
      && DistinctKeys(tasks)
      && DistinctNames(cluster)
      && DistinctNames(cache)
      && Shaped(tasks)
    }

    // ---------- app.go ----------

    /** The first start, over an empty store: the configuration is saved, and nothing has happened yet. */
    constructor (env: Settings, config: Config, nodes: seq<Node>)
      requires DistinctNames(nodes)
      ensures Valid() && Runs.Booted(View())
      ensures this.env == env && cfg == saved == config && cluster == nodes && cache == []
      ensures reviveLock && !suppressLock
    {
      this.env := env;
      cfg, saved := config, config;
      tasks, anonymous, cache, queue := [], None, [], [];
      reviveLock, suppressLock := true, false;
      cluster, kubeUp := nodes, true;
      log, sent, lost, exhausted := [], [], [], false;
    }

    // ---------- redis/redis.go ----------

    method CountRedisKey(k: Kind) returns (count: nat)
      ensures count == Count(tasks, k)
    {
      count := 0;
      for i := 0 to |tasks|
        invariant count == Count(tasks[..i], k)
      {
        assert tasks[..i + 1][..i] == tasks[..i];
        if tasks[i].name == Some(k) {
          count := count + 1;
        }
      }
      assert tasks[..|tasks|] == tasks;
    }

    /** The stored task with an ID, or the empty command. */
    method GetTaskFromEvent(u: Update) returns (t: Command)
      ensures var p := IndexOfId(tasks, u.task);
              t == if p < |tasks| then tasks[p].(state := Reported(u.status)) else EMPTY
    {
      for i := 0 to |tasks|
        invariant forall j | 0 <= j < i :: tasks[j].id != u.task
      {
        if tasks[i].id == u.task {
          return tasks[i].(state := Reported(u.status));
        }
      }
      return EMPTY;
    }

    method SaveTaskRedis(t: Command, at: nat)
      modifies this`tasks, this`anonymous
      ensures View() == if t.name.None? then old(View()).(anonymous := Some(t))
                        else old(View()).(tasks := Put(old(tasks), t, at))
    {
      if t.name.None? {
        anonymous := Some(t);
      } else {
        tasks := Put(tasks, t, at);
      }
    }

    method DelTaskKey(t: Command)
      modifies this`tasks, this`anonymous
      ensures View() == Forgotten(old(View()), t)
    {
      if t.name.None? {
        anonymous := None;
      } else {
        tasks := Delete(tasks, t.name, t.id);
      }
    }

    method SaveConfig()
      modifies this`saved
      ensures View() == Types.SaveConfig(old(View()))
    {
      saved := cfg;
    }

    // ---------- mesos/mesos.go ----------

    ghost method Call(c: Call)
      modifies this`log
      ensures View() == Emit(old(View()), c)
    {
      log := log + [c];
    }

    // ---------- controller/controller.go ----------

    /** The loop over the keys of a kind does the same lookup every time: it is one direct lookup. */
    method GetTaskFromK8Node(n: Node, k: Kind) returns (t: Command)
      ensures t == TaskOfNode(tasks, n, k)
    {
      for i := 0 to |tasks|
        invariant TaskIdOf(n) == "" || IndexOfKey(tasks, Some(k), TaskIdOf(n)) == |tasks|
               || forall j | 0 <= j < i :: tasks[j].name != Some(k)
      {
        if tasks[i].name == Some(k) {
          var id := n.labelId;
          if id == "" {
            id := n.annotationId;
          }
          if id != "" {
            var p := IndexOfKey(tasks, Some(k), id);
            if p < |tasks| {
              return tasks[p];
            }
          }
        }
      }
      return EMPTY;
    }

    method GetK8NodeFromTask(id: string) returns (n: Node)
      ensures n == NodeOf(cache, id)
    {
      for i := 0 to |cache|
        invariant NodeOf(cache, id) == NodeOf(cache[i..], id)
      {
        if TaskIdOf(cache[i]) == id {
          return cache[i];
        }
        assert cache[i..][1..] == cache[i + 1..];
      }
      return NO_NODE;
    }

    /** CleanupNodes and DeleteNode call each other; every call the first one makes leaves fewer unready nodes. */
    method CleanupNodes()
      requires DistinctNames(cluster)
      modifies this`cluster, this`cache, this`log
      ensures View() == Cleaned(old(View()))
      ensures old(Valid()) ==> Valid()
      decreases |UnreadyOf(cluster)|, 0
    {
      hide PartlyCleaned, NodeDeleted, Without, UnreadyOf, KillsFor, KillFor, DistinctNames, DistinctKeys, Shaped;
      if !kubeUp {
        return;
      }
      ghost var s0 := View();
      var nodes := cluster;
      ghost var us, seen := UnreadyOf(nodes), [];
      CleanStart(s0);
      for i := 0 to |nodes|
        invariant View() == PartlyCleaned(s0, seen)
        invariant us == seen + UnreadyOf(nodes[i..])
      {
        var node := nodes[i];
        UnreadyStep(nodes, i);
        if Unready(node) {
          CleanRound(s0, nodes, seen, node);
          RemoveUnreadyNode(node);
          seen := seen + [node];
        }
      }
      CleanEnd(s0, seen, nodes);
    }

    /** One unready node of a listing: out of Kubernetes and Redis, and a kill for the task it belongs to. */
    method RemoveUnreadyNode(node: Node)
      requires DistinctNames(cluster)
      modifies this`cluster, this`cache, this`log
      ensures var s := NodeDeleted(old(View()), node.name);
              View() == Emit(s.(cache := Without(s.cache, {node.name})), KillFor(s.tasks, node))
      decreases |UnreadyOf(if kubeUp then Without(cluster, {node.name}) else cluster)|, 2
    {
      DeleteNode(node.name);
      var t := GetTaskFromK8Node(node, Agent);
      if t.id == "" {
        t := GetTaskFromK8Node(node, Server);
      }
      cache := Without(cache, {node.name});
      Call(Kill(NodeCleanup, t.id, t.agent));
    }

    method DeleteNode(name: string)
      requires DistinctNames(cluster)
      modifies this`cluster, this`cache, this`log
      ensures View() == NodeDeleted(old(View()), name)
      ensures old(Valid()) ==> Valid()
      decreases |UnreadyOf(if kubeUp then Without(cluster, {name}) else cluster)|, 1
    {
      if kubeUp {
        WithoutIn(cluster, {name});
        cluster := Without(cluster, {name});
      }
      CleanupNodes();
    }

    // ---------- scheduler/scheduler.go ----------

    method PortInUse(port: nat) returns (used: bool)
      ensures used <==> InUse(tasks, port)
    {
      for i := 0 to |tasks|
        invariant forall m | 0 <= m < i :: port !in tasks[m].discovery
      {
        var ports := tasks[i].discovery;
        for j := 0 to |ports|
          invariant forall m | 0 <= m < j :: ports[m] != port
        {
          if ports[j] == port {
            return true;
          }
        }
      }
      return false;
    }

    method GetRandomHostPort(num: nat) returns (port: nat)
      ensures port == HostPort(env, tasks, num)
    {
      var i := env.portFrom + 1;
      while i < env.portTo
        invariant HostPort(env, tasks, num) == SearchFrom(tasks, i, env.portTo, num)
      {
        port := U32(i);
        var use := false;
        var x := 0;
        while x < num
          invariant if use then exists y: nat :: y < num && InUse(tasks, PortAt(port, y))
                    else 0 <= x <= num && forall y: nat | y < x :: !InUse(tasks, PortAt(port, y))
        {
          var used := PortInUse(PortAt(port, x));
          if used {
            use := true;
            x := num;
          }
          x := x + 1;
        }
        if !use {
          return;
        }
        i := i + 1;
      }
      return 0;
    }

    method ChangeDockerPorts(t: Command) returns (ret: seq<nat>)
      ensures ret == Assigned(t.mappings, HostPort(env, tasks, |t.discovery|)) && |ret| == |t.mappings|
    {
      ret := [];
      var hostPort := GetRandomHostPort(|t.discovery|);
      for n := 0 to |t.mappings|
        invariant ret == Assigned(t.mappings, hostPort)[..n]
      {
        var port := t.mappings[n];
        if port == 0 {
          port := PortAt(hostPort, n);
        }
        ret := ret + [port];
      }
    }

    method ChangeDiscoveryInfo(mappings: seq<nat>, discovery: seq<nat>) returns (ret: seq<nat>)
      requires |mappings| <= |discovery|
      ensures ret == Synced(mappings, discovery) && |ret| == |discovery|
    {
      ret := discovery;
      for i := 0 to |mappings|
        invariant ret == mappings[..i] + discovery[i..]
      {
        ret := ret[i := mappings[i]];
      }
    }

    // ---------- scheduler/heatbeat.go ----------

    method CheckState(now: int)
      requires Valid()
      modifies this
      ensures View() == CheckedFrom(env, old(View()), 0, now) && Valid()
    {
      hide Promoted, HostPort, Count, Delete, DistinctKeys, DistinctNames, Shaped, RemoveAt;
      var i := 0;
      while i < |tasks|
        invariant i <= |tasks| && Valid()
        invariant CheckedFrom(env, View(), i, now) == CheckedFrom(env, old(View()), 0, now)
        decreases |tasks| - i
      {
        var t := tasks[i];
        if t.id == "" || t.name.None? {
          i := i + 1;
          continue;
        }
        var count := CountRedisKey(t.name.value);
        if t.state.Fresh? && count <= t.instances {
          Schedule(i, now);
          t := tasks[i];
        }
        // A fresh task that was not scheduled and has no date goes.
        if t.state.Fresh? && t.since.None? {
          RemoveKeeps(tasks, i);
          DelTaskKey(t);
        } else {
          i := i + 1;
        }
      }
    }

    /** The part of CheckState that schedules one task. */
    method Schedule(i: nat, now: int)
      requires Valid() && i < |tasks| && tasks[i].name.Some?
      modifies this
      ensures View() == Scheduled(env, old(View()), i, now) && Valid() && tasks[i].state.New?
    {
      hide HostPort, Assigned, Synced, Put, DistinctKeys, DistinctNames, Shaped;
      Call(Revive(CheckStateStep));
      var t := tasks[i].(state := New, since := Some(now));
      exhausted := exhausted || HostPort(env, tasks, |t.discovery|) == 0;
      ShapeAt(tasks, i);
      var ports := ChangeDockerPorts(t);
      var discovery := ChangeDiscoveryInfo(ports, t.discovery);
      t := t.(mappings := ports, discovery := discovery);
      ScheduleKeeps(tasks, i, t);
      queue := queue + [t];
      sent := sent + [t.id];
      SaveTaskRedis(t, 0);
    }

    method Heartbeat(b: Beat)
      requires Valid()
      modifies this
      ensures View() == HeartbeatDone(env, old(View()), b) && Valid()
    {
      hide HealthChecked, NodesHealthy, DatastoreHealthy, Launched, Alarmed, Settled, DistinctKeys, DistinctNames,
        Shaped;
      var dsState, k3sState, k3sAgentState := false, false, false;
      var suppressed := cfg.max.datastore == 0 && cfg.max.server == 0 && cfg.max.agent == 0;
      if !suppressed {
        dsState := HealthCheckDatastore();
        k3sState := HealthCheckNode(Server, b.now);
        k3sAgentState := HealthCheckNode(Agent, b.now);
        if !k3sState || !k3sAgentState || !dsState {
          Alarm();
        }
        StartMissing(dsState, k3sState, k3sAgentState, b);
      }
      if suppressed || (k3sState && k3sAgentState && dsState) {
        Settle();
      }
    }

    /** The part of Heartbeat that asks for offers again. */
    method Alarm()
      requires Valid()
      modifies this`log, this`reviveLock, this`suppressLock
      ensures View() == Alarmed(old(View())) && Valid()
    {
      if !reviveLock {
        Call(Revive(HeartbeatStep));
        reviveLock := true;
      }
      suppressLock := false;
    }

    /** The part of Heartbeat that refuses offers. */
    method Settle()
      requires Valid()
      modifies this
      ensures View() == Settled(old(View())) && Valid()
    {
      if !suppressLock {
        Call(Suppress(HeartbeatStep));
        RemoveNotExistingAgents();
        suppressLock := true;
        reviveLock := false;
      }
    }

    /** The part of Heartbeat that starts what is missing. */
    method StartMissing(dsState: bool, k3sState: bool, k3sAgentState: bool, b: Beat)
      requires Valid()
      modifies this
      ensures View() == if dsState && k3sState && k3sAgentState then old(View())
                        else Launched(env, old(View()), dsState, k3sState, k3sAgentState, b)
      ensures Valid()
    {
      hide TaskStarted, DistinctKeys, DistinctNames, Shaped;
      if !dsState {
        StartTask(Datastore, b.ids.datastore, b.at.datastore);
      }
      if dsState && !k3sState {
        StartTask(Server, b.ids.server, b.at.server);
      }
      if k3sState && !k3sAgentState {
        StartTask(Agent, b.ids.agent, b.at.agent);
      }
    }

    // ---------- scheduler/server.go, agent.go and datastore.go ----------

    method StartTask(k: Kind, id: string, at: nat)
      requires Valid()
      modifies this
      ensures View() == TaskStarted(env, old(View()), k, id, at) && Valid()
    {
      var count := CountRedisKey(k);
      if count == cfg.max.Of(k) {
        return;
      }
      if count > cfg.max.Of(k) {
        if !k.Datastore? {
          var _ := Scale(cfg.max.Of(k), count, k);
        }
        return;
      }
      var t := NewCommand(k, id);
      PutKeeps(tasks, t, at);
      SaveTaskRedis(t, at);
    }

    /** The part of the start functions that fills in a command, field by field. */
    method NewCommand(k: Kind, id: string) returns (t: Command)
      ensures t == NewTask(env, cfg, k, id)
    {
      t := DefaultCommand(id);
      t := t.(memory := env.memory.Of(k));
      t := t.(cpu := env.cpu.Of(k));
      t := t.(disk := env.disk.Of(k));
      t := t.(name := Some(k));
      t := t.(instances := cfg.max.Of(k));
      var mappings := [0];
      match k {
        case Datastore =>
        case Server =>
          mappings := [U32(cfg.serverPort)] + mappings;
        case Agent =>
          mappings := mappings + [0];
          if env.agentTcpPort > 0 {
            mappings := mappings + [0];
          }
      }
      var discovery := GetDiscoveryInfoPorts(mappings);
      t := t.(mappings := mappings, discovery := discovery);
    }

    method DefaultCommand(id: string) returns (t: Command)
      ensures t == EMPTY.(id := id, networks := 1)
    {
      t := EMPTY;
      t := t.(id := id);
      t := t.(networks := 1);
    }

    /** A discovery record lists the host ports of the mappings. */
    method GetDiscoveryInfoPorts(mappings: seq<nat>) returns (ports: seq<nat>)
      ensures ports == mappings
    {
      ports := [];
      for i := 0 to |mappings|
        invariant ports == mappings[..i]
      {
        ports := ports + [mappings[i]];
      }
    }

    method HealthCheckDatastore() returns (healthy: bool)
      ensures healthy <==> DatastoreHealthy(tasks)
    {
      healthy := false;
      for i := 0 to |tasks|
        invariant healthy <==> exists j :: 0 <= j < i && tasks[j].name == Some(Datastore)
                                      && tasks[j].state == Reported(Running) && tasks[j].networks > 0
      {
        if tasks[i].name == Some(Datastore) && tasks[i].state == Reported(Running) && tasks[i].networks > 0 {
          healthy := true;
        }
      }
    }

    method HealthCheckNode(k: Kind, now: int) returns (healthy: bool)
      requires Valid()
      modifies this
      ensures healthy <==> NodesHealthy(env, old(View()), k, now)
      ensures View() == HealthChecked(env, old(View()), k, now) && Valid()
    {
      healthy := false;
      var count := CountRedisKey(k);
      if count != cfg.max.Of(k) {
        return;
      }
      for i := 0 to |tasks|
        invariant View() == old(View())
        invariant Inspect(View(), k, now, env.nodeTimeout, 0, false)
               == Inspect(View(), k, now, env.nodeTimeout, i, healthy)
      {
        var t := tasks[i];
        if t.name == Some(k) {
          var node := GetK8NodeFromTask(t.id);
          if node.name != "" {
            if node.ready.ReadyTrue? {
              healthy := true;
            }
            if Unready(node) && Elapsed(now, t.since, env.nodeTimeout) {
              CleanupUnreadyTask(i, now);
              return false;
            }
          } else {
            if Elapsed(now, t.since, env.nodeTimeout) {
              CleanupUnreadyTask(i, now);
            }
            return false;
          }
        }
      }
    }

    method CleanupUnreadyTask(i: nat, now: int)
      requires Valid() && i < |tasks| && tasks[i].name.Some?
      modifies this
      ensures View() == UnreadyCleaned(env, old(View()), i, now) && Valid()
    {
      var t := tasks[i];
      if Elapsed(now, t.since, env.cleanupTime) {
        if t.mesosAgent == "" {
          DeleteAt(tasks, i);
          DelTaskKey(t);
        } else {
          Call(Kill(HealthCheck, t.id, t.mesosAgent));
        }
      }
    }

    method RemoveNotExistingAgents()
      requires Valid()
      modifies this`cache, this`log
      ensures View() == SweptFrom(old(View()), 0) && Valid()
    {
      var i := 0;
      while i < |cache|
        invariant i <= |cache| && Valid()
        invariant SweptFrom(View(), i) == SweptFrom(old(View()), 0)
        decreases |cache| - i
      {
        var node := cache[i];
        if !IsAgentNode(node) {
          i := i + 1;
          continue;
        }
        var t := GetTaskFromK8Node(node, Agent);
        if t.id != "" {
          if node.ready.ReadyUnknown? && t.state == Reported(Running) {
            Call(Kill(AgentSweep, t.id, t.agent));
          }
          i := i + 1;
        } else {
          DropNamed(cache, i);
          WithoutIn(cache, {node.name});
          cache := Without(cache, {node.name});
        }
      }
    }

    // ---------- scheduler/handle_offers.go ----------

    method GetAllOfferIDs(offers: seq<Offer>) returns (ids: seq<string>)
      ensures ids == OfferIds(offers)
    {
      ids := [];
      for i := 0 to |offers|
        invariant ids == OfferIds(offers)[..i]
      {
        ids := ids + [offers[i].id];
      }
    }

    method RemoveOffer(ids: seq<string>, clean: string) returns (others: seq<string>)
      ensures others == IdsExcept(ids, clean)
    {
      others := [];
      for i := 0 to |ids|
        invariant others + IdsExcept(ids[i..], clean) == IdsExcept(ids, clean)
      {
        assert ids[i..][1..] == ids[i + 1..];
        if ids[i] != clean {
          others := others + [ids[i]];
        }
      }
    }

    method GetOffer(offers: seq<Offer>, cmd: Command) returns (taken: Option<Offer>, left: seq<string>)
      modifies this`log
      ensures var p := Pick(env, cmd, offers);
              taken == if p < |offers| then Some(offers[p]) else None
      ensures left == Leftover(env, cmd, offers)
      ensures View() == Emit(old(View()), Decline(left))
    {
      taken := None;
      left := GetAllOfferIDs(offers);
      var i := 0;
      while i < |offers|
        invariant i <= |offers| && taken.None? && View() == old(View())
        invariant forall j | 0 <= j < i :: !Suits(env, cmd, offers[j])
      {
        var offer := offers[i];
        i := i + 1;
        if cmd.name.Some? {
          var host := env.hosts.Of(cmd.name.value);
          if host != "" && host != offer.hostname {
            continue;
          }
        }
        var matched := IsRessourceMatched(offer.resources, cmd);
        if !matched {
          continue;
        }
        taken := Some(offer);
        i := i - 1;
        break;
      }
      assert i == Pick(env, cmd, offers);
      if taken.Some? && taken.value.hostname != "" {
        left := RemoveOffer(left, taken.value.id);
      }
      Call(Decline(left));
    }

    /** `accepted` is what Mesos answers to an ACCEPT; the result says whether the call went through. */
    method HandleOffers(offers: seq<Offer>, accepted: bool) returns (ok: bool)
      modifies this
      ensures View() == OffersHandled(env, old(View()), offers, accepted)
      ensures !ok <==> !accepted && |log| > old(|log|) && log[|log| - 1].Accept?
      ensures old(Valid()) ==> Valid()
    {
      hide Leftover, Pick, ClaimsOf, OfferIds, DistinctKeys, DistinctNames, Shaped;
      if |queue| == 0 {
        var all := GetAllOfferIDs(offers);
        Call(Decline(all));
        return true;
      }
      var cmd := queue[0];
      queue := queue[1..];
      if cmd.id == "" || cmd.name.None? {
        return true;
      }
      var taken, left := GetOffer(offers, cmd);
      if taken.None? || taken.value.hostname == "" || taken.value.id == "" {
        queue := queue + [cmd];
        return true;
      }
      var claims := DefaultResources(cmd);
      Call(Accept(taken.value.id, cmd.id, claims));
      if !accepted {
        return false;
      }
      Call(Decline(left));
      return true;
    }

    // ---------- scheduler/prepare.go ----------

    method DefaultResources(cmd: Command) returns (res: seq<Resource>)
      ensures res == ClaimsOf(cmd)
    {
      res := [Resource("cpus", cmd.cpu, []), Resource("mem", cmd.memory, []), Resource("disk", cmd.disk, [])];
      for i := 0 to |cmd.mappings|
        invariant res == ClaimsOf(cmd)[..3 + i]
      {
        var p := cmd.mappings[i];
        res := res + [Resource("ports", 0.0, [Range(p, p)])];
      }
    }

    // ---------- scheduler/handle_update.go ----------

    method HandleUpdate(u: Update, mesosAgent: string, networks: nat)
      requires Valid()
      modifies this
      ensures View() == UpdateHandled(old(View()), u, mesosAgent, networks) && Valid()
    {
      var t := GetTaskFromEvent(u);
      if IndexOfId(tasks, u.task) < |tasks| {
        ShapeAt(tasks, IndexOfId(tasks, u.task));
      }
      hide Recorded, DistinctKeys, DistinctNames, Shaped;
      if t.id == "" && !u.status.Lost? {
        Call(Kill(UpdateStep, u.task, u.agent));
      }
      Record(t.(state := Reported(u.status)), u, mesosAgent, networks);
      Acknowledge(u);
    }

    /** The part of HandleUpdate that forgets the task or stores its new state. */
    method Record(task: Command, u: Update, mesosAgent: string, networks: nat)
      requires Valid() && |task.mappings| <= |task.discovery| && (task.name == Some(Server) ==> |task.mappings| > 0)
      modifies this
      ensures View() == Recorded(old(View()), task, u, mesosAgent, networks) && Valid()
    {
      hide NodesForgotten, Put, Delete, DistinctKeys, DistinctNames, Shaped;
      var t := task;
      if Terminal(u.status) {
        DeleteKeeps(tasks, t.name, t.id);
        DelTaskKey(t);
        ForgetNodes(t);
        return;
      }
      if u.status.Running? {
        t := t.(mesosAgent := mesosAgent, networks := networks, agent := u.agent);
        if t.name == Some(Server) {
          cfg := cfg.(serverPort := t.mappings[0]);
        }
      }
      PutKeeps(tasks, t, 0);
      SaveTaskRedis(t, 0);
    }

    /** The part of a terminal update that removes the task's Kubernetes node. */
    method ForgetNodes(t: Command)
      requires Valid()
      modifies this`cluster, this`cache, this`log
      ensures View() == NodesForgotten(old(View()), t) && Valid()
    {
      if t.name == Some(Server) {
        var node := GetK8NodeFromTask(t.id);
        WithoutIn(cache, {node.name});
        cache := Without(cache, {node.name});
      }
      if t.name == Some(Agent) {
        var node := GetK8NodeFromTask(t.id);
        DeleteNode(node.name);
        WithoutIn(cache, {node.name});
        cache := Without(cache, {node.name});
      }
    }

    /** Mesos.Call drops an acknowledgement without UUID. */
    ghost method Acknowledge(u: Update)
      modifies this`log
      ensures View() == Acknowledged(old(View()), u)
    {
      if u.uuid.Some? {
        Call(Types.Call.Acknowledge(u.task, u.uuid.value));
      }
    }

    // ---------- api/ ----------

    method Scale(newCount: int, currentCount: int, k: Kind) returns (difference: int)
      requires Valid()
      modifies this
      ensures difference == newCount - currentCount
      ensures View() == Scaled(old(View()), k, newCount, currentCount) && Valid()
    {
      hide NodeDeleted, NodeOf, Put, DistinctKeys, DistinctNames, Shaped;
      difference := newCount - currentCount;
      var oldCount := currentCount;
      SaveConfig();
      for i := 0 to |tasks|
        invariant Valid() && |tasks| == old(|tasks|)
        invariant ScaledFrom(View(), k, newCount, oldCount, i) == Scaled(old(View()), k, newCount, currentCount)
      {
        if tasks[i].name == Some(k) {
          ghost var s := View();
          var t := tasks[i].(instances := newCount);
          ScheduleKeeps(tasks, i, t);
          SaveTaskRedis(t, 0);
          if newCount < oldCount {
            var node := GetK8NodeFromTask(t.id);
            if k.Agent? && node.name != "" {
              DeleteNode(node.name);
            }
            Call(Kill(ScaleStep, t.id, t.agent));
          }
          if newCount > oldCount {
            Call(Revive(ScaleStep));
          }
          assert View() == ScaledOne(s, k, newCount, oldCount, i);
          oldCount := oldCount - 1;
        }
      }
    }

    method ScaleTo(k: Kind, count: int)
      requires Valid()
      modifies this
      ensures View() == ScaledTo(old(View()), k, count) && Valid()
    {
      var _ := Scale(count, cfg.max.Of(k), k);
      cfg := cfg.(max := With(cfg.max, k, count));
    }

    method ClusterStop(ds: bool)
      requires Valid()
      modifies this
      ensures View() == Stopped(old(View()), ds) && Valid()
    {
      hide Scaled, DistinctKeys, DistinctNames, Shaped;
      if cfg.max.datastore != 0 && cfg.max.server != 0 && cfg.max.agent != 0 {
        cfg := cfg.(restore := cfg.restore.(datastore := cfg.max.datastore));
        cfg := cfg.(restore := cfg.restore.(server := cfg.max.server));
        cfg := cfg.(restore := cfg.restore.(agent := cfg.max.agent));
      }
      SaveConfig();
      ScaleTo(Agent, 0);
      ScaleTo(Server, 0);
      if ds {
        ScaleTo(Datastore, 0);
      }
      SaveConfig();
      Call(Suppress(Actor.ClusterStop));
    }

    method ClusterStart()
      requires Valid()
      modifies this
      ensures View() == Started(old(View())) && Valid()
    {
      ScaleTo(Datastore, cfg.restore.datastore);
      ScaleTo(Server, cfg.restore.server);
      ScaleTo(Agent, cfg.restore.agent);
    }

    method V0ClusterStart() returns (accepted: bool)
      requires Valid()
      modifies this
      ensures accepted <==> old(cfg.max.datastore == 0 || cfg.max.server == 0 || cfg.max.agent == 0)
      ensures View() == StartRequested(old(View())) && Valid()
    {
      if cfg.max.datastore != 0 && cfg.max.server != 0 && cfg.max.agent != 0 {
        return false;
      }
      ClusterStart();
      return true;
    }

    // ---------- app.go ----------

    /** What a new process starts from: the saved configuration and the store. */
    method Restart()
      requires Valid()
      modifies this
      ensures View() == Restarted(old(View())) && Valid()
    {
      lost := lost + QueueIds(queue);
      queue := [];
      cfg := saved;
      reviveLock := true;
      suppressLock := false;
    }

    // ---------- Whole runs ----------

    /** The controller reports a node: it is cached under its name. */
    method CacheNode(n: Node, at: nat)
      requires Valid()
      modifies this`cache
      ensures View() == old(View()).(cache := CachePut(old(cache), n, at)) && Valid()
    {
      CachePutDistinct(cache, n, at);
      cache := CachePut(cache, n, at);
    }

    /** A new subscription: the configuration is saved and the heartbeat loop resets its locks. */
    method Resubscribe()
      modifies this`saved, this`reviveLock, this`suppressLock
      ensures View() == Types.SaveConfig(old(View()).(reviveLock := true, suppressLock := false))
    {
      reviveLock := true;
      suppressLock := false;
      SaveConfig();
    }

    /** One event: the handler it goes to.  The event loop saves the configuration after an update. */
    method Perform(e: Event)
      requires Valid() && Admissible(e)
      modifies this
      ensures View() == Apply(env, old(View()), e) && Valid()
    {
      hide HeartbeatDone, CheckedFrom, OffersHandled, UpdateHandled, ScaledTo, Stopped, Started, SweptFrom, Cleaned,
        DistinctKeys, DistinctNames, Shaped;
      match e
      case Beating(b) => Heartbeat(b);
      case Checking(now) => CheckState(now);
      case Offered(offers, accepted) => var _ := HandleOffers(offers, accepted);
      case Updated(u, mesosAgent, networks) =>
        HandleUpdate(u, mesosAgent, networks);
        SaveConfig();
      case ScaleRequest(k, count) => ScaleTo(k, count);
      case StopRequest(ds) => ClusterStop(ds);
      case StartRequest => var _ := V0ClusterStart();
      case Sweeping => RemoveNotExistingAgents();
      case CleaningNodes => CleanupNodes();
      case NodeReported(n, at) => CacheNode(n, at);
      case ClusterChanged(nodes, up) =>
        cluster := nodes;
        kubeUp := up;
      case Resubscribed => Resubscribe();
      case Crashed => Restart();
    }

    /** The object goes through a run of the state machine. */
    method Drive(events: seq<Event>)
      requires Valid() && forall e | e in events :: Admissible(e)
      modifies this
      ensures View() == Run(env, old(View()), events) && Valid()
    {
      hide Apply, DistinctKeys, DistinctNames, Shaped;
      for i := 0 to |events|
        invariant View() == Run(env, old(View()), events[..i]) && Valid()
      {
        assert events[..i + 1][..i] == events[..i];
        Perform(events[i]);
      }
      assert events[..|events|] == events;
    }

    /** A process that has just been set up goes through any run: whatever happens, no ID is sent, queued or launched
        twice, what was sent is queued, launched or lost, and every stored task is named, under its own key, and
        has its mappings in its discovery record. */
    method Live(events: seq<Event>)
      requires Valid() && Runs.Booted(View()) && FreshRun({}, events) && forall e | e in events :: Admissible(e)
      modifies this
      ensures View() == Run(env, old(View()), events) && Valid()
      ensures NoDuplicates(sent) && NoDuplicates(QueueIds(queue)) && NoDuplicates(Launches(log))
      ensures forall id | id in QueueIds(queue) :: id !in Launches(log)
      ensures multiset(QueueIds(queue)) + multiset(Launches(log)) + multiset(lost) == multiset(sent)
      ensures DistinctIds(tasks)
      ensures forall i | 0 <= i < |tasks| ::
                tasks[i].id != "" && tasks[i].name.Some? && tasks[i].mappings == tasks[i].discovery
    {
      ghost var s := View();
      Drive(events);
      hide Run, FreshRun, Runs.Booted, QueueIds, Launches, NoDuplicates, DistinctKeys, DistinctNames, Shaped;
      Runs.NoDoubleLaunch(env, s, events);
      Runs.CommandsConserved(env, s, events);
      Runs.StoreInOrder(env, s, events);
    }
  }

  /** Kubernetes lists each node once. */
  ghost predicate Admissible(e: Event) { e.ClusterChanged? ==> DistinctNames(e.nodes) }

  lemma CachePutDistinct(cache: seq<Node>, n: Node, at: nat)
    requires DistinctNames(cache)
    ensures DistinctNames(CachePut(cache, n, at))
    ensures forall m :: m in CachePut(cache, n, at) <==> m == n || (m in cache && m.name != n.name)
  {
    var us := CachePut(cache, n, at);
    if n.name in Names(cache) {
      forall m | m in cache && m.name != n.name ensures m in us {
        var j :| 0 <= j < |cache| && cache[j] == m;
        assert us[j] == m;
      }
      var p :| 0 <= p < |cache| && cache[p].name == n.name;
      assert us[p] == n;
    } else {
      var q := if at < |cache| then at else |cache|;
      assert us == cache[..q] + [n] + cache[q..];
      assert cache == cache[..q] + cache[q..];
      assert us[q] == n;
    }
  }

  /** The state part-way through CleanupNodes, with `seen` the unready nodes of the listing dealt with so far. */
  ghost function PartlyCleaned(s: Sys, seen: seq<Node>): Sys {
    var us := UnreadyOf(s.cluster);
    if |seen| == 0 || |us| == 0 then s
    else s.(cluster := ReadyOf(s.cluster),
            cache := Without(s.cache, Names(us[1..]) + Names(seen)),
            log := s.log + KillsFor(s.tasks, KillOrder(us[1..]) + seen))
  }

  /** Deleting the next unready node of the listing: the first time this cleans up the others,
      later it finds nothing to do. */
  lemma DeleteStep(s0: Sys, nodes: seq<Node>, seen: seq<Node>, node: Node)
    requires s0.kubeUp && s0.cluster == nodes && DistinctNames(nodes)
    requires seen + [node] <= UnreadyOf(nodes)
    ensures var us, s := UnreadyOf(nodes), PartlyCleaned(s0, seen);
            && DistinctNames(s.cluster)
            && |UnreadyOf(Without(s.cluster, {node.name}))| < |us|
            && NodeDeleted(s, node.name) == s0.(cluster := ReadyOf(nodes),
                 cache := Without(s0.cache, Names(us[1..]) + Names(seen)),
                 log := s0.log + KillsFor(s0.tasks, KillOrder(us[1..]) + seen))
  {
    var us, s := UnreadyOf(nodes), PartlyCleaned(s0, seen);
    ReadyAndUnready(nodes);
    if |seen| == 0 {
      assert us[0] == node;
      DropFirstUnready(nodes);
      assert Names(us[1..]) + Names(seen) == Names(us[1..]);
      assert KillOrder(us[1..]) + seen == KillOrder(us[1..]);
    } else {
      assert us[|seen|] == node;
      assert node in us;
      forall n | n in ReadyOf(nodes)
        ensures n.name !in {node.name}
      {
        var i, j :| 0 <= i < |nodes| && nodes[i] == n && 0 <= j < |nodes| && nodes[j] == node;
      }
      WithoutNothing(ReadyOf(nodes), {node.name});
      AllReady(nodes);
      WithoutNothing(s.cache, Names([]));
      assert s.log + KillsFor(s.tasks, KillOrder([])) == s.log;
    }
  }

  lemma CleanStep(s0: Sys, s1: Sys, nodes: seq<Node>, seen: seq<Node>, node: Node)
    requires s0.kubeUp && s0.cluster == nodes
    requires seen + [node] <= UnreadyOf(nodes)
    requires var us := UnreadyOf(nodes);
             s1 == s0.(cluster := ReadyOf(nodes),
                 cache := Without(s0.cache, Names(us[1..]) + Names(seen)),
                 log := s0.log + KillsFor(s0.tasks, KillOrder(us[1..]) + seen))
    ensures Emit(s1.(cache := Without(s1.cache, {node.name})), KillFor(s0.tasks, node))
         == PartlyCleaned(s0, seen + [node])
  {
    var us := UnreadyOf(nodes);
    WithoutTwice(s0.cache, Names(us[1..]) + Names(seen), {node.name});
    assert Names(us[1..]) + Names(seen) + {node.name} == Names(us[1..]) + Names(seen + [node]);
    var o := KillOrder(us[1..]) + seen;
    assert KillOrder(us[1..]) + (seen + [node]) == o + [node];
    KillsForSplit(s0.tasks, o, [node]);
    assert KillsFor(s0.tasks, [node]) == [KillFor(s0.tasks, node)];
  }

  /** One round for an unready node takes the partly cleaned state one node further. */
  lemma CleanRound(s0: Sys, nodes: seq<Node>, seen: seq<Node>, node: Node)
    requires s0.kubeUp && s0.cluster == nodes && DistinctNames(nodes)
    requires seen + [node] <= UnreadyOf(nodes)
    ensures var s := PartlyCleaned(s0, seen);
            && DistinctNames(s.cluster)
            && |UnreadyOf(Without(s.cluster, {node.name}))| < |UnreadyOf(nodes)|
    ensures var s1, r := NodeDeleted(PartlyCleaned(s0, seen), node.name), PartlyCleaned(s0, seen + [node]);
            Emit(s1.(cache := Without(s1.cache, {node.name})), KillFor(s1.tasks, node)) == r
  {
    DeleteStep(s0, nodes, seen, node);
    CleanStep(s0, NodeDeleted(PartlyCleaned(s0, seen), node.name), nodes, seen, node);
  }

  lemma CleanStart(s0: Sys)
    ensures PartlyCleaned(s0, []) == s0 && s0.cluster[0..] == s0.cluster
  {
  }

  lemma UnreadyStep(nodes: seq<Node>, i: nat)
    requires i < |nodes|
    ensures UnreadyOf(nodes[i..])
         == if Unready(nodes[i]) then [nodes[i]] + UnreadyOf(nodes[i + 1..]) else UnreadyOf(nodes[i + 1..])
  {
    assert nodes[i..][0] == nodes[i] && nodes[i..][1..] == nodes[i + 1..];
  }

  lemma CleanEnd(s0: Sys, seen: seq<Node>, nodes: seq<Node>)
    requires s0.kubeUp && nodes == s0.cluster && UnreadyOf(nodes) == seen + UnreadyOf(nodes[|nodes|..])
    ensures PartlyCleaned(s0, seen) == Cleaned(s0)
    ensures DistinctNames(nodes) ==> DistinctNames(Cleaned(s0).cluster)
    ensures DistinctNames(s0.cache) ==> DistinctNames(Cleaned(s0).cache)
  {
    var us := UnreadyOf(nodes);
    assert seen == us;
    ReadyAndUnready(nodes);
    WithoutIn(s0.cache, Names(us));
    if |us| == 0 {
      NoneUnready(s0.cluster);
      WithoutNothing(s0.cache, Names(us));
      assert s0.log + KillsFor(s0.tasks, KillOrder(us)) == s0.log;
    } else {
      assert Names(us[1..]) + Names(us) == Names(us);
    }
  }

  lemma ScheduleKeeps(ts: seq<Command>, i: nat, t: Command)
    requires DistinctKeys(ts) && Shaped(ts) && i < |ts|
    requires t.name == ts[i].name && t.id == ts[i].id
    requires |t.mappings| == |ts[i].mappings| && |t.discovery| == |ts[i].discovery|
    ensures Put(ts, t, 0) == ts[i := t] && DistinctKeys(ts[i := t]) && Shaped(ts[i := t])
  {
    PutAt(ts, i, t, 0);
  }

  lemma RemoveKeeps(ts: seq<Command>, i: nat)
    requires DistinctKeys(ts) && Shaped(ts) && i < |ts|
    ensures Delete(ts, ts[i].name, ts[i].id) == RemoveAt(ts, i)
    ensures DistinctKeys(RemoveAt(ts, i)) && Shaped(RemoveAt(ts, i)) && |RemoveAt(ts, i)| == |ts| - 1
  {
    DeleteAt(ts, i);
  }

  lemma ShapeAt(ts: seq<Command>, i: nat)
    requires Shaped(ts) && i < |ts|
    ensures |ts[i].mappings| <= |ts[i].discovery| && (ts[i].name == Some(Server) ==> |ts[i].mappings| > 0)
  {
  }

  lemma PutKeeps(ts: seq<Command>, t: Command, at: nat)
    requires DistinctKeys(ts) && Shaped(ts)
    requires |t.mappings| <= |t.discovery| && (t.name == Some(Server) ==> |t.mappings| > 0)
    ensures DistinctKeys(Put(ts, t, at)) && Shaped(Put(ts, t, at))
  {
    var p := IndexOfKey(ts, t.name, t.id);
    if p < |ts| {
      PutAt(ts, p, t, at);
    } else {
      InsertKeeps(ts, t, if at < |ts| then at else |ts|);
    }
  }

  lemma InsertKeeps(ts: seq<Command>, t: Command, q: nat)
    requires DistinctKeys(ts) && Shaped(ts) && q <= |ts|
    requires |t.mappings| <= |t.discovery| && (t.name == Some(Server) ==> |t.mappings| > 0)
    requires forall i | 0 <= i < |ts| :: ts[i].name != t.name || ts[i].id != t.id
    ensures DistinctKeys(ts[..q] + [t] + ts[q..]) && Shaped(ts[..q] + [t] + ts[q..])
  {
    var us := ts[..q] + [t] + ts[q..];
    assert forall i | 0 <= i < |us| && i != q :: us[i] == ts[if i < q then i else i - 1];
  }

  lemma DeleteKeeps(ts: seq<Command>, name: Option<Kind>, id: string)
    requires DistinctKeys(ts) && Shaped(ts)
    ensures DistinctKeys(Delete(ts, name, id)) && Shaped(Delete(ts, name, id))
  {
  }

  lemma {:induction false} DropNamed(ns: seq<Node>, i: nat)
    requires DistinctNames(ns) && i < |ns|
    ensures Without(ns, {ns[i].name}) == ns[..i] + ns[i + 1..]
  {
    if i == 0 {
      WithoutNothing(ns[1..], {ns[0].name});
      assert ns[..0] + ns[1..] == ns[1..];
    } else {
      DropNamed(ns[1..], i - 1);
      SkipBoth(ns, i);
    }
  }

  lemma SkipBoth(ns: seq<Node>, i: nat)
    requires 0 < i < |ns|
    ensures [ns[0]] + (ns[1..][..i - 1] + ns[1..][i..]) == ns[..i] + ns[i + 1..]
  {
  }

  /** The mapping list of a task is no longer than its discovery list, and a server has at least one mapping. */
  ghost predicate Shaped(ts: seq<Command>) {
    forall i | 0 <= i < |ts| ::
      |ts[i].mappings| <= |ts[i].discovery| && (ts[i].name == Some(Server) ==> |ts[i].mappings| > 0)
  }
}
