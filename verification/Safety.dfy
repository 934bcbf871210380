/** What holds in every reachable state: who is launched, how often, and with which ports. */
module Safety {
  import opened Types
  import opened Store
  import opened Nodes
  import opened Ports
  import opened Offers
  import opened Scaling
  import opened Scheduling
  import opened Updates
  import opened Machine
  import opened Minor

  ghost predicate NoDuplicates(ids: seq<string>) {
    forall i, j | 0 <= i < j < |ids| :: ids[i] != ids[j]
  }

  /** A stored task has a name and an ID, its discovery record agrees with its mappings, and while it is fresh it has
      never been sent. */
  ghost predicate ProperTask(issued: set<string>, sent: seq<string>, t: Command) {
    && t.id != "" && t.name.Some? && t.id in issued
    && t.mappings == t.discovery
    && (t.state.Fresh? ==> t.since.None? && t.id !in sent)
  }

  ghost predicate ProperQueue(q: seq<Command>) {
    forall i | 0 <= i < |q| :: q[i].id != "" && q[i].name.Some?
  }

  /** Every ID ever sent on the command channel is in exactly one place: queued, in an ACCEPT, or lost in a crash. */
  ghost predicate Accounted(s: Sys) {
    multiset(QueueIds(s.queue)) + multiset(Launches(s.log)) + multiset(s.lost) == multiset(s.sent)
  }

  /** The single ports among the claims of a launch. */
  function ClaimedPorts(claims: seq<Resource>): seq<nat> {
    if |claims| == 0 then []
    else if claims[0].name == "ports" && |claims[0].ranges| == 1 then
      [claims[0].ranges[0].begin] + ClaimedPorts(claims[1..])
    else ClaimedPorts(claims[1..])
  }

  lemma {:induction false} PortClaims(ports: seq<nat>)
    ensures var claims := seq(|ports|, i requires 0 <= i < |ports| =>
              Resource("ports", 0.0, [Range(ports[i], ports[i])]));
            ClaimedPorts(claims) == ports
  {
    if |ports| == 0 {
    } else {
      var all := seq(|ports|, i requires 0 <= i < |ports| => Resource("ports", 0.0, [Range(ports[i], ports[i])]));
      var rest := ports[1..];
      assert all[1..] == seq(|rest|, i requires 0 <= i < |rest| => Resource("ports", 0.0, [Range(rest[i], rest[i])]));
      PortClaims(rest);
    }
  }

  /** The ports a task claims at launch are its mappings. */
  lemma LaunchClaimsMappings(cmd: Command)
    ensures ClaimedPorts(ClaimsOf(cmd)) == cmd.mappings
  {
    var ports := cmd.mappings;
    var all := seq(|ports|, i requires 0 <= i < |ports| => Resource("ports", 0.0, [Range(ports[i], ports[i])]));
    PortClaims(ports);
    var r := ClaimsOf(cmd);
    assert r[1..][1..][1..] == all;
    assert ClaimedPorts(r) == ClaimedPorts(r[1..]) == ClaimedPorts(r[1..][1..]) == ClaimedPorts(r[1..][1..][1..]);
  }

  /** What is queued for a stored task, or was claimed for it at launch, are the ports of its mappings. */
  ghost predicate PortsCarried(s: Sys, t: Command) {
    && (forall i | 0 <= i < |s.queue| && s.queue[i].id == t.id :: s.queue[i].mappings == t.mappings)
    && (forall i | 0 <= i < |Accepts(s.log)| && Accepts(s.log)[i].task == t.id ::
          ClaimedPorts(Accepts(s.log)[i].claims) == t.mappings)
  }

  /** The life-cycle invariant. */
  ghost predicate LifeCycle(issued: set<string>, s: Sys) {
    && DistinctIds(s.tasks)
    && (forall i | 0 <= i < |s.tasks| :: ProperTask(issued, s.sent, s.tasks[i]))
    && ProperQueue(s.queue)
    && (forall i | 0 <= i < |s.sent| :: s.sent[i] in issued)
    && NoDuplicates(s.sent)
    && Accounted(s)
  }

  /** The ports of one stored task: assigned once it has been sent, untouched before. */
  ghost predicate Ported(env: Settings, s: Sys, t: Command) {
    if t.id in s.sent then WellAssigned(env, t) else Unassigned(env, t)
  }

  ghost predicate PortsApart(s: Sys) {
    forall i, j | 0 <= i < j < |s.tasks| && s.tasks[i].id in s.sent && s.tasks[j].id in s.sent ::
      Disjoint(Dynamic(s.tasks[i].name, s.tasks[i].mappings), Dynamic(s.tasks[j].name, s.tasks[j].mappings))
  }

  /** The port invariant: as long as no port search came back empty. */
  ghost predicate PortsInOrder(env: Settings, s: Sys) {
    && FixedPortOutside(env, s.cfg.serverPort) && FixedPortOutside(env, s.saved.serverPort)
    && (forall i | 0 <= i < |s.tasks| :: Ported(env, s, s.tasks[i]))
    && PortsApart(s)
  }

  ghost predicate Carried(s: Sys) {
    forall i | 0 <= i < |s.tasks| :: PortsCarried(s, s.tasks[i])
  }

  /** The whole invariant; `ports` says whether the port part is claimed. */
  ghost predicate Safe(env: Settings, ports: bool, issued: set<string>, s: Sys) {
    LifeCycle(issued, s) && Carried(s) && (ports && !s.exhausted ==> PortsInOrder(env, s))
  }

  // ---------- Minor steps keep it ----------

  lemma EvolvedProper(issued: set<string>, s: Sys, r: Sys, i: nat)
    requires MinorStep(s, r) && i < |r.tasks|
    requires forall j | 0 <= j < |s.tasks| :: ProperTask(issued, s.sent, s.tasks[j])
    ensures ProperTask(issued, r.sent, r.tasks[i])
  {
    assert EvolvedFrom(s.tasks, r.tasks[i]);
  }

  lemma EvolvedCarried(s: Sys, r: Sys, i: nat)
    requires MinorStep(s, r) && Carried(s) && i < |r.tasks|
    ensures PortsCarried(r, r.tasks[i])
  {
    assert EvolvedFrom(s.tasks, r.tasks[i]);
    var j :| 0 <= j < |s.tasks| && Evolves(s.tasks[j], r.tasks[i]);
    assert PortsCarried(s, s.tasks[j]);
  }

  lemma EvolvedPorted(env: Settings, s: Sys, r: Sys, i: nat)
    requires MinorStep(s, r) && i < |r.tasks|
    requires forall j | 0 <= j < |s.tasks| :: Ported(env, s, s.tasks[j])
    ensures Ported(env, r, r.tasks[i])
  {
    assert EvolvedFrom(s.tasks, r.tasks[i]);
    var j :| 0 <= j < |s.tasks| && Evolves(s.tasks[j], r.tasks[i]);
    assert Ported(env, s, s.tasks[j]);
  }

  lemma EvolvedApart(s: Sys, r: Sys, i: nat, j: nat)
    requires MinorStep(s, r) && DistinctIds(s.tasks) && PortsApart(s)
    requires i < j < |r.tasks| && r.tasks[i].id in r.sent && r.tasks[j].id in r.sent
    ensures Disjoint(Dynamic(r.tasks[i].name, r.tasks[i].mappings), Dynamic(r.tasks[j].name, r.tasks[j].mappings))
  {
    assert EvolvedFrom(s.tasks, r.tasks[i]) && EvolvedFrom(s.tasks, r.tasks[j]);
    var m :| 0 <= m < |s.tasks| && Evolves(s.tasks[m], r.tasks[i]);
    var n :| 0 <= n < |s.tasks| && Evolves(s.tasks[n], r.tasks[j]);
    assert m != n;
    var a, b := Dynamic(s.tasks[m].name, s.tasks[m].mappings), Dynamic(s.tasks[n].name, s.tasks[n].mappings);
    assert if m < n then Disjoint(a, b) else Disjoint(b, a);
  }

  lemma SourceOutside(env: Settings, s: Sys, p: int)
    requires PortsInOrder(env, s) && PortSource(s, p)
    ensures FixedPortOutside(env, p)
  {
    if p != s.cfg.serverPort && p != s.saved.serverPort {
      var j :| 0 <= j < |s.tasks| && s.tasks[j].name == Some(Server) && |s.tasks[j].mappings| > 0
          && p == s.tasks[j].mappings[0];
      assert Ported(env, s, s.tasks[j]);
    }
  }

  lemma MinorSafe(env: Settings, ports: bool, issued: set<string>, s: Sys, r: Sys)
    requires Safe(env, ports, issued, s) && MinorStep(s, r)
    ensures Safe(env, ports, issued, r)
  {
    forall i | 0 <= i < |r.tasks| ensures ProperTask(issued, r.sent, r.tasks[i]) && PortsCarried(r, r.tasks[i]) {
      EvolvedProper(issued, s, r, i);
      EvolvedCarried(s, r, i);
    }
    if ports && !s.exhausted {
      forall i | 0 <= i < |r.tasks| ensures Ported(env, r, r.tasks[i]) {
        EvolvedPorted(env, s, r, i);
      }
      forall i, j | 0 <= i < j < |r.tasks| && r.tasks[i].id in r.sent && r.tasks[j].id in r.sent
        ensures Disjoint(Dynamic(r.tasks[i].name, r.tasks[i].mappings), Dynamic(r.tasks[j].name, r.tasks[j].mappings))
      {
        EvolvedApart(s, r, i, j);
      }
      SourceOutside(env, s, r.cfg.serverPort);
      SourceOutside(env, s, r.saved.serverPort);
    }
    hide ProperTask, Ported, Disjoint, FixedPortOutside, EvolvedFrom, PortSource, FewerOfAll, Dynamic, PortsCarried;
  }

  lemma MoreIssued(env: Settings, ports: bool, issued: set<string>, more: set<string>, s: Sys)
    requires Safe(env, ports, issued, s)
    ensures Safe(env, ports, issued + more, s)
  {
    forall i | 0 <= i < |s.tasks| ensures ProperTask(issued + more, s.sent, s.tasks[i]) {
      assert ProperTask(issued, s.sent, s.tasks[i]);
    }
    hide PortsInOrder, Accounted;
  }

  // ---------- Updates ----------

  lemma IdsMakeKeys(ts: seq<Command>)
    requires DistinctIds(ts)
    ensures DistinctKeys(ts)
  {
  }

  lemma UpdateMinor(s: Sys, u: Update, mesosAgent: string, networks: nat)
    requires DistinctIds(s.tasks) && forall i | 0 <= i < |s.tasks| :: s.tasks[i].name.Some? && s.tasks[i].id != ""
    ensures MinorStep(s, UpdateHandled(s, u, mesosAgent, networks))
    ensures KeepsWants(s, UpdateHandled(s, u, mesosAgent, networks))
  {
    hide MinorStep, KeepsWants, Forgotten, Saved, Runs, NodesForgotten, Acknowledged, DistinctIds, DistinctKeys;
    var t := TaskOf(s, u);
    var kill := Kill(UpdateStep, u.task, u.agent);
    var s1 := if t.id == "" && !u.status.Lost? then Emit(s, kill) else s;
    SelfMinor(s);
    EmitMinor(s, kill);
    IdsMakeKeys(s.tasks);
    var s2 := if Terminal(u.status) then Forgotten(s1, t)
              else if u.status.Running? then Runs(s1, t, u, mesosAgent, networks) else Saved(s1, t);
    WriteMinor(s1, u, mesosAgent, networks);
    hide TaskOf;
    MinorTrans(s, s1, s2);
    WantsTrans(s, s1, s2);
    var s3 := if Terminal(u.status) then NodesForgotten(s2, t) else s2;
    NodesForgottenMinor(s2, t);
    SelfMinor(s2);
    MinorTrans(s, s2, s3);
    WantsTrans(s, s2, s3);
    AcknowledgedMinor(s3, u);
    MinorTrans(s, s3, Acknowledged(s3, u));
    WantsTrans(s, s3, Acknowledged(s3, u));
  }

  /** The write to the store that an update makes. */
  lemma WriteMinor(s: Sys, u: Update, mesosAgent: string, networks: nat)
    requires DistinctKeys(s.tasks) && forall i | 0 <= i < |s.tasks| :: s.tasks[i].name.Some? && s.tasks[i].id != ""
    ensures var t := TaskOf(s, u);
            var r := if Terminal(u.status) then Forgotten(s, t)
                     else if u.status.Running? then Runs(s, t, u, mesosAgent, networks) else Saved(s, t);
            MinorStep(s, r) && KeepsWants(s, r)
  {
    var p := IndexOfId(s.tasks, u.task);
    var t := TaskOf(s, u);
    if p < |s.tasks| {
      ForgottenMinor(s, p, t);
      SavedMinor(s, p, t);
      RunsMinor(s, p, t, u, mesosAgent, networks);
    } else {
      SameStore(s, s.(anonymous := None));
      SameStore(s, Saved(s, t));
      SameStore(s, Runs(s, t, u, mesosAgent, networks));
    }
    hide Forgotten, Saved, Runs, MinorStep, KeepsWants;
  }

  lemma ForgottenMinor(s: Sys, p: nat, t: Command)
    requires DistinctKeys(s.tasks) && p < |s.tasks| && t.name.Some? && t.name == s.tasks[p].name
        && t.id == s.tasks[p].id
    ensures MinorStep(s, Forgotten(s, t)) && KeepsWants(s, Forgotten(s, t))
  {
    hide MinorStep, KeepsWants;
    DeleteAt(s.tasks, p);
    RemoveMinor(s, p);
  }

  lemma SavedMinor(s: Sys, p: nat, t: Command)
    requires DistinctKeys(s.tasks) && p < |s.tasks| && t.name.Some?
    requires Evolves(s.tasks[p], t) && t.instances == s.tasks[p].instances
    ensures MinorStep(s, Saved(s, t)) && KeepsWants(s, Saved(s, t))
  {
    hide MinorStep, KeepsWants;
    PutAt(s.tasks, p, t, 0);
    ReplaceMinor(s, p, t);
  }

  lemma RunsMinor(s: Sys, p: nat, t: Command, u: Update, mesosAgent: string, networks: nat)
    requires DistinctKeys(s.tasks) && p < |s.tasks| && t.name.Some?
    requires Evolves(s.tasks[p], t) && t.instances == s.tasks[p].instances
    ensures MinorStep(s, Runs(s, t, u, mesosAgent, networks)) && KeepsWants(s, Runs(s, t, u, mesosAgent, networks))
  {
    hide KeepsWants;
    var v := t.(mesosAgent := mesosAgent, networks := networks, agent := u.agent);
    var s1 := if t.name == Some(Server) && |t.mappings| > 0 then s.(cfg := s.cfg.(serverPort := t.mappings[0])) else s;
    assert PortSource(s, s1.cfg.serverPort) by {
      assert s.tasks[p].name == t.name && s.tasks[p].mappings == t.mappings;
    }
    hide MinorStep, Saved, PortSource;
    assert PortSource(s, s1.saved.serverPort) by { SavedSource(s); }
    SameStore(s, s1);
    SavedMinor(s1, p, v);
    MinorTrans(s, s1, Saved(s1, v));
    WantsTrans(s, s1, Saved(s1, v));
  }

  lemma SavedSource(s: Sys)
    ensures PortSource(s, s.saved.serverPort)
  {
  }

  // ---------- New tasks ----------

  lemma NewTaskUnassigned(env: Settings, cfg: Config, k: Kind, id: string)
    requires FixedPortOutside(env, cfg.serverPort)
    ensures Unassigned(env, NewTask(env, cfg, k, id))
  {
  }

  /** An ID that was never sent is not in the queue and in no ACCEPT. */
  lemma UnsentNowhere(s: Sys, t: Command)
    requires Accounted(s) && t.id !in s.sent
    ensures forall i | 0 <= i < |s.queue| :: s.queue[i].id != t.id
    ensures forall i | 0 <= i < |Accepts(s.log)| :: Accepts(s.log)[i].task != t.id
  {
    var q, l := QueueIds(s.queue), Launches(s.log);
    assert multiset(s.sent)[t.id] == 0;
    forall i | 0 <= i < |s.queue| ensures s.queue[i].id != t.id {
      assert q[i] in multiset(q);
    }
    forall i | 0 <= i < |Accepts(s.log)| ensures Accepts(s.log)[i].task != t.id {
      assert l[i] in multiset(l);
    }
  }

  lemma PutUnused(ts: seq<Command>, c: Command, at: nat) returns (q: nat)
    requires forall i | 0 <= i < |ts| :: ts[i].id != c.id
    ensures q <= |ts| && Put(ts, c, at) == ts[..q] + [c] + ts[q..]
    ensures DistinctIds(ts) ==> DistinctIds(ts[..q] + [c] + ts[q..])
  {
    q := if at < |ts| then at else |ts|;
  }

  /** Storing a new task under an unused ID. */
  lemma AddSafe(env: Settings, ports: bool, issued: set<string>, s: Sys, k: Kind, id: string, at: nat)
    requires Safe(env, ports, issued, s) && id !in issued && id != ""
    ensures Safe(env, ports, issued + {id}, s.(tasks := Put(s.tasks, NewTask(env, s.cfg, k, id), at)))
  {
    hide DistinctIds, PortsInOrder, Launches, QueueIds, Put;
    var c := NewTask(env, s.cfg, k, id);
    var ts := s.tasks;
    forall i | 0 <= i < |ts| ensures ts[i].id != id {
      assert ProperTask(issued, s.sent, ts[i]);
    }
    var q := PutUnused(ts, c, at);
    var us := ts[..q] + [c] + ts[q..];
    var r := s.(tasks := us);
    UnsentNowhere(s, c);
    hide Accepts;
    forall i | 0 <= i < |us| ensures ProperTask(issued + {id}, s.sent, us[i]) && PortsCarried(r, us[i]) {
      if i != q {
        assert ProperTask(issued, s.sent, ts[if i < q then i else i - 1]);
        assert PortsCarried(s, ts[if i < q then i else i - 1]);
      }
    }
    hide ProperTask, NewTask, PortsCarried;
    if ports && !s.exhausted {
      AddPorts(env, issued, s, k, id, q);
    }
  }

  lemma AddPorts(env: Settings, issued: set<string>, s: Sys, k: Kind, id: string, q: nat)
    requires LifeCycle(issued, s) && PortsInOrder(env, s) && id !in issued && q <= |s.tasks|
    ensures PortsInOrder(env, s.(tasks := s.tasks[..q] + [NewTask(env, s.cfg, k, id)] + s.tasks[q..]))
  {
    var c := NewTask(env, s.cfg, k, id);
    var ts := s.tasks;
    var us := ts[..q] + [c] + ts[q..];
    NewTaskUnassigned(env, s.cfg, k, id);
    forall i | 0 <= i < |us| ensures Ported(env, s.(tasks := us), us[i]) {
      if i != q {
        assert Ported(env, s, ts[if i < q then i else i - 1]);
      }
    }
    hide Disjoint, Dynamic, Unassigned, WellAssigned, Ported, FixedPortOutside;
    forall i, j | 0 <= i < j < |us| && us[i].id in s.sent && us[j].id in s.sent
      ensures Disjoint(Dynamic(us[i].name, us[i].mappings), Dynamic(us[j].name, us[j].mappings))
    {
      var m, n := if i < q then i else i - 1, if j < q then j else j - 1;
      assert us[i] == ts[m] && us[j] == ts[n];
    }
  }

  lemma StartedSafe(env: Settings, ports: bool, issued: set<string>, s: Sys, k: Kind, id: string, at: nat)
    requires Safe(env, ports, issued, s) && id !in issued && id != ""
    ensures Safe(env, ports, issued + {id}, TaskStarted(env, s, k, id, at))
  {
    var n, max := Count(s.tasks, k), s.cfg.max.Of(k);
    MoreIssued(env, ports, issued, {id}, s);
    if n < max {
      AddSafe(env, ports, issued, s, k, id, at);
    } else if n > max && !k.Datastore? {
      ScaledMinor(s, k, max, n);
      MinorSafe(env, ports, issued + {id}, s, Scaled(s, k, max, n));
    }
  }

  lemma HeartbeatSafe(env: Settings, ports: bool, issued: set<string>, s: Sys, b: Beat)
    requires Safe(env, ports, issued, s) && FreshIds(issued, Beating(b))
    ensures Safe(env, ports, issued + IdsOf(Beating(b)), HeartbeatDone(env, s, b))
  {
    var all := issued + IdsOf(Beating(b));
    hide Safe, MinorStep, KeepsWants, Settled, Alarmed, HealthChecked, TaskStarted, NodesHealthy, DatastoreHealthy;
    if NothingWanted(s) {
      SettledMinor(s);
      MinorSafe(env, ports, issued, s, Settled(s));
      MoreIssued(env, ports, issued, IdsOf(Beating(b)), Settled(s));
    } else {
      var ds, server := DatastoreHealthy(s.tasks), NodesHealthy(env, s, Server, b.now);
      var agents := AgentsHealthy(env, s, b.now);
      var s1 := Examined(env, s, b.now);
      ExaminedMinor(env, s, b.now);
      MinorSafe(env, ports, issued, s, s1);
      if ds && server && agents {
        SettledMinor(s1);
        MinorSafe(env, ports, issued, s1, Settled(s1));
        MoreIssued(env, ports, issued, IdsOf(Beating(b)), Settled(s1));
      } else {
        AlarmedMinor(s1);
        MinorSafe(env, ports, issued, s1, Alarmed(s1));
        LaunchedSafe(env, ports, issued, Alarmed(s1), ds, server, agents, b);
      }
    }
  }

  lemma LaunchedSafe(env: Settings, ports: bool, issued: set<string>, s: Sys, ds: bool, server: bool, agents: bool,
          b: Beat)
    requires Safe(env, ports, issued, s) && FreshIds(issued, Beating(b))
    ensures Safe(env, ports, issued + IdsOf(Beating(b)), Launched(env, s, ds, server, agents, b))
  {
    hide Safe, TaskStarted;
    var ids := b.ids;
    var two := issued + {ids.datastore, ids.server};
    var s1 := if !ds then TaskStarted(env, s, Datastore, ids.datastore, b.at.datastore)
              else if !server then TaskStarted(env, s, Server, ids.server, b.at.server) else s;
    StartedSafe(env, ports, issued, s, Datastore, ids.datastore, b.at.datastore);
    StartedSafe(env, ports, issued, s, Server, ids.server, b.at.server);
    MoreIssued(env, ports, issued, {ids.datastore, ids.server}, s);
    assert issued + {ids.datastore} + {ids.server} == two && issued + {ids.server} + {ids.datastore} == two;
    if !ds {
      MoreIssued(env, ports, issued + {ids.datastore}, {ids.server}, s1);
    } else if !server {
      MoreIssued(env, ports, issued + {ids.server}, {ids.datastore}, s1);
    }
    StartedSafe(env, ports, two, s1, Agent, ids.agent, b.at.agent);
    MoreIssued(env, ports, two, {ids.agent}, s1);
    assert two + {ids.agent} == issued + IdsOf(Beating(b));
  }

  // ---------- CheckState ----------

  lemma QueueIdsAppend(q: seq<Command>, c: Command)
    ensures QueueIds(q + [c]) == QueueIds(q) + [c.id]
  {
  }

  /** The two rewrites keep mappings and discovery record in agreement, whatever the search answers. */
  lemma PromotedAgrees(env: Settings, ts: seq<Command>, t: Command, now: int)
    requires t.mappings == t.discovery
    ensures Promoted(env, ts, t, now).mappings == Promoted(env, ts, t, now).discovery
    ensures |Promoted(env, ts, t, now).mappings| == |t.mappings|
  {
  }

  /** Scheduling a fresh task keeps the life-cycle invariant. */
  lemma ScheduledLifeCycle(env: Settings, issued: set<string>, s: Sys, i: nat, now: int)
    requires LifeCycle(issued, s) && i < |s.tasks| && s.tasks[i].state.Fresh?
    ensures LifeCycle(issued, Scheduled(env, s, i, now))
  {
    hide Assigned, Synced, HostPort;
    var t := s.tasks[i];
    assert ProperTask(issued, s.sent, t);
    var r := Scheduled(env, s, i, now);
    PromotedAgrees(env, s.tasks, t, now);
    ScheduledAccounted(env, s, i, now);
    hide Accounted;
    forall j | 0 <= j < |r.tasks| ensures ProperTask(issued, r.sent, r.tasks[j]) {
      assert ProperTask(issued, s.sent, s.tasks[j]);
    }
  }

  /** Scheduling puts one ID on the channel and among the sent ones. */
  lemma ScheduledAccounted(env: Settings, s: Sys, i: nat, now: int)
    requires Accounted(s) && i < |s.tasks|
    ensures Accounted(Scheduled(env, s, i, now))
  {
    hide Assigned, Synced, HostPort, QueueIds, Launches;
    var t, r := s.tasks[i], Scheduled(env, s, i, now);
    AcceptsEmit(s.log, Revive(CheckStateStep));
    QueueIdsAppend(s.queue, r.tasks[i]);
    assert multiset(QueueIds(s.queue) + [t.id]) == multiset(QueueIds(s.queue)) + multiset{t.id};
    assert multiset(s.sent + [t.id]) == multiset(s.sent) + multiset{t.id};
  }

  lemma ScheduledCarried(env: Settings, issued: set<string>, s: Sys, i: nat, now: int)
    requires LifeCycle(issued, s) && Carried(s) && i < |s.tasks| && s.tasks[i].state.Fresh?
    ensures Carried(Scheduled(env, s, i, now))
  {
    hide Assigned, Synced, HostPort, Accepts;
    var r := Scheduled(env, s, i, now);
    assert ProperTask(issued, s.sent, s.tasks[i]);
    UnsentNowhere(s, s.tasks[i]);
    AcceptsEmit(s.log, Revive(CheckStateStep));
    hide Accounted;
    forall j | 0 <= j < |r.tasks| ensures PortsCarried(r, r.tasks[j]) {
      assert PortsCarried(s, s.tasks[j]);
      assert j != i ==> s.tasks[j].id != s.tasks[i].id;
    }
  }

  /** A port that no record lists is in no task's dynamic ports. */
  lemma UnusedElsewhere(ts: seq<Command>, t: Command, port: nat)
    requires !InUse(ts, port) && t in ts && t.mappings == t.discovery
    ensures forall m | 0 <= m < |Dynamic(t.name, t.mappings)| :: Dynamic(t.name, t.mappings)[m] != port
  {
    forall m | 0 <= m < |Dynamic(t.name, t.mappings)|
      ensures Dynamic(t.name, t.mappings)[m] in t.discovery
    {
      var off := if t.name == Some(Server) && |t.mappings| > 0 then 1 else 0;
      assert Dynamic(t.name, t.mappings)[m] == t.mappings[off + m];
    }
  }

  /** Scheduling a fresh task by a successful search keeps the ports in order. */
  lemma ScheduledPorts(env: Settings, issued: set<string>, s: Sys, i: nat, now: int)
    requires RangeSane(env) && LifeCycle(issued, s) && PortsInOrder(env, s)
    requires i < |s.tasks| && s.tasks[i].state.Fresh? && HostPort(env, s.tasks, |s.tasks[i].discovery|) != 0
    ensures PortsInOrder(env, Scheduled(env, s, i, now))
  {
    var ts, t := s.tasks, s.tasks[i];
    var u := Promoted(env, ts, t, now);
    var r := Scheduled(env, s, i, now);
    assert ProperTask(issued, s.sent, t);
    assert Ported(env, s, t);
    PromotionAssigns(env, ts, t, now);
    var d := Dynamic(u.name, u.mappings);
    hide Promoted, HostPort, WellAssigned, Unassigned, FixedPortOutside;
    forall j | 0 <= j < |r.tasks| ensures Ported(env, r, r.tasks[j]) {
      assert Ported(env, s, ts[j]);
      assert j != i ==> ts[j].id != t.id;
    }
    forall j, m | 0 <= j < m < |r.tasks| && r.tasks[j].id in r.sent && r.tasks[m].id in r.sent
      ensures Disjoint(Dynamic(r.tasks[j].name, r.tasks[j].mappings), Dynamic(r.tasks[m].name, r.tasks[m].mappings))
    {
      if j == i || m == i {
        var o := if j == i then m else j;
        PortsListed(env, s, o);
        forall x | 0 <= x < |d| ensures !InUse(ts, d[x]) {
        }
        ApartFromUnused(ts, ts[o], d);
      } else {
        assert ts[j].id in s.sent && ts[m].id in s.sent;
      }
    }
  }

  lemma PortsListed(env: Settings, s: Sys, o: nat)
    requires o < |s.tasks| && Ported(env, s, s.tasks[o])
    ensures s.tasks[o].mappings == s.tasks[o].discovery
  {
  }

  lemma ApartFromUnused(ts: seq<Command>, t: Command, d: seq<nat>)
    requires t in ts && t.mappings == t.discovery && forall x | 0 <= x < |d| :: !InUse(ts, d[x])
    ensures Disjoint(d, Dynamic(t.name, t.mappings)) && Disjoint(Dynamic(t.name, t.mappings), d)
  {
    forall x | 0 <= x < |d|
      ensures forall m | 0 <= m < |Dynamic(t.name, t.mappings)| :: Dynamic(t.name, t.mappings)[m] != d[x]
    {
      UnusedElsewhere(ts, t, d[x]);
    }
    hide InUse, Dynamic;
  }

  lemma ScheduledSafe(env: Settings, ports: bool, issued: set<string>, s: Sys, i: nat, now: int)
    requires (ports ==> RangeSane(env)) && Safe(env, ports, issued, s) && i < |s.tasks| && s.tasks[i].state.Fresh?
    ensures Safe(env, ports, issued, Scheduled(env, s, i, now))
  {
    ScheduledLifeCycle(env, issued, s, i, now);
    ScheduledCarried(env, issued, s, i, now);
    hide LifeCycle, Carried, PortsInOrder;
    if ports && !s.exhausted && HostPort(env, s.tasks, |s.tasks[i].discovery|) != 0 {
      ScheduledPorts(env, issued, s, i, now);
    }
  }

  lemma {:induction false} CheckedSafe(env: Settings, ports: bool, issued: set<string>, s: Sys, i: nat, now: int)
    requires (ports ==> RangeSane(env)) && Safe(env, ports, issued, s) && i <= |s.tasks|
    ensures Safe(env, ports, issued, CheckedFrom(env, s, i, now))
    decreases |s.tasks| - i
  {
    hide Safe, Scheduled, Wanted;
    if i == |s.tasks| {
    } else {
      var t := s.tasks[i];
      var s1 := s.(tasks := RemoveAt(s.tasks, i));
      WantedIsFresh(s.tasks, t);
      if t.id == "" || t.name.None? {
        CheckedSafe(env, ports, issued, s, i + 1, now);
      } else if Wanted(s.tasks, t) {
        ScheduledSafe(env, ports, issued, s, i, now);
        ScheduledLength(env, s, i, now);
        CheckedSafe(env, ports, issued, Scheduled(env, s, i, now), i + 1, now);
      } else if t.state.Fresh? && t.since.None? {
        RemoveMinor(s, i);
        MinorSafe(env, ports, issued, s, s1);
        CheckedSafe(env, ports, issued, s1, i, now);
      } else {
        CheckedSafe(env, ports, issued, s, i + 1, now);
      }
    }
  }

  lemma WantedIsFresh(ts: seq<Command>, t: Command)
    ensures Wanted(ts, t) ==> t.state.Fresh?
  {
  }

  lemma ScheduledLength(env: Settings, s: Sys, i: nat, now: int)
    requires i < |s.tasks|
    ensures |Scheduled(env, s, i, now).tasks| == |s.tasks|
  {
  }

  // ---------- Offers, restarts and the rest ----------

  /** What an offers event leaves alone. */
  lemma OffersFrame(env: Settings, s: Sys, offers: seq<Offer>, accepted: bool)
    ensures var r := OffersHandled(env, s, offers, accepted);
            && r == s.(queue := r.queue, log := r.log)
            && (r.queue == s.queue || (|s.queue| > 0
                 && (r.queue == s.queue[1..] || r.queue == s.queue[1..] + [s.queue[0]])))
  {
    hide Pick, Leftover, ClaimsOf, OfferIds;
  }

  lemma OffersLifeCycle(env: Settings, issued: set<string>, s: Sys, offers: seq<Offer>, accepted: bool)
    requires LifeCycle(issued, s)
    ensures LifeCycle(issued, OffersHandled(env, s, offers, accepted))
  {
    OffersFrame(env, s, offers, accepted);
    OffersAccounted(env, s, offers, accepted);
    hide OffersHandled, ProperTask, Accounted;
  }

  /** What an offers event does to the queue and the log: it declines, or drops a malformed head of the queue, or
      declines and accepts for the head. */
  lemma OffersOutcome(env: Settings, s: Sys, offers: seq<Offer>, accepted: bool) returns (left: Call, accept: Call)
    ensures left.Decline? && accept.Accept?
    ensures var r := OffersHandled(env, s, offers, accepted);
            if |s.queue| == 0 then r.queue == s.queue && r.log == s.log + [left]
            else
              var cmd, rest := s.queue[0], s.queue[1..];
              if cmd.id == "" || cmd.name.None? then r.queue == rest && r.log == s.log
              else
                || (r.queue == rest + [cmd] && r.log == s.log + [left])
                || (r.queue == rest && accept.task == cmd.id && accept.claims == ClaimsOf(cmd)
                    && (r.log == s.log + [left] + [accept] || r.log == s.log + [left] + [accept] + [left]))
  {
    hide Pick, Leftover, ClaimsOf, OfferIds;
    left, accept := Decline(OfferIds(offers)), Accept("", "", []);
    if |s.queue| > 0 {
      var cmd := s.queue[0];
      var p := Pick(env, cmd, offers);
      left := Decline(Leftover(env, cmd, offers));
      if p < |offers| {
        accept := Accept(offers[p].id, cmd.id, ClaimsOf(cmd));
      }
    }
  }

  /** The head of the queue goes to its back or into the launches, or nothing was queued. */
  lemma OffersMoved(env: Settings, s: Sys, offers: seq<Offer>, accepted: bool)
    requires ProperQueue(s.queue)
    ensures var r := OffersHandled(env, s, offers, accepted);
            if |s.queue| == 0 then r.queue == s.queue && Launches(r.log) == Launches(s.log)
            else
              var id, rest := s.queue[0].id, QueueIds(s.queue[1..]);
              || (QueueIds(r.queue) == rest + [id] && Launches(r.log) == Launches(s.log))
              || (QueueIds(r.queue) == rest && Launches(r.log) == Launches(s.log) + [id])
  {
    var left, accept := OffersOutcome(env, s, offers, accepted);
    hide OffersHandled, ClaimsOf, QueueIds, Launches;
    AcceptsEmit(s.log, left);
    AcceptsEmit(s.log + [left], accept);
    AcceptsEmit(s.log + [left] + [accept], left);
    if |s.queue| > 0 {
      QueueIdsAppend(s.queue[1..], s.queue[0]);
    }
  }

  lemma OffersAccounted(env: Settings, s: Sys, offers: seq<Offer>, accepted: bool)
    requires ProperQueue(s.queue) && Accounted(s)
    ensures Accounted(OffersHandled(env, s, offers, accepted))
  {
    OffersMoved(env, s, offers, accepted);
    hide OffersHandled, QueueIds, Launches;
    if |s.queue| > 0 {
      QueueIdsSplit(s.queue);
      Moved(QueueIds(s.queue[1..]), Launches(s.log), s.lost, s.queue[0].id);
    }
  }

  lemma QueueIdsSplit(q: seq<Command>)
    requires |q| > 0
    ensures QueueIds(q) == [q[0].id] + QueueIds(q[1..])
  {
  }

  /** Taking an ID from the front of the queue and putting it at its back or into the launches changes no count. */
  lemma Moved(queue: seq<string>, launches: seq<string>, lost: seq<string>, id: string)
    ensures multiset([id] + queue) + multiset(launches) + multiset(lost)
         == multiset(queue + [id]) + multiset(launches) + multiset(lost)
         == multiset(queue) + multiset(launches + [id]) + multiset(lost)
  {
  }

  /** The ACCEPT an offers event adds, if any, claims what the head of the queue needs. */
  lemma OffersAccepts(env: Settings, s: Sys, offers: seq<Offer>, accepted: bool)
    ensures var r := OffersHandled(env, s, offers, accepted);
            || Accepts(r.log) == Accepts(s.log)
            || (|s.queue| > 0 && exists o ::
                  Accepts(r.log) == Accepts(s.log) + [Accept(o, s.queue[0].id, ClaimsOf(s.queue[0]))])
  {
    var left, accept := OffersOutcome(env, s, offers, accepted);
    hide OffersHandled, ClaimsOf, Accepts;
    AcceptsEmit(s.log, left);
    AcceptsEmit(s.log + [left], accept);
    AcceptsEmit(s.log + [left] + [accept], left);
  }

  lemma OffersCarried(env: Settings, s: Sys, offers: seq<Offer>, accepted: bool, i: nat)
    requires i < |s.tasks| && PortsCarried(s, s.tasks[i])
    ensures PortsCarried(OffersHandled(env, s, offers, accepted), s.tasks[i])
  {
    OffersFrame(env, s, offers, accepted);
    OffersAccepts(env, s, offers, accepted);
    hide OffersHandled, ClaimsOf, Accepts, ClaimedPorts;
    if |s.queue| > 0 {
      LaunchClaimsMappings(s.queue[0]);
    }
  }

  lemma OffersSafe(env: Settings, ports: bool, issued: set<string>, s: Sys, offers: seq<Offer>, accepted: bool)
    requires Safe(env, ports, issued, s)
    ensures Safe(env, ports, issued, OffersHandled(env, s, offers, accepted))
  {
    var r := OffersHandled(env, s, offers, accepted);
    OffersLifeCycle(env, issued, s, offers, accepted);
    OffersFrame(env, s, offers, accepted);
    hide LifeCycle, OffersHandled, Ported, Disjoint, FixedPortOutside, PortsCarried;
    forall i | 0 <= i < |r.tasks| ensures PortsCarried(r, r.tasks[i]) {
      OffersCarried(env, s, offers, accepted, i);
    }
    if ports && !s.exhausted {
      forall i | 0 <= i < |r.tasks| ensures Ported(env, r, r.tasks[i]) {
        SamePorts(env, s, r, i);
      }
    }
  }

  lemma SamePorts(env: Settings, s: Sys, r: Sys, i: nat)
    requires r.tasks == s.tasks && r.sent == s.sent && i < |s.tasks| && Ported(env, s, s.tasks[i])
    ensures Ported(env, r, r.tasks[i])
  {
  }

  lemma RestartedSafe(env: Settings, ports: bool, issued: set<string>, s: Sys)
    requires Safe(env, ports, issued, s)
    ensures Safe(env, ports, issued, Restarted(s))
  {
    var r := Restarted(s);
    assert QueueIds(r.queue) == [];
    assert multiset(s.lost + QueueIds(s.queue)) == multiset(s.lost) + multiset(QueueIds(s.queue));
    hide Accepts, Disjoint, FixedPortOutside, ProperTask;
    forall i | 0 <= i < |r.tasks| ensures PortsCarried(r, r.tasks[i]) {
      assert PortsCarried(s, s.tasks[i]);
    }
    if ports && !s.exhausted {
      forall i | 0 <= i < |r.tasks| ensures Ported(env, r, r.tasks[i]) {
        SamePorts(env, s, r, i);
      }
    }
  }

  /** Every step keeps the invariant. */
  lemma StepSafe(env: Settings, ports: bool, issued: set<string>, s: Sys, e: Event)
    requires (ports ==> RangeSane(env)) && Safe(env, ports, issued, s) && FreshIds(issued, e)
    ensures Safe(env, ports, issued + IdsOf(e), Apply(env, s, e))
  {
    if e.Beating? {
      HeartbeatSafe(env, ports, issued, s, e.b);
    } else {
      assert issued + IdsOf(e) == issued;
      if e.Checking? {
        CheckedSafe(env, ports, issued, s, 0, e.now);
      } else if e.Offered? {
        OffersSafe(env, ports, issued, s, e.offers, e.accepted);
      } else if e.Crashed? {
        RestartedSafe(env, ports, issued, s);
      } else {
        LifeCycleNames(issued, s);
        OtherMinor(env, s, e);
        MinorSafe(env, ports, issued, s, Apply(env, s, e));
      }
    }
  }

  lemma SafeLifeCycle(env: Settings, ports: bool, issued: set<string>, s: Sys)
    requires Safe(env, ports, issued, s)
    ensures LifeCycle(issued, s)
  {
  }

  lemma LifeCycleNames(issued: set<string>, s: Sys)
    requires LifeCycle(issued, s)
    ensures DistinctIds(s.tasks) && forall i | 0 <= i < |s.tasks| :: s.tasks[i].name.Some? && s.tasks[i].id != ""
  {
    forall i | 0 <= i < |s.tasks| ensures s.tasks[i].name.Some? && s.tasks[i].id != "" {
      assert ProperTask(issued, s.sent, s.tasks[i]);
    }
  }

  lemma OtherMinor(env: Settings, s: Sys, e: Event)
    requires !e.Beating? && !e.Checking? && !e.Offered? && !e.Crashed?
    requires DistinctIds(s.tasks) && forall i | 0 <= i < |s.tasks| :: s.tasks[i].name.Some? && s.tasks[i].id != ""
    ensures MinorStep(s, Apply(env, s, e))
  {
    hide MinorStep, UpdateHandled, ScaledTo, Stopped, Started, SweptFrom, Cleaned, HeartbeatDone, CheckedFrom,
      OffersHandled, Accepts, DistinctIds;
    match e
    case Updated(u, a, n) =>
      var s1 := UpdateHandled(s, u, a, n);
      UpdateMinor(s, u, a, n);
      SameStore(s1, SaveConfig(s1));
      MinorTrans(s, s1, SaveConfig(s1));
    case ScaleRequest(k, count) => ScaledToMinor(s, k, count);
    case StopRequest(ds) => StoppedMinor(s, ds);
    case StartRequest =>
      SelfMinor(s);
      StartedMinor(s);
    case Sweeping => SweptMinor(s, 0);
    case CleaningNodes => CleanedMinor(s);
    case NodeReported(_, _) => SameStore(s, Apply(env, s, e));
    case ClusterChanged(nodes, up) => SameStore(s, Apply(env, s, e));
    case Resubscribed => SameStore(s, Apply(env, s, e));
  }

  /** In every state of every run from a safe one, the invariant holds. */
  lemma {:induction false} RunSafe(env: Settings, ports: bool, issued: set<string>, s: Sys, events: seq<Event>)
    requires (ports ==> RangeSane(env)) && Safe(env, ports, issued, s) && FreshRun(issued, events)
    ensures Safe(env, ports, Issued(issued, events), Run(env, s, events))
  {
    hide Safe, Apply;
    if |events| == 0 {
    } else {
      var front := events[..|events| - 1];
      RunSafe(env, ports, issued, s, front);
      StepSafe(env, ports, Issued(issued, front), Run(env, s, front), events[|events| - 1]);
    }
  }
}
