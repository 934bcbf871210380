/** Steps that schedule and launch nothing: they drop tasks, or change what Mesos reports about them.
    Most handlers are such steps; the invariants of whole runs carry over each of them. */
module Minor {
  import opened Types
  import opened Store
  import opened Nodes
  import opened Scaling
  import opened Scheduling
  import opened Updates
  import opened Machine
  import opened Calls

  /** A stored task later on: identity, ports and needs are the same, and a state only changes to a reported one. */
  ghost predicate Evolves(t: Command, u: Command) {
    && u == t.(state := u.state, instances := u.instances,
               agent := u.agent, mesosAgent := u.mesosAgent, networks := u.networks)
    && (u.state == t.state || u.state.Reported?)
  }

  ghost predicate EvolvedFrom(ts: seq<Command>, u: Command) {
    exists j :: 0 <= j < |ts| && Evolves(ts[j], u)
  }

  /** Where an API server port can come from: the configuration, its saved copy, or a stored server. */
  ghost predicate PortSource(s: Sys, p: int) {
    || p == s.cfg.serverPort
    || p == s.saved.serverPort
    || exists j :: 0 <= j < |s.tasks| && s.tasks[j].name == Some(Server) && |s.tasks[j].mappings| > 0
                   && p == s.tasks[j].mappings[0]
  }

  ghost predicate FewerOfAll(ts: seq<Command>, us: seq<Command>) {
    forall k :: Count(us, k) <= Count(ts, k)
  }

  ghost predicate MinorStep(s: Sys, r: Sys) {
    && r.queue == s.queue && r.sent == s.sent && r.lost == s.lost && r.exhausted == s.exhausted
    && Accepts(r.log) == Accepts(s.log)
    && (DistinctIds(s.tasks) ==> DistinctIds(r.tasks))
    && FewerOfAll(s.tasks, r.tasks)
    && (forall i | 0 <= i < |r.tasks| :: EvolvedFrom(s.tasks, r.tasks[i]))
    && PortSource(s, r.cfg.serverPort) && PortSource(s, r.saved.serverPort)
  }

  /** A task with the name and the instance count of `u` is stored. */
  ghost predicate WantedBefore(ts: seq<Command>, u: Command) {
    exists j :: 0 <= j < |ts| && ts[j].name == u.name && ts[j].instances == u.instances
  }

  /** The wanted counts stay, in the configuration and in every stored task. */
  ghost predicate KeepsWants(s: Sys, r: Sys) {
    && r.cfg.max == s.cfg.max && r.cfg.restore == s.cfg.restore
    && forall i | 0 <= i < |r.tasks| :: WantedBefore(s.tasks, r.tasks[i])
  }

  lemma EvolvedTrans(ts: seq<Command>, us: seq<Command>, v: Command)
    requires forall i | 0 <= i < |us| :: EvolvedFrom(ts, us[i])
    requires EvolvedFrom(us, v)
    ensures EvolvedFrom(ts, v)
  {
    var i :| 0 <= i < |us| && Evolves(us[i], v);
    var j :| 0 <= j < |ts| && Evolves(ts[j], us[i]);
    assert Evolves(ts[j], v);
  }

  lemma SourceTrans(a: Sys, b: Sys, p: int)
    requires PortSource(a, b.cfg.serverPort) && PortSource(a, b.saved.serverPort)
    requires forall i | 0 <= i < |b.tasks| :: EvolvedFrom(a.tasks, b.tasks[i])
    requires PortSource(b, p)
    ensures PortSource(a, p)
  {
    if p != b.cfg.serverPort && p != b.saved.serverPort {
      var j :| 0 <= j < |b.tasks| && b.tasks[j].name == Some(Server) && |b.tasks[j].mappings| > 0
          && p == b.tasks[j].mappings[0];
      assert EvolvedFrom(a.tasks, b.tasks[j]);
      var i :| 0 <= i < |a.tasks| && Evolves(a.tasks[i], b.tasks[j]);
      assert a.tasks[i].mappings[0] == p;
    }
  }

  lemma MinorTrans(a: Sys, b: Sys, c: Sys)
    requires MinorStep(a, b) && MinorStep(b, c)
    ensures MinorStep(a, c)
  {
    forall i | 0 <= i < |c.tasks|
      ensures EvolvedFrom(a.tasks, c.tasks[i])
    {
      EvolvedTrans(a.tasks, b.tasks, c.tasks[i]);
    }
    SourceTrans(a, b, c.cfg.serverPort);
    SourceTrans(a, b, c.saved.serverPort);
    hide EvolvedFrom, PortSource, DistinctIds, Count;
  }

  lemma WantsTrans(a: Sys, b: Sys, c: Sys)
    requires KeepsWants(a, b) && KeepsWants(b, c)
    ensures KeepsWants(a, c)
  {
    forall i | 0 <= i < |c.tasks|
      ensures WantedBefore(a.tasks, c.tasks[i])
    {
      assert WantedBefore(b.tasks, c.tasks[i]);
      var j :| 0 <= j < |b.tasks| && b.tasks[j].name == c.tasks[i].name && b.tasks[j].instances == c.tasks[i].instances;
      assert WantedBefore(a.tasks, b.tasks[j]);
    }
  }

  /** The same store, and no ACCEPT in the log since. */
  lemma SameStore(s: Sys, r: Sys)
    requires r.tasks == s.tasks && r.queue == s.queue && r.sent == s.sent && r.lost == s.lost
        && r.exhausted == s.exhausted
    requires Accepts(r.log) == Accepts(s.log)
    requires PortSource(s, r.cfg.serverPort) && PortSource(s, r.saved.serverPort)
    ensures MinorStep(s, r)
    ensures r.cfg.max == s.cfg.max && r.cfg.restore == s.cfg.restore ==> KeepsWants(s, r)
  {
    hide Accepts, PortSource, DistinctIds, Count;
    forall i | 0 <= i < |s.tasks|
      ensures EvolvedFrom(s.tasks, s.tasks[i]) && WantedBefore(s.tasks, s.tasks[i])
    {
      assert Evolves(s.tasks[i], s.tasks[i]);
    }
  }

  lemma EmitMinor(s: Sys, c: Call)
    requires !c.Accept?
    ensures MinorStep(s, Emit(s, c)) && KeepsWants(s, Emit(s, c))
  {
    AcceptsEmit(s.log, c);
    SameStore(s, Emit(s, c));
  }

  lemma RemoveMinor(s: Sys, i: nat)
    requires i < |s.tasks|
    ensures MinorStep(s, s.(tasks := RemoveAt(s.tasks, i))) && KeepsWants(s, s.(tasks := RemoveAt(s.tasks, i)))
  {
    var us := RemoveAt(s.tasks, i);
    forall k ensures Count(us, k) <= Count(s.tasks, k) {
      CountRemove(s.tasks, i, k);
    }
    hide Accepts, Count;
    forall j | 0 <= j < |us|
      ensures EvolvedFrom(s.tasks, us[j]) && WantedBefore(s.tasks, us[j])
    {
      assert Evolves(s.tasks[if j < i then j else j + 1], us[j]);
    }
  }

  lemma ReplaceMinor(s: Sys, i: nat, u: Command)
    requires i < |s.tasks| && Evolves(s.tasks[i], u)
    ensures MinorStep(s, s.(tasks := s.tasks[i := u]))
    ensures u.instances == s.tasks[i].instances ==> KeepsWants(s, s.(tasks := s.tasks[i := u]))
  {
    var us := s.tasks[i := u];
    forall k ensures Count(us, k) <= Count(s.tasks, k) {
      CountReplace(s.tasks, i, u, k);
    }
    hide Accepts, Count;
    forall j | 0 <= j < |us|
      ensures EvolvedFrom(s.tasks, us[j])
      ensures u.instances == s.tasks[i].instances ==> WantedBefore(s.tasks, us[j])
    {
      assert Evolves(s.tasks[j], us[j]);
    }
  }

  // ---------- The handlers ----------

  lemma CleanedMinor(s: Sys)
    ensures MinorStep(s, Cleaned(s)) && KeepsWants(s, Cleaned(s))
  {
    CleanedAdds(s);
    hide MinorStep, KeepsWants, Adds;
    AddsOnly(s.log, Cleaned(s).log, NODES);
    SameStore(s, Cleaned(s));
  }

  lemma NodeDeletedMinor(s: Sys, name: string)
    ensures MinorStep(s, NodeDeleted(s, name)) && KeepsWants(s, NodeDeleted(s, name))
  {
    NodeDeletedAdds(s, name);
    hide MinorStep, KeepsWants, Adds;
    AddsOnly(s.log, NodeDeleted(s, name).log, NODES);
    SameStore(s, NodeDeleted(s, name));
  }

  lemma SelfMinor(s: Sys)
    ensures MinorStep(s, s) && KeepsWants(s, s)
  {
    SameStore(s, s);
  }

  /** Only instance counts of one kind differ in the store. */
  lemma RescaledEvolves(ts: seq<Command>, us: seq<Command>, k: Kind, count: int)
    requires Rescaled(ts, us, k, count, 0)
    ensures FewerOfAll(ts, us) && (DistinctIds(ts) ==> DistinctIds(us))
    ensures forall j | 0 <= j < |us| :: EvolvedFrom(ts, us[j])
  {
    forall o ensures Count(us, o) == Count(ts, o) {
      RescaledCount(ts, us, k, count, 0, o);
    }
    hide Count;
    forall j | 0 <= j < |us| ensures EvolvedFrom(ts, us[j]) {
      assert Evolves(ts[j], us[j]);
    }
  }

  lemma ScaledMinor(s: Sys, k: Kind, count: int, prior: int)
    ensures MinorStep(s, Scaled(s, k, count, prior))
  {
    hide ScaledFrom, Adds, Rescaled, FewerOfAll, EvolvedFrom, DistinctIds, Count, Accepts;
    ScaledFromStore(SaveConfig(s), k, count, prior, 0);
    ScaledFromAdds(SaveConfig(s), k, count, prior, 0);
    AddsOnly(s.log, Scaled(s, k, count, prior).log, SCALE);
    RescaledEvolves(s.tasks, Scaled(s, k, count, prior).tasks, k, count);
  }

  /** Only the counts in the configuration differ. */
  lemma CountsMinor(s: Sys, r: Sys)
    requires r == s.(cfg := s.cfg.(max := r.cfg.max, restore := r.cfg.restore))
    ensures MinorStep(s, r)
  {
    SameStore(s, r);
  }

  lemma ScaledToMinor(s: Sys, k: Kind, count: int)
    ensures MinorStep(s, ScaledTo(s, k, count))
  {
    hide MinorStep, Scaled;
    var s1 := Scaled(s, k, count, s.cfg.max.Of(k));
    ScaledMinor(s, k, count, s.cfg.max.Of(k));
    CountsMinor(s1, ScaledTo(s, k, count));
    MinorTrans(s, s1, ScaledTo(s, k, count));
  }

  lemma StoppedMinor(s: Sys, ds: bool)
    ensures MinorStep(s, Stopped(s, ds))
  {
    hide MinorStep, ScaledTo;
    var s0 := s.(cfg := Remembered(s.cfg));
    CountsMinor(s, s0);
    SameStore(s0, SaveConfig(s0));
    var s1 := SaveConfig(s0);
    MinorTrans(s, s0, s1);
    var s2 := ScaledTo(s1, Agent, 0);
    ScaledToMinor(s1, Agent, 0);
    MinorTrans(s, s1, s2);
    var s3 := ScaledTo(s2, Server, 0);
    ScaledToMinor(s2, Server, 0);
    MinorTrans(s, s2, s3);
    var s4 := if ds then ScaledTo(s3, Datastore, 0) else s3;
    if ds {
      ScaledToMinor(s3, Datastore, 0);
      MinorTrans(s, s3, s4);
    }
    StoppedTail(s, s4);
  }

  lemma StoppedTail(s: Sys, s4: Sys)
    requires MinorStep(s, s4)
    ensures MinorStep(s, Emit(SaveConfig(s4), Suppress(ClusterStop)))
  {
    hide MinorStep;
    SameStore(s4, SaveConfig(s4));
    EmitMinor(SaveConfig(s4), Suppress(ClusterStop));
    MinorTrans(s, s4, SaveConfig(s4));
    MinorTrans(s, SaveConfig(s4), Emit(SaveConfig(s4), Suppress(ClusterStop)));
  }

  lemma StartedMinor(s: Sys)
    ensures MinorStep(s, Started(s))
  {
    hide MinorStep, ScaledTo;
    var s1 := ScaledTo(s, Datastore, s.cfg.restore.datastore);
    ScaledToMinor(s, Datastore, s.cfg.restore.datastore);
    var s2 := ScaledTo(s1, Server, s1.cfg.restore.server);
    ScaledToMinor(s1, Server, s1.cfg.restore.server);
    MinorTrans(s, s1, s2);
    ScaledToMinor(s2, Agent, s2.cfg.restore.agent);
    MinorTrans(s, s2, Started(s));
  }

  lemma UnreadyCleanedMinor(env: Settings, s: Sys, i: nat, now: int)
    requires i < |s.tasks|
    ensures MinorStep(s, UnreadyCleaned(env, s, i, now)) && KeepsWants(s, UnreadyCleaned(env, s, i, now))
  {
    hide MinorStep, KeepsWants;
    var t := s.tasks[i];
    SelfMinor(s);
    RemoveMinor(s, i);
    EmitMinor(s, Kill(HealthCheck, t.id, t.mesosAgent));
  }

  lemma HealthCheckedMinor(env: Settings, s: Sys, k: Kind, now: int)
    ensures MinorStep(s, HealthChecked(env, s, k, now)) && KeepsWants(s, HealthChecked(env, s, k, now))
  {
    hide MinorStep, KeepsWants, UnreadyCleaned;
    SelfMinor(s);
    if Count(s.tasks, k) == s.cfg.max.Of(k) {
      match Inspect(s, k, now, env.nodeTimeout, 0, false)
      case Sound(_) =>
      case Faulty(i, expired) => UnreadyCleanedMinor(env, s, i, now);
    }
  }

  lemma SweptMinor(s: Sys, i: nat)
    requires i <= |s.cache|
    ensures MinorStep(s, SweptFrom(s, i)) && KeepsWants(s, SweptFrom(s, i))
  {
    hide MinorStep, KeepsWants, Adds, SweptFrom;
    SweptAdds(s, i);
    AddsOnly(s.log, SweptFrom(s, i).log, {AgentSweep});
    SameStore(s, SweptFrom(s, i));
  }

  /** Only the locks differ. */
  lemma LocksMinor(s: Sys, r: Sys)
    requires r == s.(reviveLock := r.reviveLock, suppressLock := r.suppressLock)
    ensures MinorStep(s, r) && KeepsWants(s, r)
  {
    SameStore(s, r);
  }

  lemma AlarmedMinor(s: Sys)
    ensures MinorStep(s, Alarmed(s)) && KeepsWants(s, Alarmed(s))
  {
    hide MinorStep, KeepsWants;
    var s1 := s.(reviveLock := true, suppressLock := false);
    LocksMinor(s, s1);
    EmitMinor(s1, Revive(HeartbeatStep));
    MinorTrans(s, s1, Emit(s1, Revive(HeartbeatStep)));
    WantsTrans(s, s1, Emit(s1, Revive(HeartbeatStep)));
  }

  lemma SettledMinor(s: Sys)
    ensures MinorStep(s, Settled(s)) && KeepsWants(s, Settled(s))
  {
    hide MinorStep, KeepsWants;
    SelfMinor(s);
    var s1 := Emit(s, Suppress(HeartbeatStep));
    EmitMinor(s, Suppress(HeartbeatStep));
    var s2 := SweptFrom(s1, 0);
    SweptMinor(s1, 0);
    var s3 := s2.(suppressLock := true, reviveLock := false);
    LocksMinor(s2, s3);
    MinorTrans(s, s1, s2);
    WantsTrans(s, s1, s2);
    MinorTrans(s, s2, s3);
    WantsTrans(s, s2, s3);
  }

  lemma ExaminedMinor(env: Settings, s: Sys, now: int)
    ensures MinorStep(s, Examined(env, s, now)) && KeepsWants(s, Examined(env, s, now))
  {
    hide MinorStep, KeepsWants, HealthChecked;
    var s1 := HealthChecked(env, s, Server, now);
    HealthCheckedMinor(env, s, Server, now);
    HealthCheckedMinor(env, s1, Agent, now);
    MinorTrans(s, s1, Examined(env, s, now));
    WantsTrans(s, s1, Examined(env, s, now));
  }

  lemma NodesForgottenMinor(s: Sys, t: Command)
    ensures MinorStep(s, NodesForgotten(s, t)) && KeepsWants(s, NodesForgotten(s, t))
  {
    hide MinorStep, KeepsWants, NodeDeleted;
    var node := NodeOf(s.cache, t.id);
    var s1 := NodeDeleted(s, node.name);
    NodeDeletedMinor(s, node.name);
    SameStore(s1, s1.(cache := Without(s1.cache, {node.name})));
    SameStore(s, s.(cache := Without(s.cache, {node.name})));
    SelfMinor(s);
    MinorTrans(s, s1, s1.(cache := Without(s1.cache, {node.name})));
    WantsTrans(s, s1, s1.(cache := Without(s1.cache, {node.name})));
  }

  lemma AcknowledgedMinor(s: Sys, u: Update)
    ensures MinorStep(s, Acknowledged(s, u)) && KeepsWants(s, Acknowledged(s, u))
  {
    hide MinorStep, KeepsWants;
    SelfMinor(s);
    if u.uuid.Some? {
      EmitMinor(s, Acknowledge(u.task, u.uuid.value));
    }
  }
}
