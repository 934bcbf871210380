/** From configuration to launch: over every run each ACCEPT claims the processors, memory and disk configured for a
    kind of task. */
module Needs {
  import opened Types
  import opened Store
  import opened Offers
  import opened Scaling
  import opened Scheduling
  import opened Machine
  import opened Minor
  import opened Safety
  import Queueing
  import Runs

  /** A command has the needs configured for its kind. */
  ghost predicate AsConfigured(env: Settings, t: Command) {
    && t.name.Some?
    && t.cpu == env.cpu.Of(t.name.value)
    && t.memory == env.memory.Of(t.name.value)
    && t.disk == env.disk.Of(t.name.value)
  }

  /** A launch claims the needs configured for some kind. */
  ghost predicate ClaimsConfigured(env: Settings, claims: seq<Resource>) {
    exists k: Kind ::
      && Claimed(claims, "cpus") == env.cpu.Of(k)
      && Claimed(claims, "mem") == env.memory.Of(k)
      && Claimed(claims, "disk") == env.disk.Of(k)
  }

  /** Every stored task, every queued command and every launch so far is as configured. */
  ghost predicate Configured(env: Settings, s: Sys) {
    && (forall i | 0 <= i < |s.tasks| :: AsConfigured(env, s.tasks[i]))
    && (forall i | 0 <= i < |s.queue| :: AsConfigured(env, s.queue[i]))
    && forall i | 0 <= i < |Accepts(s.log)| :: ClaimsConfigured(env, Accepts(s.log)[i].claims)
  }

  lemma MinorConfigured(env: Settings, s: Sys, r: Sys)
    requires Configured(env, s) && MinorStep(s, r)
    ensures Configured(env, r)
  {
    hide Accepts, ClaimsConfigured, PortSource, DistinctIds, FewerOfAll;
    forall i | 0 <= i < |r.tasks| ensures AsConfigured(env, r.tasks[i]) {
      assert EvolvedFrom(s.tasks, r.tasks[i]);
      var j :| 0 <= j < |s.tasks| && Evolves(s.tasks[j], r.tasks[i]);
      assert AsConfigured(env, s.tasks[j]);
    }
  }

  lemma LaunchedConfigured(env: Settings, cmd: Command)
    requires AsConfigured(env, cmd)
    ensures ClaimsConfigured(env, ClaimsOf(cmd))
  {
    LaunchClaims(cmd);
    hide ClaimsOf, Claimed;
  }

  lemma OffersConfigured(env: Settings, s: Sys, offers: seq<Offer>, accepted: bool)
    requires Configured(env, s)
    ensures Configured(env, OffersHandled(env, s, offers, accepted))
  {
    OffersFrame(env, s, offers, accepted);
    OffersAccepts(env, s, offers, accepted);
    hide OffersHandled, Accepts, ClaimsConfigured, AsConfigured, ClaimsOf;
    if |s.queue| > 0 {
      LaunchedConfigured(env, s.queue[0]);
    }
  }

  lemma StartedConfigured(env: Settings, s: Sys, k: Kind, id: string, at: nat)
    requires Configured(env, s)
    ensures Configured(env, TaskStarted(env, s, k, id, at))
  {
    hide MinorStep, Scaled, Count, Accepts, ClaimsConfigured, Template;
    var n, max := Count(s.tasks, k), s.cfg.max.Of(k);
    if n < max {
      var c := NewTask(env, s.cfg, k, id);
      assert AsConfigured(env, c);
      hide NewTask, AsConfigured;
    } else if n > max && !k.Datastore? {
      ScaledMinor(s, k, max, n);
      MinorConfigured(env, s, Scaled(s, k, max, n));
    }
  }

  lemma HeartbeatConfigured(env: Settings, s: Sys, b: Beat)
    requires Configured(env, s)
    ensures Configured(env, HeartbeatDone(env, s, b))
  {
    hide Configured, MinorStep, KeepsWants, Settled, Alarmed, HealthChecked, TaskStarted, NodesHealthy,
      DatastoreHealthy;
    SettledMinor(s);
    MinorConfigured(env, s, Settled(s));
    if !NothingWanted(s) {
      var s1 := Examined(env, s, b.now);
      ExaminedMinor(env, s, b.now);
      MinorConfigured(env, s, s1);
      SettledMinor(s1);
      MinorConfigured(env, s1, Settled(s1));
      var s2 := Alarmed(s1);
      AlarmedMinor(s1);
      MinorConfigured(env, s1, s2);
      var ds, server := DatastoreHealthy(s.tasks), NodesHealthy(env, s, Server, b.now);
      var s3 := if !ds then TaskStarted(env, s2, Datastore, b.ids.datastore, b.at.datastore)
                else if !server then TaskStarted(env, s2, Server, b.ids.server, b.at.server) else s2;
      StartedConfigured(env, s2, Datastore, b.ids.datastore, b.at.datastore);
      StartedConfigured(env, s2, Server, b.ids.server, b.at.server);
      StartedConfigured(env, s3, Agent, b.ids.agent, b.at.agent);
    }
  }

  lemma ScheduledConfigured(env: Settings, s: Sys, i: nat, now: int)
    requires Configured(env, s) && i < |s.tasks| && s.tasks[i].state.Fresh?
    ensures Configured(env, Scheduled(env, s, i, now)) && |Scheduled(env, s, i, now).tasks| == |s.tasks|
  {
    Queueing.ScheduledDated(env, s, i, now);
    AcceptsEmit(s.log, Revive(CheckStateStep));
    hide Scheduled, Accepts, ClaimsConfigured;
    assert AsConfigured(env, s.tasks[i]);
  }

  lemma {:induction false} CheckedConfigured(env: Settings, s: Sys, i: nat, now: int)
    requires Configured(env, s) && i <= |s.tasks|
    ensures Configured(env, CheckedFrom(env, s, i, now))
    decreases |s.tasks| - i
  {
    hide Scheduled, Wanted, Configured;
    if i == |s.tasks| {
    } else {
      var t := s.tasks[i];
      if t.id == "" || t.name.None? {
        CheckedConfigured(env, s, i + 1, now);
      } else if Wanted(s.tasks, t) {
        WantedIsFresh(s.tasks, t);
        ScheduledConfigured(env, s, i, now);
        CheckedConfigured(env, Scheduled(env, s, i, now), i + 1, now);
      } else if t.state.Fresh? && t.since.None? {
        RemovedConfigured(env, s, i);
        CheckedConfigured(env, s.(tasks := RemoveAt(s.tasks, i)), i, now);
      } else {
        CheckedConfigured(env, s, i + 1, now);
      }
    }
  }

  lemma RemovedConfigured(env: Settings, s: Sys, i: nat)
    requires Configured(env, s) && i < |s.tasks|
    ensures Configured(env, s.(tasks := RemoveAt(s.tasks, i)))
  {
    hide AsConfigured, ClaimsConfigured, Accepts;
  }

  lemma StepConfigured(env: Settings, issued: set<string>, s: Sys, e: Event)
    requires Configured(env, s) && LifeCycle(issued, s)
    ensures Configured(env, Apply(env, s, e))
  {
    hide HeartbeatDone, CheckedFrom, OffersHandled, LifeCycle, AsConfigured, ClaimsConfigured, Accepts, MinorStep;
    if e.Beating? {
      HeartbeatConfigured(env, s, e.b);
    } else if e.Checking? {
      CheckedConfigured(env, s, 0, e.now);
    } else if e.Offered? {
      OffersConfigured(env, s, e.offers, e.accepted);
    } else if !e.Crashed? {
      hide Apply, Configured;
      LifeCycleNames(issued, s);
      OtherMinor(env, s, e);
      MinorConfigured(env, s, Apply(env, s, e));
    }
  }

  /** Over every run from a first start, crashes included: every task stored or queued has the processors, memory and
      disk configured for its kind, and every ACCEPT claims what is configured for some kind. */
  lemma RunConfigured(env: Settings, s: Sys, events: seq<Event>)
    requires Runs.Booted(s) && FreshRun({}, events)
    ensures Configured(env, Run(env, s, events))
  {
    Runs.BootedSafe(env, false, s);
    RunKeepsConfigured(env, {}, s, events);
  }

  lemma {:induction false} RunKeepsConfigured(env: Settings, issued: set<string>, s: Sys, events: seq<Event>)
    requires Safe(env, false, issued, s) && Configured(env, s) && FreshRun(issued, events)
    ensures Configured(env, Run(env, s, events))
  {
    hide Apply, Safe, Configured;
    if |events| == 0 {
    } else {
      var front := events[..|events| - 1];
      RunKeepsConfigured(env, issued, s, front);
      RunSafe(env, false, issued, s, front);
      SafeLifeCycle(env, false, Issued(issued, front), Run(env, s, front));
      StepConfigured(env, Issued(issued, front), Run(env, s, front), events[|events| - 1]);
    }
  }
}
