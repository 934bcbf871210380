/** What CheckState puts on the channel, and how long the health checks leave it alone. */
module Queueing {
  import opened Types
  import opened Store
  import opened Ports
  import opened Scaling
  import opened Scheduling
  import opened Safety
  import Checks
  import Health

  /** A fresh task as it was scheduled: new, dated, with the host ports it had and others for the rest, and a discovery
      record that takes the host ports over; nothing else of it changed. */
  ghost predicate Dated(t: Command, u: Command, now: int) {
    && t.state == Fresh
    && u == t.(state := New, since := Some(now), mappings := u.mappings, discovery := u.discovery)
    && |u.mappings| == |t.mappings| && (forall n | 0 <= n < |t.mappings| && t.mappings[n] != 0 ::
         u.mappings[n] == t.mappings[n])
    && (|t.mappings| <= |t.discovery| ==> u.discovery == u.mappings + t.discovery[|t.mappings|..])
  }

  /** Some task of the list was scheduled as this command. */
  ghost predicate DatedFrom(ts: seq<Command>, u: Command, now: int) {
    exists j :: 0 <= j < |ts| && Dated(ts[j], u, now)
  }

  lemma ScheduledDated(env: Settings, s: Sys, i: nat, now: int)
    requires i < |s.tasks| && s.tasks[i].state.Fresh?
    ensures var r := Scheduled(env, s, i, now);
            && |r.tasks| == |s.tasks| && Dated(s.tasks[i], r.tasks[i], now)
            && r.tasks == s.tasks[i := r.tasks[i]]
            && r == s.(tasks := r.tasks, queue := s.queue + [r.tasks[i]], sent := s.sent + [s.tasks[i].id],
                       log := s.log + [Revive(CheckStateStep)], exhausted := r.exhausted)
  {
    hide HostPort;
  }

  /** The calls for so many scheduled tasks. */
  function Revives(n: nat): seq<Call> { seq(n, i requires 0 <= i < n => Revive(CheckStateStep)) }

  lemma RevivesCons(log: seq<Call>, n: nat)
    ensures log + [Revive(CheckStateStep)] + Revives(n) == log + Revives(n + 1)
  {
  }

  /** What the loop adds to the channel from position `i` on. */
  ghost predicate Queued(s: Sys, r: Sys, now: int, added: seq<Command>) {
    && r == s.(tasks := r.tasks, queue := s.queue + added, sent := s.sent + QueueIds(added),
               log := s.log + Revives(|added|), exhausted := r.exhausted)
    && forall u | u in added :: u in r.tasks && DatedFrom(s.tasks, u, now)
  }

  lemma QueuedScheduled(env: Settings, s: Sys, i: nat, now: int, r: Sys, added: seq<Command>)
    requires i < |s.tasks| && s.tasks[i].state.Fresh?
    requires var s1 := Scheduled(env, s, i, now); Queued(s1, r, now, added) && s1.tasks[i] in r.tasks
    ensures Queued(s, r, now, [Scheduled(env, s, i, now).tasks[i]] + added)
  {
    ScheduledDated(env, s, i, now);
    var s1 := Scheduled(env, s, i, now);
    hide Scheduled;
    var u, all := s1.tasks[i], [s1.tasks[i]] + added;
    RevivesCons(s.log, |added|);
    assert s.queue + [u] + added == s.queue + all;
    assert QueueIds(all) == [u.id] + QueueIds(added);
    assert s.sent + [u.id] + QueueIds(added) == s.sent + QueueIds(all);
    forall v | v in all ensures v in r.tasks && DatedFrom(s.tasks, v, now) {
      if v in added {
        var j :| 0 <= j < |s1.tasks| && Dated(s1.tasks[j], v, now);
        assert j != i && Dated(s.tasks[j], v, now);
      } else {
        assert Dated(s.tasks[i], v, now);
      }
    }
  }

  lemma QueuedRemoved(s: Sys, i: nat, now: int, r: Sys, added: seq<Command>)
    requires i < |s.tasks| && Queued(s.(tasks := RemoveAt(s.tasks, i)), r, now, added)
    ensures Queued(s, r, now, added)
  {
    var rest := RemoveAt(s.tasks, i);
    forall u | u in added ensures DatedFrom(s.tasks, u, now) {
      var j :| 0 <= j < |rest| && Dated(rest[j], u, now);
      assert Dated(s.tasks[if j < i then j else j + 1], u, now);
    }
  }

  lemma QueuedNone(s: Sys, now: int)
    ensures Queued(s, s, now, [])
  {
    assert s.queue + [] == s.queue && s.sent + QueueIds([]) == s.sent && s.log + Revives(0) == s.log;
  }

  lemma {:induction false} CheckedQueues(env: Settings, s: Sys, i: nat, now: int) returns (added: seq<Command>)
    requires i <= |s.tasks| && Checks.Tidy(s.tasks)
    ensures Queued(s, CheckedFrom(env, s, i, now), now, added)
    decreases |s.tasks| - i
  {
    hide CheckedFrom, Scheduled, Wanted, Queued, Checks.Tidy;
    added := [];
    if i == |s.tasks| {
      Checks.CheckedEnd(env, s, now);
      QueuedNone(s, now);
    } else {
      Checks.CheckedRound(env, s, i, now);
      if !s.tasks[i].state.Fresh? {
        added := CheckedQueues(env, s, i + 1, now);
      } else if Wanted(s.tasks, s.tasks[i]) {
        var s1 := Scheduled(env, s, i, now);
        Checks.ScheduledShape(env, s, i, now);
        var more := CheckedQueues(env, s1, i + 1, now);
        Checks.CheckedRest(env, s1, i + 1, now);
        Checks.CheckedOneMore(s1.tasks, CheckedFrom(env, s, i, now).tasks, i);
        QueuedScheduled(env, s, i, now, CheckedFrom(env, s, i, now), more);
        added := [s1.tasks[i]] + more;
      } else {
        Checks.RemovedShape(s, i);
        added := CheckedQueues(env, s.(tasks := RemoveAt(s.tasks, i)), i, now);
        QueuedRemoved(s, i, now, CheckedFrom(env, s, i, now), added);
      }
    }
  }

  /** What CheckState at `now` puts on the channel: commands that it stores as well, each one of the fresh tasks with
      the date `now`, new, and with host ports; every fresh task that is not surplus is among them, under its own ID;
      with each it sends one REVIVE, and nothing else changes but the store. */
  lemma CheckStateQueues(env: Settings, issued: set<string>, s: Sys, now: int) returns (added: seq<Command>)
    requires Safe(env, false, issued, s)
    ensures Queued(s, CheckedFrom(env, s, 0, now), now, added)
    ensures forall j | 0 <= j < |s.tasks| && s.tasks[j].state == Fresh && s.tasks[j].name != None
                       && !Checks.Surplus(s, 0, j) ::
              exists u :: u in added && Dated(s.tasks[j], u, now)
  {
    SafeLifeCycle(env, false, issued, s);
    Checks.LifeCycleTidy(issued, s);
    added := CheckedQueues(env, s, 0, now);
    hide Safe, LifeCycle, CheckedFrom, Checks.Surplus;
    forall j | 0 <= j < |s.tasks| && s.tasks[j].state.Fresh? && s.tasks[j].name.Some? && !Checks.Surplus(s, 0, j)
      ensures exists u :: u in added && Dated(s.tasks[j], u, now)
    {
      Checks.CheckStateFate(env, issued, s, now, j);
      var p :| 0 <= p < |QueueIds(added)| && QueueIds(added)[p] == s.tasks[j].id;
      assert added[p] in added && added[p].id == s.tasks[j].id;
      var m :| 0 <= m < |s.tasks| && Dated(s.tasks[m], added[p], now);
      assert m == j;
    }
  }

  /** The health checks of a heartbeat leave a task alone until the cleanup time has passed since its date: it stays
      stored, and no call kills it. */
  lemma YoungStays(env: Settings, s: Sys, later: int, p: nat)
    requires DistinctIds(s.tasks) && p < |s.tasks| && s.tasks[p].since.Some?
    requires later < s.tasks[p].since.value + env.cleanupTime
    ensures var r := Examined(env, s, later);
            && s.tasks[p] in r.tasks
            && forall c | c in r.log && c !in s.log :: c.Kill? && c.task != s.tasks[p].id
  {
    hide HealthChecked;
    var s1 := HealthChecked(env, s, Server, later);
    CheckLeaves(env, s, Server, later, p);
    var q :| 0 <= q < |s1.tasks| && s1.tasks[q] == s.tasks[p];
    CheckLeaves(env, s1, Agent, later, q);
  }

  lemma CheckLeaves(env: Settings, s: Sys, k: Kind, later: int, p: nat)
    requires DistinctIds(s.tasks) && p < |s.tasks| && s.tasks[p].since.Some?
    requires later < s.tasks[p].since.value + env.cleanupTime
    ensures var r := HealthChecked(env, s, k, later);
            && DistinctIds(r.tasks) && s.tasks[p] in r.tasks
            && forall c | c in r.log && c !in s.log :: c.Kill? && c.task != s.tasks[p].id
  {
    Health.HealthCheckCleansOne(env, s, k, later);
    hide HealthChecked, NodesHealthy, Health.Sane, RemoveAt, DistinctIds;
    var r := HealthChecked(env, s, k, later);
    if r != s {
      var q: nat :| Health.FirstOverdue(env, s, k, later, q);
      OtherStays(s.tasks, q, p);
    }
  }

  lemma OtherStays(ts: seq<Command>, q: nat, p: nat)
    requires DistinctIds(ts) && q < |ts| && p < |ts| && p != q
    ensures DistinctIds(RemoveAt(ts, q)) && ts[p] in RemoveAt(ts, q) && ts[q].id != ts[p].id
  {
    assert ts[p] == RemoveAt(ts, q)[if p < q then p else p - 1];
  }

  /** So no health check before `now` and the cleanup time forgets or kills a task that CheckState queued at `now`. */
  lemma QueuedStays(env: Settings, issued: set<string>, s: Sys, now: int, later: int, u: Command)
    requires Safe(env, false, issued, s) && later < now + env.cleanupTime
    requires var r := CheckedFrom(env, s, 0, now); u in r.queue && u !in s.queue
    ensures var r := CheckedFrom(env, s, 0, now);
            && u in Examined(env, r, later).tasks
            && forall c | c in Examined(env, r, later).log && c !in r.log :: c.Kill? && c.task != u.id
  {
    var r := CheckedFrom(env, s, 0, now);
    var added := CheckStateQueues(env, issued, s, now);
    CheckedSafe(env, false, issued, s, 0, now);
    SafeLifeCycle(env, false, issued, r);
    LifeCycleNames(issued, r);
    hide Safe, LifeCycle, CheckedFrom, Examined, Checks.Surplus;
    assert u in added;
    var p :| 0 <= p < |r.tasks| && r.tasks[p] == u;
    YoungStays(env, r, later, p);
  }

  // ---------- In any store ----------

  lemma CheckedStep(env: Settings, s: Sys, i: nat, now: int)
    requires i < |s.tasks|
    ensures var t := s.tasks[i];
            CheckedFrom(env, s, i, now)
            == if t.id != "" && t.name.Some? && Wanted(s.tasks, t) then
                 CheckedFrom(env, Scheduled(env, s, i, now), i + 1, now)
               else if t.id != "" && t.name.Some? && t.state.Fresh? && t.since.None? then
                 CheckedFrom(env, s.(tasks := RemoveAt(s.tasks, i)), i, now)
               else CheckedFrom(env, s, i + 1, now)
    ensures Wanted(s.tasks, s.tasks[i]) ==> s.tasks[i].state.Fresh?
  {
    hide Scheduled, Count;
  }

  lemma {:induction false} CheckedPassed(env: Settings, s: Sys, i: nat, now: int)
    requires i <= |s.tasks|
    ensures var r := CheckedFrom(env, s, i, now);
            i <= |r.tasks| && forall j | 0 <= j < i :: r.tasks[j] == s.tasks[j]
    decreases |s.tasks| - i
  {
    hide CheckedFrom, Scheduled, Wanted;
    if i == |s.tasks| {
      Checks.CheckedEnd(env, s, now);
    } else {
      var t := s.tasks[i];
      CheckedStep(env, s, i, now);
      if t.id != "" && t.name.Some? && Wanted(s.tasks, t) {
        ScheduledDated(env, s, i, now);
        CheckedPassed(env, Scheduled(env, s, i, now), i + 1, now);
      } else if t.id != "" && t.name.Some? && t.state.Fresh? && t.since.None? {
        CheckedPassed(env, s.(tasks := RemoveAt(s.tasks, i)), i, now);
      } else {
        CheckedPassed(env, s, i + 1, now);
      }
    }
  }

  /** In any store, tidy or not, CheckState leaves alone what is not fresh and what has no ID or no name, and forgets
      nothing that has a date: a fresh dated task stays as it is or is scheduled. */
  lemma {:induction false} CheckedKeeps(env: Settings, s: Sys, i: nat, now: int, j: nat)
    requires i <= j < |s.tasks|
    ensures var r, t := CheckedFrom(env, s, i, now), s.tasks[j];
            if t.state != Fresh || t.id == "" || t.name == None then t in r.tasks
            else t.since != None ==> t in r.tasks || exists u :: u in r.tasks && Dated(t, u, now)
    decreases |s.tasks| - i
  {
    hide CheckedFrom, Scheduled, Wanted, Dated;
    var t, r := s.tasks[i], CheckedFrom(env, s, i, now);
    CheckedStep(env, s, i, now);
    if t.id != "" && t.name.Some? && Wanted(s.tasks, t) {
      var s1 := Scheduled(env, s, i, now);
      ScheduledDated(env, s, i, now);
      CheckedPassed(env, s1, i + 1, now);
      if j == i {
        assert r.tasks[i] == s1.tasks[i];
      } else {
        CheckedKeeps(env, s1, i + 1, now, j);
      }
    } else if t.id != "" && t.name.Some? && t.state.Fresh? && t.since.None? {
      if j > i {
        CheckedKeeps(env, s.(tasks := RemoveAt(s.tasks, i)), i, now, j - 1);
      }
    } else {
      CheckedPassed(env, s, i + 1, now);
      if j == i {
        assert r.tasks[i] == t;
      } else {
        CheckedKeeps(env, s, i + 1, now, j);
      }
    }
  }
}
