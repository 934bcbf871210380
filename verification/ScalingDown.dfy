/** Scaling a kind down over whole runs, while kills are still being confirmed: requests and the heartbeats that re-run
    Scale never kill too many, and CheckState makes the kills too many exactly when it drops tasks Scale had spared. */
module ScalingDown {
  import opened Types
  import opened Store
  import opened Scaling
  import opened Scheduling
  import opened Updates
  import opened Machine
  import opened Safety
  import opened Counts
  import opened KindLists
  import opened OverKill
  import opened Fairness
  import Checks
  import Convergence
  import Runs

  /** The wanted count of a kind after an event. */
  function NewMax(s: Sys, k: Kind, e: Event): int {
    match e
    case ScaleRequest(o, count) => if o == k then count else s.cfg.max.Of(k)
    case StopRequest(ds) => if k.Datastore? && !ds then s.cfg.max.Of(k) else 0
    case _ => s.cfg.max.Of(k)
  }

  /** The steps considered.  Heartbeats come while there are too many tasks of the kind, or as many as are wanted and no
      health check gives one up; a task of the kind only ends because Scale killed it; a request for fewer comes while
      there are no fewer than wanted so far, and none asks for more; a crash finds the wanted count saved.  CheckStates,
      offers, requests for other kinds and all other steps come at any time. */
  ghost predicate DownStep(env: Settings, k: Kind, s: Sys, e: Event) {
    var n, max := Count(s.tasks, k), s.cfg.max.Of(k);
    match e
    case Beating(b) => n > max || (n == max && LeavesAlone(env, s, k, b.now))
    case Updated(u, _, _) => Terminal(u.status) && u.task in KindIds(s.tasks, k) ==> u.task in ScaleKilled(s.log)
    case ScaleRequest(_, _) => NewMax(s, k, e) == max || 0 <= NewMax(s, k, e) < max <= n
    case StopRequest(_) => NewMax(s, k, e) == max || 0 <= NewMax(s, k, e) < max <= n
    case StartRequest => AllNonzero(s.cfg.max)
    case Crashed => s.saved.max.Of(k) == max
    case _ => true
  }

  ghost predicate DownRun(env: Settings, k: Kind, s: Sys, events: seq<Event>) {
    |events| > 0 ==>
      var front := events[..|events| - 1];
      DownRun(env, k, s, front) && DownStep(env, k, Run(env, s, front), events[|events| - 1])
  }

  /** The tasks reported gone in a run. */
  function Gone(events: seq<Event>): set<string> {
    if |events| == 0 then {} else Gone(events[..|events| - 1]) + GoneBy(events[|events| - 1])
  }

  /** The tasks of a kind that CheckStates of a run dropped. */
  ghost function DroppedIn(env: Settings, k: Kind, s: Sys, events: seq<Event>): set<string> {
    if |events| == 0 then {}
    else
      var front := events[..|events| - 1];
      DroppedIn(env, k, s, front) + DroppedBy(Run(env, s, front), k, events[|events| - 1])
  }

  // ---------- One step ----------

  /** The steps in which Scale may run. */
  ghost predicate MayScale(e: Event) { e.Beating? || !Runs.AsksNothing(e) }

  /** How many tasks at the front of the iteration order the step lets Scale kill. */
  ghost function FrontOf(env: Settings, s: Sys, k: Kind, e: Event): nat {
    if !e.Beating? then Positive(s.cfg.max.Of(k) - NewMax(s, k, e))
    else if Reruns(env, s, k, e) then Positive(Count(s.tasks, k) - s.cfg.max.Of(k))
    else 0
  }

  /** Stopping the cluster is a request for none of every kind, or of every kind but the datastore. */
  lemma StoppedFront(s: Sys, ds: bool, k: Kind)
    requires DistinctIds(s.tasks)
    ensures var ids, r, asked := KindIds(s.tasks, k), Stopped(s, ds), NewMax(s, k, StopRequest(ds));
            && KillsFront(s, r, k, Min(|ids|, Positive(s.cfg.max.Of(k) - asked)))
            && r.cfg.max.Of(k) == asked
  {
    hide ScaledTo, KindIds, ScaleKilled, HasId, DistinctIds, KillsFront;
    var s1 := SaveConfig(s.(cfg := Remembered(s.cfg)));
    var s2 := ScaledTo(s1, Agent, 0);
    var s3 := ScaledTo(s2, Server, 0);
    var s4 := if ds then ScaledTo(s3, Datastore, 0) else s3;
    ScaledToFront(s1, Agent, 0, k);
    ScaledToFront(s2, Server, 0, k);
    ScaledToFront(s3, Datastore, 0, k);
    var front := Min(|KindIds(s.tasks, k)|, Positive(s.cfg.max.Of(k)));
    FrontIds(s1, s2, k, if k.Agent? then front else 0);
    FrontThen(s1, s2, s3, k, if k.Agent? then front else 0, if k.Server? then front else 0);
    if ds {
      FrontThen(s1, s3, s4, k, if k.Datastore? then 0 else front, if k.Datastore? then front else 0);
    }
    SuppressKills(s4);
    FrontSame(s, s1, s4, Stopped(s, ds), k, if k.Datastore? && !ds then 0 else front);
  }

  /** A step in which Scale may run keeps the stored tasks of the kind, and Scale kills no more of them than are too
      many from then on. */
  lemma ScalingStep(env: Settings, issued: set<string>, k: Kind, s: Sys, e: Event)
    requires LifeCycle(issued, s) && FreshIds(issued, e) && DownStep(env, k, s, e) && MayScale(e)
    requires 0 <= s.cfg.max.Of(k)
    ensures |KindIds(s.tasks, k)| == Count(s.tasks, k)
    ensures var n, front, r := Count(s.tasks, k), FrontOf(env, s, k, e), Apply(env, s, e);
            && KillsFront(s, r, k, front) && 0 <= r.cfg.max.Of(k) == NewMax(s, k, e) <= s.cfg.max.Of(k)
            && (front == 0 || front <= n - r.cfg.max.Of(k))
  {
    KindIdsOfKind(s.tasks, k);
    hide LifeCycle, KindIds, ScaleKilled, Count, HeartbeatDone, Stopped, ScaledTo, Reruns, DistinctIds, KillsFront,
      LeavesAlone, HasId;
    assert DistinctIds(s.tasks) by { LifeCycleNames(issued, s); }
    if e.Beating? {
      ScalingBeat(env, issued, k, s, e.b);
    } else if e.ScaleRequest? {
      ScaledToFront(s, e.k, e.count, k);
      WithOf(s.cfg.max, e.k, e.count);
    } else if e.StopRequest? {
      StoppedFront(s, e.ds, k);
    } else {
      KillsNone(s, Apply(env, s, e), k);
    }
  }

  lemma ScalingBeat(env: Settings, issued: set<string>, k: Kind, s: Sys, b: Beat)
    requires LifeCycle(issued, s) && FreshIds(issued, Beating(b)) && DownStep(env, k, s, Beating(b))
    requires 0 <= s.cfg.max.Of(k)
    ensures KillsFront(s, HeartbeatDone(env, s, b), k, FrontOf(env, s, k, Beating(b)))
    ensures HeartbeatDone(env, s, b).cfg.max == s.cfg.max
  {
    hide LifeCycle, Count, HeartbeatDone, Reruns, DistinctIds, KillsFront, LeavesAlone, HasId, FreshIds;
    assert DistinctIds(s.tasks) by { LifeCycleNames(issued, s); }
    assert !HasId(s.tasks, b.ids.datastore) by { Convergence.FreshIdsUnused(issued, s, b); }
    if Count(s.tasks, k) > s.cfg.max.Of(k) {
      TooManyLeftAlone(env, s, k, b.now);
    }
    HeartbeatKills(env, s, b, k);
    HeartbeatMax(env, s, b);
  }

  lemma HeartbeatMax(env: Settings, s: Sys, b: Beat)
    ensures HeartbeatDone(env, s, b).cfg.max == s.cfg.max
  {
    HeartbeatBounded(env, s, b);
    hide HeartbeatDone, Count;
  }

  // ---------- Who is stored, and who is killed ----------

  /** The ones at the front of a list that are more than `m`, and the others. */
  function Excess(ids: seq<string>, m: int): seq<string> { ids[..Min(|ids|, Positive(|ids| - m))] }

  function Others(ids: seq<string>, m: int): seq<string> { ids[Min(|ids|, Positive(|ids| - m))..] }

  /** Of no fewer than wanted Scale has killed none but some of those that are too many. */
  ghost predicate KilledInFront(s: Sys, k: Kind) {
    var ids := KindIds(s.tasks, k);
    && 0 <= s.cfg.max.Of(k) <= |ids|
    && forall id | id in ids && id in ScaleKilled(s.log) :: id in Excess(ids, s.cfg.max.Of(k))
  }

  /** Of the tasks of the start, in order, those neither gone nor dropped are stored; Scale has killed none but the
      first ones, as many as are more than wanted; every one that is gone was killed or dropped before; and no dropped
      ID is stored for anything. */
  ghost predicate Tracked(ids: seq<string>, gone: set<string>, dropped: set<string>, s: Sys, k: Kind) {
    && KindIds(s.tasks, k) == Left(ids, gone + dropped)
    && 0 <= s.cfg.max.Of(k) <= |ids|
    && (forall id | id in ids && id in ScaleKilled(s.log) :: id in Excess(ids, s.cfg.max.Of(k)))
    && (forall id | id in ids && id in gone :: id in ScaleKilled(s.log) || id in dropped)
    && forall id | id in dropped :: !HasId(s.tasks, id)
  }

  /** However many are gone: what is left, but for `m` at its end, stood before the last `m`. */
  lemma FrontOfLeft(ids: seq<string>, m: nat, gone: set<string>, front: nat)
    requires m <= |ids| && front + m == |Left(ids, gone)|
    ensures forall id | id in Left(ids, gone)[..front] :: id in ids[..|ids| - m]
  {
    assert ids == ids[..|ids| - m] + ids[|ids| - m..];
    LeftSplit(ids[..|ids| - m], ids[|ids| - m..], gone);
    LeftIn(ids[..|ids| - m], gone);
    LeftIn(ids[|ids| - m..], gone);
  }

  lemma TrackedScaling(ids: seq<string>, gone: set<string>, dropped: set<string>, s: Sys, r: Sys, k: Kind, front: nat)
    requires Tracked(ids, gone, dropped, s, k) && KillsFront(s, r, k, front)
    requires 0 <= r.cfg.max.Of(k) <= s.cfg.max.Of(k)
    requires front == 0 || front <= |KindIds(s.tasks, k)| - r.cfg.max.Of(k)
    requires forall id | id in dropped :: !HasId(r.tasks, id)
    ensures Tracked(ids, gone, dropped, r, k)
  {
    hide KindIds, Left, ScaleKilled, HasId;
    var stored, m, extra := KindIds(s.tasks, k), r.cfg.max.Of(k), |ids| - s.cfg.max.Of(k);
    LeftIn(ids, gone + dropped);
    if front > 0 {
      FrontOfLeft(ids, m, gone + dropped, |stored| - m);
      assert stored[..|stored| - m] == stored[..front] + stored[front..|stored| - m];
    }
    assert ids[..|ids| - m] == ids[..extra] + ids[extra..|ids| - m];
    forall id | id in ids && id in ScaleKilled(r.log) ensures id in Excess(ids, m) {
      if id !in ScaleKilled(s.log) && id in stored {
        assert id in stored[..front] && id in stored[..|stored| - m];
      }
    }
  }

  lemma TrackedLosing(ids: seq<string>, gone: set<string>, dropped: set<string>, s: Sys, r: Sys, k: Kind,
      more: set<string>, less: set<string>)
    requires Tracked(ids, gone, dropped, s, k) && KindIds(r.tasks, k) == Left(KindIds(s.tasks, k), more + less)
    requires ScaleKilled(r.log) == ScaleKilled(s.log) && r.cfg.max == s.cfg.max
    requires forall id | id in more && id in KindIds(s.tasks, k) :: id in ScaleKilled(s.log)
    requires forall id | id in dropped + less :: !HasId(r.tasks, id)
    ensures Tracked(ids, gone + more, dropped + less, r, k)
  {
    hide KindIds, ScaleKilled, Left, HasId;
    LeftTwice(ids, gone + dropped, more + less);
    LeftIn(ids, gone + dropped);
    assert gone + dropped + (more + less) == gone + more + (dropped + less);
    forall id | id in ids && id in more ensures id in ScaleKilled(s.log) || id in dropped {
      assert id in KindIds(s.tasks, k) || id in gone || id in dropped;
    }
  }

  lemma TrackedQuiet(env: Settings, issued: set<string>, ids: seq<string>, gone: set<string>, dropped: set<string>,
      s: Sys, k: Kind, e: Event)
    requires LifeCycle(issued, s) && FreshIds(issued, e) && dropped <= issued
    requires Tracked(ids, gone, dropped, s, k) && DownStep(env, k, s, e) && !MayScale(e)
    ensures Tracked(ids, gone + GoneBy(e), dropped + DroppedBy(s, k, e), Apply(env, s, e), k)
    ensures DroppedBy(s, k, e) <= issued
  {
    StepDrops(env, issued, s, k, e);
    TrackedMax(ids, gone, dropped, s, k);
    hide Apply, LifeCycle, KindIds, ScaleKilled, Left, Count, DroppedBy, HasId, FreshIds, LeavesAlone, NewMax, Terminal,
      Tracked;
    forall id | id in dropped ensures !HasId(Apply(env, s, e).tasks, id) {
      Runs.StepGone(env, issued, s, e, id);
    }
    QuietStep(env, issued, s, e, k);
    TrackedLosing(ids, gone, dropped, s, Apply(env, s, e), k, GoneBy(e), DroppedBy(s, k, e));
  }

  lemma StepDrops(env: Settings, issued: set<string>, s: Sys, k: Kind, e: Event)
    requires LifeCycle(issued, s)
    ensures forall id | id in DroppedBy(s, k, e) :: id in issued && !HasId(Apply(env, s, e).tasks, id)
  {
    Checks.LifeCycleTidy(issued, s);
    forall id | id in DroppedBy(s, k, e) ensures id in issued && !HasId(Apply(env, s, e).tasks, id) {
      Checks.DroppedIsGone(env, s, e.now, k, id);
      var i :| 0 <= i < |s.tasks| && s.tasks[i].id == id;
      assert ProperTask(issued, s.sent, s.tasks[i]);
    }
  }

  lemma TrackedStep(env: Settings, issued: set<string>, ids: seq<string>, gone: set<string>, dropped: set<string>,
      s: Sys, k: Kind, e: Event)
    requires LifeCycle(issued, s) && FreshIds(issued, e) && dropped <= issued
    requires Tracked(ids, gone, dropped, s, k) && DownStep(env, k, s, e)
    ensures Tracked(ids, gone + GoneBy(e), dropped + DroppedBy(s, k, e), Apply(env, s, e), k)
    ensures DroppedBy(s, k, e) <= issued
  {
    hide Apply, LifeCycle, Tracked, DownStep, FreshIds, HasId, KillsFront, KindIds, FrontOf, NewMax;
    TrackedMax(ids, gone, dropped, s, k);
    if MayScale(e) {
      forall id | id in dropped ensures !HasId(Apply(env, s, e).tasks, id) {
        Runs.StepGone(env, issued, s, e, id);
      }
      ScalingStep(env, issued, k, s, e);
      TrackedScaling(ids, gone, dropped, s, Apply(env, s, e), k, FrontOf(env, s, k, e));
      assert gone + GoneBy(e) == gone && dropped + DroppedBy(s, k, e) == dropped;
    } else {
      TrackedQuiet(env, issued, ids, gone, dropped, s, k, e);
    }
  }

  lemma TrackedMax(ids: seq<string>, gone: set<string>, dropped: set<string>, s: Sys, k: Kind)
    requires Tracked(ids, gone, dropped, s, k)
    ensures 0 <= s.cfg.max.Of(k) <= |ids| && forall id | id in dropped :: !HasId(s.tasks, id)
  {
  }

  lemma {:induction false} RunTracked(env: Settings, issued: set<string>, k: Kind, s: Sys, events: seq<Event>,
      ids: seq<string>)
    requires Safe(env, false, issued, s) && FreshRun(issued, events) && DownRun(env, k, s, events)
    requires Tracked(ids, {}, {}, s, k)
    ensures Tracked(ids, Gone(events), DroppedIn(env, k, s, events), Run(env, s, events), k)
    ensures DroppedIn(env, k, s, events) <= Issued(issued, events)
  {
    hide Apply, LifeCycle, Carried, Tracked, DownStep, GoneBy, DroppedBy, FreshIds;
    if |events| == 0 {
    } else {
      var front, last := events[..|events| - 1], events[|events| - 1];
      RunTracked(env, issued, k, s, front, ids);
      RunSafe(env, false, issued, s, front);
      var dropped := DroppedIn(env, k, s, front);
      TrackedStep(env, Issued(issued, front), ids, Gone(front), dropped, Run(env, s, front), k, last);
    }
  }

  // ---------- All that are too many ----------

  /** Of the stored tasks of the kind Scale has killed all that are too many. */
  ghost predicate SurplusKilled(s: Sys, k: Kind) {
    var ids := KindIds(s.tasks, k);
    forall id | id in Excess(ids, s.cfg.max.Of(k)) :: id in ScaleKilled(s.log)
  }

  /** Scale was run for all that are too many: by a request that comes at the wanted count or below it, or by a
      heartbeat since the last request for fewer; or it had been at the start. */
  ghost predicate Thorough(env: Settings, k: Kind, s: Sys, events: seq<Event>) {
    if |events| == 0 then SurplusKilled(s, k)
    else
      var front, last := events[..|events| - 1], events[|events| - 1];
      var t := Run(env, s, front);
      if NewMax(t, k, last) < t.cfg.max.Of(k) then Count(t.tasks, k) <= t.cfg.max.Of(k)
      else Reruns(env, t, k, last) || Thorough(env, k, s, front)
  }

  lemma ThoroughStep(env: Settings, issued: set<string>, k: Kind, s: Sys, e: Event)
    requires LifeCycle(issued, s) && FreshIds(issued, e) && DownStep(env, k, s, e) && 0 <= s.cfg.max.Of(k)
    requires if NewMax(s, k, e) < s.cfg.max.Of(k) then Count(s.tasks, k) <= s.cfg.max.Of(k)
             else Reruns(env, s, k, e) || SurplusKilled(s, k)
    ensures SurplusKilled(Apply(env, s, e), k)
  {
    hide LifeCycle, KindIds, ScaleKilled, Count, FreshIds, DownStep, LeavesAlone;
    var ids, r := KindIds(s.tasks, k), Apply(env, s, e);
    if MayScale(e) {
      ScalingStep(env, issued, k, s, e);
      hide Apply;
    } else {
      assert !Reruns(env, s, k, e);
      hide Apply, Reruns, SurplusKilled;
      QuietStep(env, issued, s, e, k);
      SurplusLosing(s, r, k, GoneBy(e) + DroppedBy(s, k, e));
    }
  }

  lemma SurplusLosing(s: Sys, r: Sys, k: Kind, lost: set<string>)
    requires KindIds(r.tasks, k) == Left(KindIds(s.tasks, k), lost) && ScaleKilled(r.log) == ScaleKilled(s.log)
    requires r.cfg.max == s.cfg.max && 0 <= s.cfg.max.Of(k) && SurplusKilled(s, k)
    ensures SurplusKilled(r, k)
  {
    hide KindIds, ScaleKilled, Left;
    if |KindIds(r.tasks, k)| >= s.cfg.max.Of(k) {
      LeftIn(KindIds(s.tasks, k), lost);
      FrontOfLeft(KindIds(s.tasks, k), s.cfg.max.Of(k), lost, |KindIds(r.tasks, k)| - s.cfg.max.Of(k));
    }
  }

  lemma {:induction false} RunThorough(env: Settings, issued: set<string>, k: Kind, s: Sys, events: seq<Event>)
    requires Safe(env, false, issued, s) && FreshRun(issued, events) && DownRun(env, k, s, events)
    requires 0 <= s.cfg.max.Of(k)
    ensures 0 <= Run(env, s, events).cfg.max.Of(k) <= s.cfg.max.Of(k)
    ensures Thorough(env, k, s, events) ==> SurplusKilled(Run(env, s, events), k)
  {
    hide Apply, LifeCycle, Carried, SurplusKilled, DownStep, Reruns, FreshIds, Count, NewMax;
    if |events| == 0 {
    } else {
      var front, last := events[..|events| - 1], events[|events| - 1];
      RunThorough(env, issued, k, s, front);
      RunSafe(env, false, issued, s, front);
      StepMax(env, Issued(issued, front), k, Run(env, s, front), last);
      if Thorough(env, k, s, events) {
        ThoroughStep(env, Issued(issued, front), k, Run(env, s, front), last);
      }
    }
  }

  lemma StepMax(env: Settings, issued: set<string>, k: Kind, s: Sys, e: Event)
    requires LifeCycle(issued, s) && FreshIds(issued, e) && DownStep(env, k, s, e) && 0 <= s.cfg.max.Of(k)
    ensures 0 <= Apply(env, s, e).cfg.max.Of(k) <= s.cfg.max.Of(k)
    ensures !MayScale(e) ==> Apply(env, s, e).cfg.max.Of(k) == s.cfg.max.Of(k)
  {
    hide Apply, LifeCycle, FreshIds, DownStep, KindIds, ScaleKilled, KillsFront, FrontOf;
    if MayScale(e) {
      ScalingStep(env, issued, k, s, e);
    } else {
      QuietStep(env, issued, s, e, k);
    }
  }

  /** What Scale spares only gets fewer. */
  lemma SparedShrinks(env: Settings, issued: set<string>, k: Kind, s: Sys, e: Event)
    requires LifeCycle(issued, s) && FreshIds(issued, e) && DownStep(env, k, s, e) && 0 <= s.cfg.max.Of(k)
    ensures |Spared(Apply(env, s, e), k)| <= |Spared(s, k)|
  {
    hide Apply, LifeCycle, KindIds, ScaleKilled, Left, GoneBy, DroppedBy, DownStep, FreshIds, FrontOf, NewMax, HasId;
    var ids, killed, r := KindIds(s.tasks, k), ScaleKilled(s.log), Apply(env, s, e);
    if MayScale(e) {
      ScalingStep(env, issued, k, s, e);
      LeftFewer(ids, killed, ScaleKilled(r.log));
    } else {
      QuietStep(env, issued, s, e, k);
      var gone := GoneBy(e) + DroppedBy(s, k, e);
      LeftTwice(ids, gone, killed);
      LeftFewer(ids, killed, gone + killed);
    }
  }

  /** A step while Scale has been fair: it still is, unless the step is a CheckState that is not harmless. */
  lemma StepSpares(env: Settings, issued: set<string>, k: Kind, s: Sys, e: Event)
    requires LifeCycle(issued, s) && FreshIds(issued, e) && DownStep(env, k, s, e) && Sparing(s, k)
    ensures var r := Apply(env, s, e);
            if e.Checking? && !Harmless(s, k) then |Spared(r, k)| < r.cfg.max.Of(k) else Sparing(r, k)
  {
    SparingEnough(s, k);
    StepMax(env, issued, k, s, e);
    hide LifeCycle, KindIds, ScaleKilled, Left, Harmless, CheckedFrom, FreshIds, Count, KilledFirst, KillsFront,
      FrontOf;
    if MayScale(e) {
      hide Apply;
      ScalingStep(env, issued, k, s, e);
      DistinctKindIds(issued, s, k);
      SparingScaling(s, Apply(env, s, e), k, FrontOf(env, s, k, e));
    } else if e.Checking? {
      SparingChecked(env, issued, s, k, e.now);
    } else {
      hide Apply, Sparing;
      QuietStep(env, issued, s, e, k);
      assert GoneBy(e) + DroppedBy(s, k, e) == GoneBy(e);
      SparingLosing(s, Apply(env, s, e), k, GoneBy(e));
    }
  }

  /** Losing tasks that were killed. */
  lemma SparingLosing(s: Sys, r: Sys, k: Kind, gone: set<string>)
    requires Sparing(s, k) && KindIds(r.tasks, k) == Left(KindIds(s.tasks, k), gone)
    requires ScaleKilled(r.log) == ScaleKilled(s.log) && r.cfg.max == s.cfg.max
    requires forall id | id in gone && id in KindIds(s.tasks, k) :: id in ScaleKilled(s.log)
    ensures Sparing(r, k)
  {
    hide KindIds, ScaleKilled, Left, KilledFirst;
    KilledTaken(KindIds(s.tasks, k), ScaleKilled(s.log), gone);
    LeftIn(KindIds(s.tasks, k), ScaleKilled(s.log));
    LeftAll(Spared(s, k), gone);
  }

  // ---------- Whole runs ----------

  /** Every CheckState of the run is harmless. */
  ghost predicate HarmlessRun(env: Settings, k: Kind, s: Sys, events: seq<Event>) {
    |events| > 0 ==>
      var front, last := events[..|events| - 1], events[|events| - 1];
      HarmlessRun(env, k, s, front) && (last.Checking? ==> Harmless(Run(env, s, front), k))
  }

  /** In every state of the run at least as many are spared as are wanted. */
  ghost predicate AlwaysSpares(env: Settings, k: Kind, s: Sys, events: seq<Event>) {
    && |Spared(Run(env, s, events), k)| >= Run(env, s, events).cfg.max.Of(k)
    && (|events| > 0 ==> AlwaysSpares(env, k, s, events[..|events| - 1]))
  }

  lemma {:induction false} RunSpares(env: Settings, issued: set<string>, k: Kind, s: Sys, events: seq<Event>)
    requires Safe(env, false, issued, s) && FreshRun(issued, events) && DownRun(env, k, s, events) && Sparing(s, k)
    ensures var r := Run(env, s, events);
            && (AlwaysSpares(env, k, s, events) <==> HarmlessRun(env, k, s, events))
            && (HarmlessRun(env, k, s, events) ==> Sparing(r, k))
            && 0 <= r.cfg.max.Of(k) <= s.cfg.max.Of(k)
            && (r.cfg.max.Of(k) == s.cfg.max.Of(k) && !HarmlessRun(env, k, s, events) ==>
                  |Spared(r, k)| < r.cfg.max.Of(k))
  {
    hide Apply, LifeCycle, Carried, Sparing, Spared, DownStep, Harmless, FreshIds;
    SparingEnough(s, k);
    if |events| == 0 {
    } else {
      var front, last := events[..|events| - 1], events[|events| - 1];
      RunSpares(env, issued, k, s, front);
      RunSafe(env, false, issued, s, front);
      var t, now := Run(env, s, front), Issued(issued, front);
      StepMax(env, now, k, t, last);
      if HarmlessRun(env, k, s, front) {
        StepSpares(env, now, k, t, last);
        if Sparing(Run(env, s, events), k) {
          SparingEnough(Run(env, s, events), k);
        }
      } else {
        SparedShrinks(env, now, k, t, last);
      }
    }
  }

  /** Who is stored and who is killed.  Of n stored tasks of a kind, of which Scale has killed none but some of the
      first that are too many, over every run of heartbeats, requests for fewer, updates, CheckStates and other steps,
      in any order, with m wanted in the end: the tasks stored are those of the start, in order, but for the ones
      reported gone and the ones dropped by CheckState; Scale has killed none but the first n - m of the start; no
      task is gone that was neither killed nor dropped; and all that are too many are killed once Scale was run for
      them. */
  lemma WhoIsLeft(env: Settings, issued: set<string>, k: Kind, s: Sys, events: seq<Event>)
    requires Safe(env, false, issued, s) && FreshRun(issued, events) && DownRun(env, k, s, events)
    requires KilledInFront(s, k)
    ensures var ids, r, m := KindIds(s.tasks, k), Run(env, s, events), Run(env, s, events).cfg.max.Of(k);
            && |ids| == Count(s.tasks, k) && 0 <= m <= s.cfg.max.Of(k)
            && KindIds(r.tasks, k) == Left(ids, Gone(events) + DroppedIn(env, k, s, events))
            && (forall id | id in ids && id in ScaleKilled(r.log) :: id in Excess(ids, m))
            && (forall id | id in ids && id in Gone(events) ::
                  id in ScaleKilled(r.log) || id in DroppedIn(env, k, s, events))
            && (Thorough(env, k, s, events) ==> SurplusKilled(r, k))
  {
    KindIdsOfKind(s.tasks, k);
    hide Run, FreshRun, DownRun, Gone, DroppedIn, Safe, KindIds, ScaleKilled, Count, SurplusKilled, Thorough;
    var ids := KindIds(s.tasks, k);
    StartTracked(s, k);
    hide Left, HasId;
    RunTracked(env, issued, k, s, events, ids);
    RunThorough(env, issued, k, s, events);
  }

  /** No over-kill.  As long as what Scale killed stands in front, over every such run: at least as many tasks are
      spared as are wanted, in every state of the run, if and only if every CheckState of the run was harmless.  Then
      exactly as many are spared as are wanted once Scale was run for all that are too many.  If the wanted count is
      what it was, the last state alone tells. */
  lemma NoOverKill(env: Settings, issued: set<string>, k: Kind, s: Sys, events: seq<Event>)
    requires Safe(env, false, issued, s) && FreshRun(issued, events) && DownRun(env, k, s, events) && Sparing(s, k)
    ensures var r := Run(env, s, events);
            var m := r.cfg.max.Of(k);
            && (AlwaysSpares(env, k, s, events) <==> HarmlessRun(env, k, s, events))
            && (HarmlessRun(env, k, s, events) && Thorough(env, k, s, events) ==> |Spared(r, k)| == m)
            && (m == s.cfg.max.Of(k) ==> (|Spared(r, k)| >= m <==> HarmlessRun(env, k, s, events)))
  {
    hide Run, FreshRun, DownRun, HarmlessRun, AlwaysSpares, Thorough, Safe, Sparing, Spared;
    SparingEnough(s, k);
    RunSpares(env, issued, k, s, events);
    RunThorough(env, issued, k, s, events);
    if HarmlessRun(env, k, s, events) {
      SparingEnough(Run(env, s, events), k);
      if Thorough(env, k, s, events) {
        SurplusSpared(Run(env, s, events), k);
      }
    }
  }

  lemma SurplusSpared(s: Sys, k: Kind)
    requires Sparing(s, k) && SurplusKilled(s, k)
    ensures |Spared(s, k)| == s.cfg.max.Of(k)
  {
    SparingEnough(s, k);
    var ids, killed := KindIds(s.tasks, k), ScaleKilled(s.log);
    var front, back := ids[..|ids| - s.cfg.max.Of(k)], ids[|ids| - s.cfg.max.Of(k)..];
    hide KindIds, ScaleKilled, Left, KilledFirst;
    assert ids == front + back;
    LeftSplit(front, back, killed);
    LeftNone(front, killed);
    LeftIn(back, killed);
  }

  /** So, as long as no CheckState drops one behind the first n - m, m being wanted in the end: the last m stay stored;
      all of the first n - m are killed or dropped once Scale was run for all that are too many; and there are exactly m
      when all of these are gone or dropped, and more before. */
  lemma KillsExactly(env: Settings, issued: set<string>, k: Kind, s: Sys, events: seq<Event>)
    requires Safe(env, false, issued, s) && FreshRun(issued, events) && DownRun(env, k, s, events)
    requires KilledInFront(s, k)
    requires forall id | id in Others(KindIds(s.tasks, k), Run(env, s, events).cfg.max.Of(k)) ::
               id !in DroppedIn(env, k, s, events)
    ensures var ids, r, m := KindIds(s.tasks, k), Run(env, s, events), Run(env, s, events).cfg.max.Of(k);
            && 0 <= m <= |ids| == Count(s.tasks, k)
            && (forall id | id in Others(ids, m) :: id in KindIds(r.tasks, k))
            && (Thorough(env, k, s, events) ==>
                  forall id | id in Excess(ids, m) :: id in ScaleKilled(r.log) || id in DroppedIn(env, k, s, events))
            && (Count(r.tasks, k) == m <==>
                  forall id | id in Excess(ids, m) :: id in Gone(events) || id in DroppedIn(env, k, s, events))
            && Count(r.tasks, k) >= m
  {
    SafeLifeCycle(env, false, issued, s);
    DistinctKindIds(issued, s, k);
    KindIdsOfKind(s.tasks, k);
    StartTracked(s, k);
    hide Run, FreshRun, DownRun, Thorough, Gone, DroppedIn, Safe, KindIds, ScaleKilled, Count, Tracked, LifeCycle,
      SurplusKilled;
    var ids, r := KindIds(s.tasks, k), Run(env, s, events);
    RunTracked(env, issued, k, s, events, ids);
    RunThorough(env, issued, k, s, events);
    TrackedMax(ids, Gone(events), DroppedIn(env, k, s, events), r, k);
    TrackedEnd(ids, Gone(events), DroppedIn(env, k, s, events), r, k);
  }

  lemma StartTracked(s: Sys, k: Kind)
    requires KilledInFront(s, k)
    ensures Tracked(KindIds(s.tasks, k), {}, {}, s, k)
  {
    hide KindIds, ScaleKilled;
    LeftAll(KindIds(s.tasks, k), {} + {});
  }

  /** Where Scale has been fair it killed none but some of those that are too many: the results above hold there too. */
  lemma SparingInFront(s: Sys, k: Kind)
    requires Sparing(s, k)
    ensures KilledInFront(s, k)
  {
    var ids, killed, max := KindIds(s.tasks, k), ScaleKilled(s.log), s.cfg.max.Of(k);
    SparingEnough(s, k);
    KilledSplit(ids, killed);
    hide KindIds, ScaleKilled, Left, KilledFirst;
    var p := |ids| - |Left(ids, killed)|;
    forall id | id in ids && id in killed ensures id in Excess(ids, max) {
      assert ids == ids[..p] + ids[p..];
      assert Excess(ids, max) == ids[..p] + ids[p..|ids| - max];
    }
  }

  /** What the tracked tasks come to when none behind the front was dropped. */
  lemma TrackedEnd(ids: seq<string>, gone: set<string>, dropped: set<string>, r: Sys, k: Kind)
    requires NoDuplicates(ids) && Tracked(ids, gone, dropped, r, k) && 0 <= r.cfg.max.Of(k) <= |ids|
    requires forall id | id in Others(ids, r.cfg.max.Of(k)) :: id !in dropped
    ensures var m := r.cfg.max.Of(k);
            && (forall id | id in Others(ids, m) :: id in KindIds(r.tasks, k))
            && (SurplusKilled(r, k) ==> forall id | id in Excess(ids, m) :: id in ScaleKilled(r.log) || id in dropped)
            && (Count(r.tasks, k) == m <==> forall id | id in Excess(ids, m) :: id in gone || id in dropped)
            && Count(r.tasks, k) >= m
  {
    KindIdsOfKind(r.tasks, k);
    hide KindIds, Left, ScaleKilled, Count, HasId;
    var m, killed, lost := r.cfg.max.Of(k), ScaleKilled(r.log), gone + dropped;
    var front, back := ids[..|ids| - m], ids[|ids| - m..];
    assert ids == front + back;
    forall id | id in back ensures id !in lost {
      assert id in ids && id !in front;
    }
    LeftSplit(front, back, lost);
    LeftAll(back, lost);
    LeftNone(front, lost);
    LeftIn(front, lost);
    assert KindIds(r.tasks, k)[..|Left(front, lost)|] == Left(front, lost);
    forall id | id in front && SurplusKilled(r, k) ensures id in killed || id in dropped {
      assert id in ids;
      assert id in lost || id in Left(front, lost);
    }
  }

  /** A request for fewer in whatever state, with as many stored as were wanted: Scale then spares no more than are
      wanted now, and so many exactly when it had killed none of the last m before. */
  lemma RequestEnough(s: Sys, k: Kind, m: nat)
    requires DistinctIds(s.tasks) && m <= s.cfg.max.Of(k) == Count(s.tasks, k)
    ensures var spared := |Spared(ScaledTo(s, k, m), k)|;
            && spared <= m
            && (spared == m <==> forall id | id in Others(KindIds(s.tasks, k), m) :: id !in ScaleKilled(s.log))
  {
    KindIdsOfKind(s.tasks, k);
    KindIdsDistinct(s.tasks, k);
    ScaledToFront(s, k, m, k);
    hide KindIds, ScaleKilled, Left, Count, ScaledTo, HasId;
    var ids, killed := KindIds(s.tasks, k), ScaleKilled(ScaledTo(s, k, m).log);
    var front, back := Excess(ids, m), Others(ids, m);
    assert ids == front + back;
    assert forall id | id in back :: id in ids && id !in front;
    LeftSplit(front, back, killed);
    LeftNone(front, killed);
    LeftIn(back, killed);
    LeftWhole(back, killed);
  }

  lemma {:induction false} LeftWhole(ids: seq<string>, gone: set<string>)
    ensures |Left(ids, gone)| == |ids| <==> forall id | id in ids :: id !in gone
  {
    LeftIn(ids, gone);
    if |ids| == 0 {
    } else {
      var front := ids[..|ids| - 1];
      LeftIn(front, gone);
      LeftWhole(front, gone);
      assert ids == front + [ids[|ids| - 1]];
    }
  }

  // ---------- From when on all carry the wanted count ----------

  /** Some request for the kind, or some heartbeat that found too many, had Scale write the wanted count on every
      task. */
  ghost predicate RescaledIn(env: Settings, k: Kind, s: Sys, events: seq<Event>) {
    && |events| > 0
    && var front, last := events[..|events| - 1], events[|events| - 1];
       RescaledIn(env, k, s, front) || Rescales(env, k, Run(env, s, front), last)
  }

  ghost predicate Rescales(env: Settings, k: Kind, s: Sys, e: Event) {
    || (e.ScaleRequest? && e.k == k)
    || (Reruns(env, s, k, e) && Count(s.tasks, k) > s.cfg.max.Of(k))
  }

  lemma StepMakesCurrent(env: Settings, issued: set<string>, k: Kind, s: Sys, e: Event)
    requires LifeCycle(issued, s) && DownStep(env, k, s, e) && (KindCurrent(s, k) || Rescales(env, k, s, e))
    ensures KindCurrent(Apply(env, s, e), k)
  {
    hide LifeCycle, HeartbeatDone, KindCurrent, Count, NodesHealthy, DatastoreHealthy, NothingWanted, ScaledTo,
      LeavesAlone;
    if e.Crashed? {
      CrashKeepsCurrent(s, k);
    } else if e.ScaleRequest? && e.k == k {
      ScaledToCurrent(s, k, e.count, k);
    } else if KindCurrent(s, k) {
      hide Apply;
      StepCurrent(env, issued, s, e, k);
    } else {
      hide Apply;
      assert DistinctIds(s.tasks) by { LifeCycleNames(issued, s); }
      HeartbeatMakesCurrent(env, s, e.b, k);
      BeatApplied(env, s, e.b);
    }
  }

  lemma BeatApplied(env: Settings, s: Sys, b: Beat)
    ensures Apply(env, s, Beating(b)) == HeartbeatDone(env, s, b)
  {
  }

  lemma CrashKeepsCurrent(s: Sys, k: Kind)
    requires KindCurrent(s, k) && s.saved.max.Of(k) == s.cfg.max.Of(k)
    ensures KindCurrent(Restarted(s), k)
  {
  }

  /** Over every such run the tasks of the kind carry the wanted count from the first request or the first scaling
      heartbeat on, so that `HarmlessMeans` tells which CheckStates are harmless. */
  lemma {:induction false} RunMakesCurrent(env: Settings, issued: set<string>, k: Kind, s: Sys, events: seq<Event>)
    requires Safe(env, false, issued, s) && FreshRun(issued, events) && DownRun(env, k, s, events)
    requires KindCurrent(s, k) || RescaledIn(env, k, s, events)
    ensures KindCurrent(Run(env, s, events), k)
  {
    hide Apply, LifeCycle, Carried, KindCurrent, DownStep, FreshIds, Rescales;
    if |events| == 0 {
    } else {
      var front := events[..|events| - 1];
      if KindCurrent(s, k) || RescaledIn(env, k, s, front) {
        RunMakesCurrent(env, issued, k, s, front);
      }
      RunSafe(env, false, issued, s, front);
      StepMakesCurrent(env, Issued(issued, front), k, Run(env, s, front), events[|events| - 1]);
    }
  }

  // ---------- Whatever is confirmed ----------

  /** Mesos confirms the kills of some tasks, one after the other. */
  function Confirmations(ids: seq<string>): seq<Event> {
    seq(|ids|, i requires 0 <= i < |ids| => Updated(Update(ids[i], "", Killed, None), "", 0))
  }

  function IdSet(ids: seq<string>): set<string> { set id | id in ids }

  lemma ConfirmationsSnoc(ids: seq<string>)
    requires |ids| > 0
    ensures var events, front := Confirmations(ids), ids[..|ids| - 1];
            events[..|events| - 1] == Confirmations(front) && Confirmations(ids)[|ids| - 1].Updated?
            && GoneBy(Confirmations(ids)[|ids| - 1]) == {ids[|ids| - 1]}
  {
  }

  /** Confirming kills takes these tasks from the stored ones. */
  lemma {:induction false} Confirmed(env: Settings, issued: set<string>, s: Sys, ids: seq<string>, k: Kind)
    requires Safe(env, false, issued, s)
    ensures FreshRun(issued, Confirmations(ids)) && Safe(env, false, issued, Run(env, s, Confirmations(ids)))
    ensures KindIds(Run(env, s, Confirmations(ids)).tasks, k) == Left(KindIds(s.tasks, k), IdSet(ids))
    decreases |ids|
  {
    hide Safe, Apply, KindIds, Left, GoneBy;
    var events := Confirmations(ids);
    if |ids| == 0 {
      assert events == [] && IdSet(ids) == {};
      LeftAll(KindIds(s.tasks, k), {});
    } else {
      var front, last := ids[..|ids| - 1], events[|ids| - 1];
      ConfirmationsSnoc(ids);
      Confirmed(env, issued, s, front, k);
      var t := Run(env, s, Confirmations(front));
      NoIds(issued, Confirmations(front), last);
      StepSafe(env, false, issued, t, last);
      SafeLifeCycle(env, false, issued, t);
      hide LifeCycle, FreshIds, FreshRun;
      UpdateLoses(env, issued, t, last, k);
      LeftTwice(KindIds(s.tasks, k), IdSet(front), {ids[|ids| - 1]});
      assert IdSet(ids) == IdSet(front) + {ids[|ids| - 1]} by {
        assert ids == front + [ids[|ids| - 1]];
      }
    }
  }

  lemma UpdateLoses(env: Settings, issued: set<string>, s: Sys, e: Event, k: Kind)
    requires LifeCycle(issued, s) && e.Updated?
    ensures KindIds(Apply(env, s, e).tasks, k) == Left(KindIds(s.tasks, k), GoneBy(e))
  {
    hide LifeCycle, KindIds, Left, GoneBy, UpdateHandled;
    UpdatedKind(issued, s, e.u, e.mesosAgent, e.networks, k);
  }

  lemma {:induction false} NoIds(issued: set<string>, events: seq<Event>, e: Event)
    requires !e.Beating? && forall i | 0 <= i < |events| :: !events[i].Beating?
    ensures Issued(issued, events) == issued && FreshIds(issued, e) && issued + IdsOf(e) == issued
  {
    if |events| == 0 {
    } else {
      NoIds(issued, events[..|events| - 1], events[|events| - 1]);
    }
  }

  /** Whichever of Scale's kills are confirmed next, no fewer tasks of the kind are left than are wanted. */
  ghost predicate Enough(env: Settings, k: Kind, s: Sys) {
    forall ids: seq<string> | forall id | id in ids :: id in ScaleKilled(s.log) ::
      Count(Run(env, s, Confirmations(ids)).tasks, k) >= s.cfg.max.Of(k)
  }

  ghost predicate EnoughAfter(env: Settings, k: Kind, s: Sys, events: seq<Event>) {
    Enough(env, k, Run(env, s, events))
  }

  /** Enough are left whichever are confirmed exactly when enough are spared. */
  lemma EnoughIffSpared(env: Settings, issued: set<string>, k: Kind, s: Sys)
    requires Safe(env, false, issued, s)
    ensures Enough(env, k, s) <==> |Spared(s, k)| >= s.cfg.max.Of(k)
  {
    hide Run, Safe, KindIds, Left, ScaleKilled, Count;
    var stored, killed := KindIds(s.tasks, k), ScaleKilled(s.log);
    forall ids: seq<string>
      ensures Count(Run(env, s, Confirmations(ids)).tasks, k) == |Left(stored, IdSet(ids))|
    {
      Confirmed(env, issued, s, ids, k);
      KindIdsOfKind(Run(env, s, Confirmations(ids)).tasks, k);
    }
    forall ids: seq<string> | forall id | id in ids :: id in killed
      ensures |Spared(s, k)| <= |Left(stored, IdSet(ids))|
    {
      LeftFewer(stored, IdSet(ids), killed);
    }
    var all := KilledAmong(stored, killed);
    LeftSame(stored, IdSet(all), killed);
  }

  /** The killed ones of a list. */
  lemma {:induction false} KilledAmong(ids: seq<string>, killed: set<string>) returns (all: seq<string>)
    ensures forall id :: id in all <==> id in ids && id in killed
  {
    if |ids| == 0 {
      all := [];
    } else {
      all := KilledAmong(ids[1..], killed);
      assert ids == [ids[0]] + ids[1..];
      if ids[0] in killed {
        all := all + [ids[0]];
      }
    }
  }

  /** The exact condition: in every state of the run enough are left whichever of Scale's kills are confirmed next, if
      and only if every CheckState of the run was harmless. */
  lemma NeverTooFew(env: Settings, issued: set<string>, k: Kind, s: Sys, events: seq<Event>)
    requires Safe(env, false, issued, s) && FreshRun(issued, events) && DownRun(env, k, s, events) && Sparing(s, k)
    ensures HarmlessRun(env, k, s, events)
       <==> forall i | 0 <= i <= |events| :: EnoughAfter(env, k, s, events[..i])
  {
    NoOverKill(env, issued, k, s, events);
    hide DownRun, HarmlessRun, Safe, Sparing, Spared, EnoughAfter;
    AlwaysEnough(env, issued, k, s, events);
  }

  lemma {:induction false} AlwaysEnough(env: Settings, issued: set<string>, k: Kind, s: Sys, events: seq<Event>)
    requires Safe(env, false, issued, s) && FreshRun(issued, events)
    ensures AlwaysSpares(env, k, s, events) <==> forall i | 0 <= i <= |events| :: EnoughAfter(env, k, s, events[..i])
  {
    hide Safe, FreshIds, Spared, EnoughAfter, Run;
    assert events[..|events|] == events;
    LastEnough(env, issued, k, s, events);
    if |events| == 0 {
    } else {
      var front := events[..|events| - 1];
      AlwaysEnough(env, issued, k, s, front);
      assert forall i | 0 <= i <= |front| :: front[..i] == events[..i];
    }
  }

  lemma LastEnough(env: Settings, issued: set<string>, k: Kind, s: Sys, events: seq<Event>)
    requires Safe(env, false, issued, s) && FreshRun(issued, events)
    ensures EnoughAfter(env, k, s, events) <==> |Spared(Run(env, s, events), k)| >= Run(env, s, events).cfg.max.Of(k)
  {
    hide Safe, FreshIds, Spared, Enough, Run;
    RunSafe(env, false, issued, s, events);
    EnoughIffSpared(env, Issued(issued, events), k, Run(env, s, events));
  }

  // ---------- A run that leaves too few ----------

  /** Three agents scaled to two, the last of them fresh: CheckState drops it. */
  lemma LastDropped(env: Settings, a: Command, b: Command, c: Command, s: Sys, now: int)
    requires Rescaled([a, b, c], s.tasks, Agent, 2, 0) && Checks.Tidy(s.tasks)
    requires a.name == Some(Agent) && b.name == Some(Agent) && c.name == Some(Agent)
    requires a.state.New? && b.state.New? && c.state.Fresh?
    ensures KindIds(CheckedFrom(env, s, 0, now).tasks, Agent) == [a.id, b.id]
  {
    var ts := s.tasks;
    hide CheckedFrom, KindIds, Checks.Tidy;
    assert Count(ts, Agent) == 3 by {
      assert ts[..3] == ts && ts[..2][..1] == [ts[0]] && ts[..2] == [ts[0], ts[1]] && ts[..3][..2] == ts[..2];
      Checks.TwoAgents(ts[0], ts[1]);
    }
    Checks.CheckedKind(env, s, 0, now, Agent);
    Checks.NoKindIds(Agent);
    assert ts[0..] == ts && ts[..0] == [];
    assert ts[1..][1..] == [ts[2]] && ts[1..][0] == ts[1] && [ts[2]][1..] == [];
    assert Checks.Kept([ts[2]], Agent, 3) == [];
    assert Checks.Kept(ts[1..], Agent, 3) == [b.id];
  }

  /** CheckState can drop an agent Scale spared: of three agents one is fresh, the last; two are wanted from now on, so
      Scale kills the first; CheckState drops the last; and when the kill is confirmed one agent is left.  It is such a
      run as above, and its CheckState is not harmless. */
  lemma FreshLostAfterScale(env: Settings, now: int)
    ensures var s, events := Checks.HoldingAgents(Three(), Three()[..2], 3), [ScaleRequest(Agent, 2), Checking(now)];
            && Safe(env, false, {"a", "b", "c"}, s) && InstancesCurrent(s) && Sparing(s, Agent)
            && KindIds(s.tasks, Agent) == ["a", "b", "c"] && s.cfg.max.agent == 3
            && DownRun(env, Agent, s, events) && !HarmlessRun(env, Agent, s, events)
            && ScaleKilled(Run(env, s, events).log) == {"a"} && Run(env, s, events).cfg.max.agent == 2
            && KindIds(Run(env, Run(env, s, events), Confirmations(["a"])).tasks, Agent) == ["b"]
  {
    var s, events := Checks.HoldingAgents(Three(), Three()[..2], 3), [ScaleRequest(Agent, 2), Checking(now)];
    ThreeSafe(env);
    ThreeIds();
    KindIdsOfKind(s.tasks, Agent);
    StartSpares(s, Agent);
    ThreeLosing(env, s, now);
    hide Safe, InstancesCurrent, Checks.HoldingAgents, KindIds, ScaleKilled, FreshIds, Three, Sparing, DownRun,
      HarmlessRun, Run, Count, Confirmations;
    RequestRun(env, {"a", "b", "c"}, s, 2, now);
    TooFew(env, {"a", "b", "c"}, s, events, ["a"]);
  }

  lemma ThreeLosing(env: Settings, s: Sys, now: int)
    requires Safe(env, false, {"a", "b", "c"}, s) && s.tasks == Three() && s.cfg.max.agent == 3 && s.log == []
    ensures var killed := Run(env, s, [ScaleRequest(Agent, 2), Checking(now)]);
            && ScaleKilled(killed.log) == {"a"} && killed.cfg.max.agent == 2
            && KindIds(Run(env, killed, Confirmations(["a"])).tasks, Agent) == ["b"]
  {
    ThreeScaled(env, s);
    hide Safe, ScaledTo, CheckedFrom, KindIds, ScaleKilled, Rescaled, FreshIds, Three;
    RequestSafe(env, {"a", "b", "c"}, s, Agent, 2);
    ThreeChecked(env, {"a", "b", "c"}, ScaledTo(s, Agent, 2), now);
    ScaledAndChecked(env, s, 2, now);
  }

  /** Two steps are such a run. */
  lemma RequestRun(env: Settings, issued: set<string>, s: Sys, count: nat, now: int)
    requires count < s.cfg.max.agent <= Count(s.tasks, Agent)
    ensures DownRun(env, Agent, s, [ScaleRequest(Agent, count), Checking(now)])
    ensures FreshRun(issued, [ScaleRequest(Agent, count), Checking(now)])
  {
    hide Apply, Count;
    var a, b := ScaleRequest(Agent, count), Checking(now);
    assert [a, b][..1] == [a] && [a][..0] == [];
    assert DownRun(env, Agent, s, [a]);
    NoIds(issued, [], a);
    NoIds(issued, [a], b);
    assert FreshRun(issued, [a]);
  }

  /** Too few after some confirmed kills: then some CheckState was not harmless. */
  lemma TooFew(env: Settings, issued: set<string>, s: Sys, events: seq<Event>, ids: seq<string>)
    requires Safe(env, false, issued, s) && FreshRun(issued, events) && DownRun(env, Agent, s, events)
    requires Sparing(s, Agent)
    requires var r := Run(env, s, events);
             && (forall id | id in ids :: id in ScaleKilled(r.log))
             && |KindIds(Run(env, r, Confirmations(ids)).tasks, Agent)| < r.cfg.max.agent
    ensures !HarmlessRun(env, Agent, s, events)
  {
    NeverTooFew(env, issued, Agent, s, events);
    KindIdsOfKind(Run(env, Run(env, s, events), Confirmations(ids)).tasks, Agent);
    hide Safe, Run, KindIds, ScaleKilled, Count, HarmlessRun;
    assert events[..|events|] == events;
    assert !EnoughAfter(env, Agent, s, events);
  }

  lemma ScaledAndChecked(env: Settings, s: Sys, count: int, now: int)
    ensures Run(env, s, [ScaleRequest(Agent, count), Checking(now)])
         == CheckedFrom(env, ScaledTo(s, Agent, count), 0, now)
  {
    hide ScaledTo, CheckedFrom;
    var a, b := ScaleRequest(Agent, count), Checking(now);
    assert [a, b][..1] == [a] && [a][..0] == [];
    assert Run(env, s, [a]) == Apply(env, s, a);
  }

  /** The rest of that run: CheckState, and the confirmation of the kill. */
  lemma ThreeChecked(env: Settings, issued: set<string>, s: Sys, now: int)
    requires Safe(env, false, issued, s) && Rescaled(Three(), s.tasks, Agent, 2, 0)
    ensures var killed := CheckedFrom(env, s, 0, now);
            && ScaleKilled(killed.log) == ScaleKilled(s.log) && killed.cfg.max == s.cfg.max
            && KindIds(Run(env, killed, Confirmations(["a"])).tasks, Agent) == ["b"]
  {
    var killed := CheckedFrom(env, s, 0, now);
    SafeLifeCycle(env, false, issued, s);
    Checks.LifeCycleTidy(issued, s);
    LastDropped(env, Three()[0], Three()[1], Three()[2], s, now);
    hide Safe, LifeCycle, CheckedFrom, KindIds, ScaleKilled, Left, FreshIds, Three, Rescaled, Checks.Tidy;
    CheckedCalls(env, issued, s, Agent, now);
    assert Safe(env, false, issued, killed) by {
      NoIds(issued, [], Checking(now));
      StepSafe(env, false, issued, s, Checking(now));
    }
    Confirmed(env, issued, killed, ["a"], Agent);
    LeftSplit(["a"], ["b"], {"a"});
    LeftAll(["b"], {"a"});
    LeftNone(["a"], {"a"});
    assert ["a", "b"] == ["a"] + ["b"] && IdSet(["a"]) == {"a"};
  }

  function Three(): seq<Command> {
    [Checks.StoredAgent("a", New, 3), Checks.StoredAgent("b", New, 3), Checks.StoredAgent("c", Fresh, 3)]
  }

  lemma ThreeSafe(env: Settings)
    ensures var s := Checks.HoldingAgents(Three(), Three()[..2], 3);
            && Safe(env, false, {"a", "b", "c"}, s) && InstancesCurrent(s)
            && s.tasks == Three() && s.log == [] && s.cfg.max.agent == 3
  {
    Checks.HoldingSafe(env, {"a", "b", "c"}, Three(), Three()[..2], 3);
  }

  lemma ThreeScaled(env: Settings, s: Sys)
    requires s.tasks == Three() && s.cfg.max.agent == 3 && s.log == []
    ensures var r := ScaledTo(s, Agent, 2);
            && Rescaled(s.tasks, r.tasks, Agent, 2, 0) && r.cfg.max.agent == 2
            && KindIds(s.tasks, Agent) == ["a", "b", "c"]
            && ScaleKilled(s.log) == {} && ScaleKilled(r.log) == {"a"}
  {
    ThreeIds();
    hide Three, ScaledFrom, KindIds, ScaleCalls, OfKind;
    Checks.AgentsRescaled(s, 2);
    ScaleKillsFront(s, Agent, 2, 3);
    assert ["a", "b", "c"][..1] == ["a"];
  }

  lemma ThreeIds()
    ensures KindIds(Three(), Agent) == ["a", "b", "c"]
  {
    assert Three()[..2][..1] == [Three()[0]] && Three()[..2][..1][..0] == [];
    assert KindIds([Three()[0]], Agent) == ["a"] && KindIds(Three()[..2], Agent) == ["a", "b"];
  }
}
