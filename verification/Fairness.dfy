/** How fair Scale has been: which tasks of a kind it spared, how many of them a CheckState may drop, and what
    requests do to that. */
module Fairness {
  import opened Types
  import opened Store
  import opened Scaling
  import opened Scheduling
  import opened Machine
  import opened Safety
  import opened Counts
  import opened KindLists
  import opened OverKill
  import Checks
  import Minor

  /** The stored tasks of a kind that Scale has not killed. */
  ghost function Spared(s: Sys, k: Kind): seq<string> { Left(KindIds(s.tasks, k), ScaleKilled(s.log)) }

  // ---------- How many Scale spares ----------

  /** The killed ones of a list stand in front of all others. */
  ghost predicate KilledFirst(ids: seq<string>, killed: set<string>) {
    forall i, j | 0 <= i < j < |ids| && ids[j] in killed :: ids[i] in killed
  }

  /** Scale has been fair to the stored tasks of the kind: it spared as many as wanted, and killed from the front. */
  ghost predicate Sparing(s: Sys, k: Kind) {
    && KilledFirst(KindIds(s.tasks, k), ScaleKilled(s.log))
    && |Spared(s, k)| >= s.cfg.max.Of(k) >= 0
  }

  lemma {:induction false} KilledSplit(ids: seq<string>, killed: set<string>)
    requires KilledFirst(ids, killed)
    ensures var p := |ids| - |Left(ids, killed)|;
            && 0 <= p && ids[p..] == Left(ids, killed)
            && (forall id | id in ids[..p] :: id in killed)
            && forall id | id in ids[p..] :: id !in killed
  {
    LeftIn(ids, killed);
    if |ids| == 0 {
    } else {
      var front, last := ids[..|ids| - 1], ids[|ids| - 1];
      KilledSplit(front, killed);
      if last in killed {
        assert forall id | id in front :: id in killed;
        LeftNone(front, killed);
      } else {
        var p := |front| - |Left(front, killed)|;
        assert ids[p..] == front[p..] + [last] && ids[..p] == front[..p];
      }
    }
  }

  lemma KilledThenSpared(front: seq<string>, back: seq<string>, killed: set<string>)
    requires (forall id | id in front :: id in killed) && forall id | id in back :: id !in killed
    ensures KilledFirst(front + back, killed) && Left(front + back, killed) == back
  {
    LeftSplit(front, back, killed);
    LeftNone(front, killed);
    LeftAll(back, killed);
    assert [] + back == back;
  }

  lemma LeftNone(ids: seq<string>, gone: set<string>)
    ensures |Left(ids, gone)| == 0 <==> forall id | id in ids :: id in gone
  {
    LeftIn(ids, gone);
    if |Left(ids, gone)| > 0 {
      assert Left(ids, gone)[0] in Left(ids, gone);
    }
  }

  /** Killing some from the front: those spared are the ones spared before that stand behind it. */
  lemma MoreKilled(ids: seq<string>, killed: set<string>, more: set<string>, front: nat)
    requires NoDuplicates(ids) && KilledFirst(ids, killed) && front <= |ids|
    requires forall id | id in ids :: id in more <==> id in killed || id in ids[..front]
    ensures KilledFirst(ids, more) && |Left(ids, more)| == Min(|Left(ids, killed)|, |ids| - front)
  {
    KilledSplit(ids, killed);
    var p := |ids| - |Left(ids, killed)|;
    var q := if p < front then front else p;
    assert ids == ids[..q] + ids[q..];
    hide Left, KilledFirst;
    forall id | id in ids[..q] ensures id in more {
      assert id in ids;
      if p >= front {
        assert id in ids[..p];
      }
    }
    forall id | id in ids[q..] ensures id !in more {
      assert id in ids && id in ids[p..];
    }
    KilledThenSpared(ids[..q], ids[q..], more);
  }

  /** Taking any from the list: those spared are the ones spared before that are not taken. */
  lemma KilledTaken(ids: seq<string>, killed: set<string>, gone: set<string>)
    requires KilledFirst(ids, killed)
    ensures KilledFirst(Left(ids, gone), killed) && Left(Left(ids, gone), killed) == Left(Left(ids, killed), gone)
  {
    KilledSplit(ids, killed);
    var p := |ids| - |Left(ids, killed)|;
    assert ids == ids[..p] + ids[p..];
    hide KilledFirst;
    LeftSplit(ids[..p], ids[p..], gone);
    LeftIn(ids[..p], gone);
    LeftIn(ids[p..], gone);
    KilledThenSpared(Left(ids[..p], gone), Left(ids[p..], gone), killed);
  }

  /** The stored tasks of a kind that Scale has killed, when these stand in front, and the others. */
  ghost function KilledTasks(s: Sys, k: Kind): seq<Command> {
    OfKind(s.tasks, k)[..Positive(|OfKind(s.tasks, k)| - |Spared(s, k)|)]
  }

  ghost function SparedTasks(s: Sys, k: Kind): seq<Command> {
    OfKind(s.tasks, k)[Positive(|OfKind(s.tasks, k)| - |Spared(s, k)|)..]
  }

  /** CheckState does not drop too many of the tasks Scale spared: with the killed ones settled, the fresh ones among
      the others have no chain longer than more were spared than are wanted. */
  ghost predicate Harmless(s: Sys, k: Kind) {
    var n := Count(s.tasks, k);
    !Checks.ChainOf(SparedTasks(s, k), k, n - Checks.Dropped(KilledTasks(s, k), k, n),
      Positive(|Spared(s, k)| - s.cfg.max.Of(k)) + 1)
  }

  ghost predicate AllFresh(ts: seq<Command>) { forall i | 0 <= i < |ts| :: ts[i].state.Fresh? }

  ghost predicate NoneFresh(ts: seq<Command>) { forall i | 0 <= i < |ts| :: !ts[i].state.Fresh? }

  ghost predicate AllNamed(ts: seq<Command>, k: Kind) { forall i | 0 <= i < |ts| :: ts[i].name == Some(k) }

  ghost predicate AllWant(ts: seq<Command>, max: int) { forall i | 0 <= i < |ts| :: ts[i].instances == max }

  lemma {:induction false} FreshAll(ts: seq<Command>, k: Kind)
    requires AllNamed(ts, k)
    ensures Checks.FreshCount(ts, k) <= |ts|
    ensures Checks.FreshCount(ts, k) == |ts| <==> AllFresh(ts)
  {
    if |ts| == 0 {
    } else {
      FreshAll(ts[1..], k);
      assert ts == [ts[0]] + ts[1..];
    }
  }

  lemma {:induction false} KeptAmong(ts: seq<Command>, k: Kind, n: int)
    requires AllNamed(ts, k)
    ensures |Checks.Kept(ts, k, n)| == |ts| - Checks.Dropped(ts, k, n)
    ensures forall id | id in Checks.Kept(ts, k, n) :: HasId(ts, id)
  {
    if |ts| == 0 {
    } else {
      var rest := ts[1..];
      KeptAmong(rest, k, n);
      KeptAmong(rest, k, n - 1);
      forall id | HasId(rest, id) ensures HasId(ts, id) {
        var i :| 0 <= i < |rest| && rest[i].id == id;
        assert ts[i + 1] == rest[i];
      }
      assert HasId(ts, ts[0].id);
      hide HasId;
    }
  }

  lemma IdsAmong(ts: seq<Command>, ids: seq<string>, k: Kind, n: int)
    requires AllNamed(ts, k) && |ids| == |ts| && forall i | 0 <= i < |ids| :: ids[i] == ts[i].id
    ensures forall id | id in Checks.Kept(ts, k, n) :: id in ids
    ensures |Checks.Kept(ts, k, n)| == |ts| - Checks.Dropped(ts, k, n)
  {
    KeptAmong(ts, k, n);
    hide Checks.Kept, Checks.Dropped;
    forall id | id in Checks.Kept(ts, k, n) ensures id in ids {
      var i :| 0 <= i < |ts| && ts[i].id == id;
      assert ids[i] == id;
    }
  }

  /** The stored tasks of a kind, with their IDs, in two parts. */
  lemma TwoParts(s: Sys, k: Kind)
    requires KilledFirst(KindIds(s.tasks, k), ScaleKilled(s.log))
    ensures var ids, killed, spared := KindIds(s.tasks, k), KilledTasks(s, k), SparedTasks(s, k);
            && OfKind(s.tasks, k) == killed + spared && |spared| == |Spared(s, k)|
            && |killed| + |spared| == |ids| == Count(s.tasks, k)
            && AllNamed(killed, k) && AllNamed(spared, k)
            && (forall i | 0 <= i < |killed| :: ids[..|killed|][i] == killed[i].id)
            && (forall i | 0 <= i < |spared| :: ids[|killed|..][i] == spared[i].id)
            && (forall id | id in ids[..|killed|] :: id in ScaleKilled(s.log))
            && forall id | id in ids[|killed|..] :: id !in ScaleKilled(s.log)
  {
    KindIdsOfKind(s.tasks, k);
    KilledSplit(KindIds(s.tasks, k), ScaleKilled(s.log));
    hide KindIds, OfKind, ScaleKilled, Left, KilledFirst;
    var ts, killed, spared := OfKind(s.tasks, k), KilledTasks(s, k), SparedTasks(s, k);
    forall i | 0 <= i < |ts| ensures ts[i].name == Some(k) {
      assert ts[i] in ts;
    }
  }

  /** What CheckState keeps of tasks of which the first ones are killed. */
  lemma PartsKept(killed: seq<Command>, spared: seq<Command>, ids: seq<string>, k: Kind, n: int, gone: set<string>)
    requires AllNamed(killed, k) && AllNamed(spared, k) && |ids| == |killed| + |spared|
    requires forall i | 0 <= i < |killed| :: ids[..|killed|][i] == killed[i].id
    requires forall i | 0 <= i < |spared| :: ids[|killed|..][i] == spared[i].id
    requires (forall id | id in ids[..|killed|] :: id in gone) && forall id | id in ids[|killed|..] :: id !in gone
    ensures var kept, rest := Checks.Kept(killed + spared, k, n), n - Checks.Dropped(killed, k, n);
            KilledFirst(kept, gone) && |Left(kept, gone)| == |spared| - Checks.Dropped(spared, k, rest)
  {
    hide AllNamed, KilledFirst, Left, Checks.Kept, Checks.Dropped;
    var rest := n - Checks.Dropped(killed, k, n);
    Checks.KeptSplit(killed, spared, k, n);
    IdsAmong(killed, ids[..|killed|], k, n);
    IdsAmong(spared, ids[|killed|..], k, rest);
    KilledThenSpared(Checks.Kept(killed, k, n), Checks.Kept(spared, k, rest), gone);
  }

  /** CheckState: those killed still stand in front, and enough are spared exactly when it is harmless. */
  lemma SparingChecked(env: Settings, issued: set<string>, s: Sys, k: Kind, now: int)
    requires LifeCycle(issued, s) && Sparing(s, k)
    ensures var r := CheckedFrom(env, s, 0, now);
            && KilledFirst(KindIds(r.tasks, k), ScaleKilled(r.log))
            && (|Spared(r, k)| >= r.cfg.max.Of(k) <==> Harmless(s, k))
  {
    hide LifeCycle, KindIds, OfKind, ScaleKilled, CheckedFrom, Count, Checks.Kept, Checks.Dropped, Harmless,
      KilledFirst, AllNamed, KilledTasks, SparedTasks, Spared;
    var n, killed, spared, r := Count(s.tasks, k), KilledTasks(s, k), SparedTasks(s, k), CheckedFrom(env, s, 0, now);
    CheckedCalls(env, issued, s, k, now);
    HarmlessDropped(s, k);
    assert KilledFirst(Checks.Kept(killed + spared, k, n), ScaleKilled(s.log))
        && |spared| == |Spared(s, k)|
        && |Left(Checks.Kept(killed + spared, k, n), ScaleKilled(s.log))|
           == |spared| - Checks.Dropped(spared, k, n - Checks.Dropped(killed, k, n)) by {
      TwoParts(s, k);
      PartsKept(killed, spared, KindIds(s.tasks, k), k, n, ScaleKilled(s.log));
    }
    assert KindIds(r.tasks, k) == Checks.Kept(killed + spared, k, n) by {
      assert OfKind(s.tasks, k) == killed + spared by { TwoParts(s, k); }
      CheckedKept(env, issued, s, now, k);
      Checks.KeptOfKind(s.tasks, k, n);
    }
    assert |Spared(r, k)| == |Left(Checks.Kept(killed + spared, k, n), ScaleKilled(s.log))| by { SparedIs(r, k); }
  }

  lemma SparedIs(s: Sys, k: Kind)
    ensures Spared(s, k) == Left(KindIds(s.tasks, k), ScaleKilled(s.log))
  {
  }

  /** Harmless means that of the tasks spared no more are dropped than are spared beyond the wanted count. */
  lemma HarmlessDropped(s: Sys, k: Kind)
    ensures var n := Count(s.tasks, k);
            var rest := n - Checks.Dropped(KilledTasks(s, k), k, n);
            Harmless(s, k) <==> Checks.Dropped(SparedTasks(s, k), k, rest) <= Positive(|Spared(s, k)| - s.cfg.max.Of(k))
  {
    hide KilledTasks, SparedTasks, Spared, Count, Checks.Dropped, Checks.ChainOf;
    var n := Count(s.tasks, k);
    Checks.ChainIffDropped(SparedTasks(s, k), k, n - Checks.Dropped(KilledTasks(s, k), k, n),
      Positive(|Spared(s, k)| - s.cfg.max.Of(k)) + 1);
  }

  lemma CheckedCalls(env: Settings, issued: set<string>, s: Sys, k: Kind, now: int)
    requires LifeCycle(issued, s)
    ensures var r := CheckedFrom(env, s, 0, now);
            ScaleKilled(r.log) == ScaleKilled(s.log) && r.cfg.max == s.cfg.max
  {
    hide LifeCycle, KindIds, ScaleKilled, Left, CheckedFrom, Count;
    QuietStep(env, issued, s, Checking(now), k);
  }

  /** With the wanted count on every task of the kind, CheckState is harmless exactly when all the killed tasks are
      fresh, or no more of the others are fresh than were spared beyond the wanted count. */
  lemma HarmlessMeans(s: Sys, k: Kind)
    requires KindCurrent(s, k) && Sparing(s, k)
    ensures Harmless(s, k)
       <==> || AllFresh(KilledTasks(s, k))
            || Checks.FreshCount(SparedTasks(s, k), k) <= |Spared(s, k)| - s.cfg.max.Of(k)
  {
    var killed, spared, n, max := KilledTasks(s, k), SparedTasks(s, k), Count(s.tasks, k), s.cfg.max.Of(k);
    hide KindIds, OfKind, Spared, Count, Checks.Dropped, Harmless, Checks.FreshCount, KilledFirst, KilledTasks,
      SparedTasks, AllFresh, AllNamed, AllWant, KindCurrent, ScaleKilled;
    HarmlessDropped(s, k);
    SparingEnough(s, k);
    assert OfKind(s.tasks, k) == killed + spared && |killed| + |spared| == n && |spared| == |Spared(s, k)|
        && AllNamed(killed, k) by {
      TwoParts(s, k);
    }
    OfKindWants(s, k);
    WantParts(killed, spared, max);
    FreshAll(killed, k);
    DroppedWant(killed, k, n, max);
    DroppedWant(spared, k, n - Checks.Dropped(killed, k, n), max);
  }

  lemma WantParts(a: seq<Command>, b: seq<Command>, max: int)
    requires AllWant(a + b, max)
    ensures AllWant(a, max) && AllWant(b, max)
  {
    assert forall i | 0 <= i < |a| :: a[i] == (a + b)[i];
    assert forall i | 0 <= i < |b| :: b[i] == (a + b)[|a| + i];
  }

  lemma DroppedWant(ts: seq<Command>, k: Kind, n: int, max: int)
    requires AllWant(ts, max)
    ensures Checks.Dropped(ts, k, n) == Min(Checks.FreshCount(ts, k), Positive(n - max))
  {
    Checks.DroppedCurrent(ts, k, n, max);
  }

  lemma {:induction false} OfKindIn(ts: seq<Command>, k: Kind)
    ensures forall t | t in OfKind(ts, k) :: t in ts
  {
    if |ts| == 0 {
    } else {
      OfKindIn(ts[..|ts| - 1], k);
    }
  }

  lemma OfKindWants(s: Sys, k: Kind)
    requires KindCurrent(s, k)
    ensures AllWant(OfKind(s.tasks, k), s.cfg.max.Of(k))
  {
    OfKindIn(s.tasks, k);
    forall i | 0 <= i < |OfKind(s.tasks, k)| ensures OfKind(s.tasks, k)[i].instances == s.cfg.max.Of(k) {
      assert OfKind(s.tasks, k)[i] in s.tasks;
    }
  }

  /** CheckState is harmless whenever no task of the kind is fresh, whatever they want, and whenever Scale has killed
      none of them and each carries the wanted count. */
  lemma MostlyHarmless(s: Sys, k: Kind)
    ensures NoneFresh(OfKind(s.tasks, k)) ==> Harmless(s, k)
    ensures KindCurrent(s, k) && Spared(s, k) == KindIds(s.tasks, k) ==> Harmless(s, k)
  {
    HarmlessDropped(s, k);
    hide OfKind, KindIds, Spared, Count, Harmless, KindCurrent, Checks.Dropped, KilledTasks, SparedTasks, NoneFresh;
    var n, max, killed, spared := Count(s.tasks, k), s.cfg.max.Of(k), KilledTasks(s, k), SparedTasks(s, k);
    var rest := n - Checks.Dropped(killed, k, n);
    if NoneFresh(OfKind(s.tasks, k)) {
      assert NoneFresh(spared) by { SparedFresh(s, k); }
      NoneDropped(spared, k, rest);
    }
    if KindCurrent(s, k) && Spared(s, k) == KindIds(s.tasks, k) {
      AllSpared(s, k);
      OfKindWants(s, k);
      DroppedWant(spared, k, rest, max);
    }
  }

  lemma SparedFresh(s: Sys, k: Kind)
    requires NoneFresh(OfKind(s.tasks, k))
    ensures NoneFresh(SparedTasks(s, k))
  {
    hide OfKind, Spared;
  }

  lemma AllSpared(s: Sys, k: Kind)
    requires Spared(s, k) == KindIds(s.tasks, k)
    ensures SparedTasks(s, k) == OfKind(s.tasks, k) && Checks.Dropped(KilledTasks(s, k), k, Count(s.tasks, k)) == 0
    ensures |Spared(s, k)| == Count(s.tasks, k)
  {
    KindIdsOfKind(s.tasks, k);
    hide OfKind, KindIds, Spared, Count;
  }

  lemma {:induction false} NoneDropped(ts: seq<Command>, k: Kind, n: int)
    requires NoneFresh(ts)
    ensures Checks.Dropped(ts, k, n) == 0
  {
    if |ts| == 0 {
    } else {
      NoneDropped(ts[1..], k, n);
    }
  }

  // ---------- Single steps ----------

  lemma DistinctKindIds(issued: set<string>, s: Sys, k: Kind)
    requires LifeCycle(issued, s)
    ensures NoDuplicates(KindIds(s.tasks, k))
  {
    LifeCycleNames(issued, s);
    hide LifeCycle, KindIds;
    KindIdsDistinct(s.tasks, k);
  }

  lemma SparingScaling(s: Sys, r: Sys, k: Kind, front: nat)
    requires NoDuplicates(KindIds(s.tasks, k)) && Sparing(s, k) && KillsFront(s, r, k, front)
    requires 0 <= r.cfg.max.Of(k) <= s.cfg.max.Of(k)
    requires front == 0 || front <= |KindIds(s.tasks, k)| - r.cfg.max.Of(k)
    ensures Sparing(r, k) && |Spared(r, k)| == Min(|Spared(s, k)|, |KindIds(s.tasks, k)| - front)
  {
    hide KindIds, Left, ScaleKilled, KilledFirst, HasId;
    LeftIn(KindIds(s.tasks, k), ScaleKilled(s.log));
    MoreKilled(KindIds(s.tasks, k), ScaleKilled(s.log), ScaleKilled(r.log), front);
  }

  /** A request for no more than before, seen right after it: Scale has been fair again; it spared exactly as many as
      are wanted now if there were no more stored than wanted; and every task of the kind carries the new count. */
  lemma RequestSpares(env: Settings, issued: set<string>, s: Sys, k: Kind, m: nat)
    requires Safe(env, false, issued, s) && Sparing(s, k) && m <= s.cfg.max.Of(k)
    ensures var r := ScaledTo(s, k, m);
            && Safe(env, false, issued, r) && Sparing(r, k) && KindCurrent(r, k) && r.cfg.max.Of(k) == m
            && KindIds(r.tasks, k) == KindIds(s.tasks, k)
            && (Count(s.tasks, k) == s.cfg.max.Of(k) ==> |Spared(r, k)| == m)
  {
    SafeLifeCycle(env, false, issued, s);
    hide Safe, LifeCycle, Sparing, KindCurrent, ScaledTo, KindIds, Spared, KillsFront, HasId, DistinctIds, Count, With;
    RequestSafe(env, issued, s, k, m);
    ScaledToCurrent(s, k, m, k);
    assert DistinctIds(s.tasks) by { LifeCycleNames(issued, s); }
    ScaledToFront(s, k, m, k);
    WithOf(s.cfg.max, k, m);
    DistinctKindIds(issued, s, k);
    SparingEnough(s, k);
    var front := s.cfg.max.Of(k) - m;
    FrontIds(s, ScaledTo(s, k, m), k, front);
    SparingScaling(s, ScaledTo(s, k, m), k, front);
  }

  lemma SparingEnough(s: Sys, k: Kind)
    requires Sparing(s, k)
    ensures 0 <= s.cfg.max.Of(k) <= |Spared(s, k)| <= |KindIds(s.tasks, k)| == Count(s.tasks, k)
  {
    KindIdsOfKind(s.tasks, k);
    LeftIn(KindIds(s.tasks, k), ScaleKilled(s.log));
  }

  lemma RequestSafe(env: Settings, issued: set<string>, s: Sys, k: Kind, count: int)
    requires Safe(env, false, issued, s)
    ensures Safe(env, false, issued, ScaledTo(s, k, count))
  {
    hide Safe, Minor.MinorStep;
    Minor.ScaledToMinor(s, k, count);
    MinorSafe(env, false, issued, s, ScaledTo(s, k, count));
  }

  /** No fewer stored than wanted, and none killed yet. */
  lemma StartSpares(s: Sys, k: Kind)
    requires 0 <= s.cfg.max.Of(k) <= Count(s.tasks, k)
    requires forall id | id in KindIds(s.tasks, k) :: id !in ScaleKilled(s.log)
    ensures Sparing(s, k) && Spared(s, k) == KindIds(s.tasks, k)
  {
    KindIdsOfKind(s.tasks, k);
    hide KindIds, ScaleKilled, Count;
    LeftAll(KindIds(s.tasks, k), ScaleKilled(s.log));
  }
}
