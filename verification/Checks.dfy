/** What one CheckState does to the store and the channel, in closed form. */
module Checks {
  import opened Types
  import opened Store
  import opened Ports
  import opened Scaling
  import opened Scheduling
  import opened Machine
  import opened Safety
  import opened Counts
  import opened KindLists
  import Runs

  /** Stored tasks as every reachable state has them: one per ID, named, and undated while fresh. */
  ghost predicate Tidy(ts: seq<Command>) {
    && DistinctIds(ts)
    && forall i | 0 <= i < |ts| :: ts[i].id != "" && ts[i].name.Some? && (ts[i].state.Fresh? ==> ts[i].since.None?)
  }

  lemma LifeCycleTidy(issued: set<string>, s: Sys)
    requires LifeCycle(issued, s)
    ensures Tidy(s.tasks) && forall i | 0 <= i < |s.tasks| && s.tasks[i].state.Fresh? :: s.tasks[i].id !in s.sent
  {
    forall i | 0 <= i < |s.tasks| ensures ProperTask(issued, s.sent, s.tasks[i]) {
    }
    hide Accounted;
  }

  /** How many tasks of a kind CheckState drops when it comes to these with the count standing at `n`: it drops
      every fresh one that wants fewer instances than are left, and each drop lowers the count. */
  function Dropped(ts: seq<Command>, k: Kind, n: int): nat {
    if |ts| == 0 then 0
    else if Drops(ts[0], k, n) then 1 + Dropped(ts[1..], k, n - 1)
    else Dropped(ts[1..], k, n)
  }

  predicate Drops(t: Command, k: Kind, n: int) { t.name == Some(k) && t.state.Fresh? && n > t.instances }

  /** The fresh task at `j` is surplus: with the surplus tasks of its kind from `i` on gone, there still are more tasks
      of its kind than its instance count. */
  ghost predicate Surplus(s: Sys, i: nat, j: nat)
    requires i <= j < |s.tasks| && s.tasks[j].name.Some?
  {
    var k := s.tasks[j].name.value;
    Count(s.tasks, k) - Dropped(s.tasks[i..j], k, Count(s.tasks, k)) > s.tasks[j].instances
  }

  /** Scheduling changes one task, which keeps its key and instance count and is no longer fresh, and sends its ID. */
  lemma ScheduledShape(env: Settings, s: Sys, i: nat, now: int)
    requires i < |s.tasks| && Tidy(s.tasks)
    ensures var r := Scheduled(env, s, i, now);
            && |r.tasks| == |s.tasks| && r.tasks == s.tasks[i := r.tasks[i]]
            && r.tasks[i].name == s.tasks[i].name && r.tasks[i].id == s.tasks[i].id
            && r.tasks[i].instances == s.tasks[i].instances && r.tasks[i].state.New?
            && r.sent == s.sent + [s.tasks[i].id] && r.cfg == s.cfg
            && Tidy(r.tasks)
    ensures forall k :: Count(Scheduled(env, s, i, now).tasks, k) == Count(s.tasks, k)
  {
    hide HostPort, Assigned, Synced;
    ScheduledBounded(env, s, i, now);
  }

  lemma RemovedShape(s: Sys, i: nat)
    requires i < |s.tasks| && Tidy(s.tasks)
    ensures Tidy(RemoveAt(s.tasks, i)) && !HasId(RemoveAt(s.tasks, i), s.tasks[i].id)
    ensures forall k ::
              Count(RemoveAt(s.tasks, i), k) == Count(s.tasks, k) - (if s.tasks[i].name == Some(k) then 1 else 0)
  {
    forall k
      ensures Count(RemoveAt(s.tasks, i), k) == Count(s.tasks, k) - (if s.tasks[i].name == Some(k) then 1 else 0)
    {
      CountRemove(s.tasks, i, k);
    }
  }

  /** One round of the loop. */
  lemma CheckedRound(env: Settings, s: Sys, i: nat, now: int)
    requires i < |s.tasks| && Tidy(s.tasks)
    ensures CheckedFrom(env, s, i, now)
         == if !s.tasks[i].state.Fresh? then CheckedFrom(env, s, i + 1, now)
            else if Wanted(s.tasks, s.tasks[i]) then CheckedFrom(env, Scheduled(env, s, i, now), i + 1, now)
            else CheckedFrom(env, s.(tasks := RemoveAt(s.tasks, i)), i, now)
  {
    hide Count, Scheduled;
  }

  /** The loop leaves what it has passed alone, leaves nothing fresh behind, and sends only what it keeps. */
  lemma {:induction false} CheckedRest(env: Settings, s: Sys, i: nat, now: int)
    requires i <= |s.tasks| && Tidy(s.tasks)
    ensures var r := CheckedFrom(env, s, i, now);
            && i <= |r.tasks| && r.tasks[..i] == s.tasks[..i]
            && (forall j | i <= j < |r.tasks| :: !r.tasks[j].state.Fresh?)
            && |s.sent| <= |r.sent| && r.sent[..|s.sent|] == s.sent
            && forall id | id in r.sent && id !in s.sent :: HasId(r.tasks, id)
    decreases |s.tasks| - i
  {
    hide CheckedFrom, Scheduled, Wanted;
    if i == |s.tasks| {
      assert CheckedFrom(env, s, i, now) == s by { CheckedEnd(env, s, now); }
    } else {
      CheckedRound(env, s, i, now);
      if !s.tasks[i].state.Fresh? {
        CheckedRest(env, s, i + 1, now);
        CheckedOneMore(s.tasks, CheckedFrom(env, s, i, now).tasks, i);
      } else if Wanted(s.tasks, s.tasks[i]) {
        var s1 := Scheduled(env, s, i, now);
        ScheduledShape(env, s, i, now);
        CheckedRest(env, s1, i + 1, now);
        CheckedOneMore(s1.tasks, CheckedFrom(env, s, i, now).tasks, i);
      } else {
        RemovedShape(s, i);
        CheckedRest(env, s.(tasks := RemoveAt(s.tasks, i)), i, now);
      }
    }
  }

  lemma CheckedEnd(env: Settings, s: Sys, now: int)
    ensures CheckedFrom(env, s, |s.tasks|, now) == s
  {
  }

  lemma CheckedOneMore(ts: seq<Command>, us: seq<Command>, i: nat)
    requires i < |ts| && i < |us| && us[..i + 1] == ts[..i + 1]
    ensures us[..i] == ts[..i] && us[i] == ts[i] && HasId(us, ts[i].id)
  {
    assert us[..i + 1][..i] == us[..i] && ts[..i + 1][..i] == ts[..i];
    assert us[..i + 1][i] == us[i] && ts[..i + 1][i] == ts[i];
  }

  /** What becomes of the task at position `j`. */
  ghost predicate Fate(s: Sys, r: Sys, i: nat, j: nat)
    requires i <= j < |s.tasks| && s.tasks[j].name.Some?
  {
    var t := s.tasks[j];
    if !t.state.Fresh? then t in r.tasks
    else if Surplus(s, i, j) then !HasId(r.tasks, t.id)
    else t.id in r.sent && exists m :: 0 <= m < |r.tasks| && r.tasks[m].id == t.id && r.tasks[m].state.New?
  }

  lemma DroppedFrom(ts: seq<Command>, i: nat, j: nat, k: Kind, n: int)
    requires i < j <= |ts|
    ensures Dropped(ts[i..j], k, n)
         == if Drops(ts[i], k, n) then 1 + Dropped(ts[i + 1..j], k, n - 1) else Dropped(ts[i + 1..j], k, n)
  {
    assert ts[i..j][1..] == ts[i + 1..j];
  }

  /** A kind's surplus is settled one fresh task at a time: the round at `i` does not change what is surplus later. */
  lemma SurplusPassed(s: Sys, i: nat, j: nat)
    requires i < j < |s.tasks| && Tidy(s.tasks) && !s.tasks[i].state.Fresh?
    ensures Surplus(s, i + 1, j) == Surplus(s, i, j)
  {
    var k := s.tasks[j].name.value;
    DroppedFrom(s.tasks, i, j, k, Count(s.tasks, k));
    hide Dropped, Count;
  }

  lemma SurplusScheduled(env: Settings, s: Sys, i: nat, j: nat, now: int)
    requires i < j < |s.tasks| && Tidy(s.tasks) && Wanted(s.tasks, s.tasks[i])
    ensures var s1 := Scheduled(env, s, i, now);
            |s1.tasks| == |s.tasks| && s1.tasks[j] == s.tasks[j] && Surplus(s1, i + 1, j) == Surplus(s, i, j)
  {
    var ts, k := s.tasks, s.tasks[j].name.value;
    DroppedFrom(ts, i, j, k, Count(ts, k));
    hide Scheduled, Dropped, Count;
    ScheduledShape(env, s, i, now);
    assert Scheduled(env, s, i, now).tasks[i + 1..j] == ts[i + 1..j];
  }

  lemma SurplusRemoved(s: Sys, i: nat, j: nat)
    requires i < j < |s.tasks| && Tidy(s.tasks) && s.tasks[i].state.Fresh? && !Wanted(s.tasks, s.tasks[i])
    ensures var s1 := s.(tasks := RemoveAt(s.tasks, i));
            |s1.tasks| == |s.tasks| - 1 && s1.tasks[j - 1] == s.tasks[j] && Surplus(s1, i, j - 1) == Surplus(s, i, j)
  {
    var ts, k := s.tasks, s.tasks[j].name.value;
    DroppedFrom(ts, i, j, k, Count(ts, k));
    hide Dropped, Count;
    RemovedShape(s, i);
    assert RemoveAt(ts, i)[i..j - 1] == ts[i + 1..j];
  }

  lemma {:induction false} CheckedFate(env: Settings, s: Sys, i: nat, j: nat, now: int)
    requires i <= j < |s.tasks| && Tidy(s.tasks)
    ensures Fate(s, CheckedFrom(env, s, i, now), i, j)
    decreases |s.tasks| - i
  {
    hide CheckedFrom, Scheduled, Wanted, Surplus, HasId;
    CheckedRound(env, s, i, now);
    var t, r := s.tasks[i], CheckedFrom(env, s, i, now);
    if j == i {
      SurplusNow(s, i);
      if !t.state.Fresh? {
        CheckedRest(env, s, i + 1, now);
        CheckedOneMore(s.tasks, r.tasks, i);
      } else if Wanted(s.tasks, t) {
        var s1 := Scheduled(env, s, i, now);
        ScheduledShape(env, s, i, now);
        CheckedRest(env, s1, i + 1, now);
        CheckedOneMore(s1.tasks, r.tasks, i);
        assert r.sent[|s.sent|] == r.sent[..|s1.sent|][|s.sent|] == t.id;
      } else {
        RemovedShape(s, i);
        Runs.CheckedGone(env, s.(tasks := RemoveAt(s.tasks, i)), i, now, t.id);
      }
    } else {
      if !t.state.Fresh? {
        SurplusPassed(s, i, j);
        CheckedFate(env, s, i + 1, j, now);
      } else if Wanted(s.tasks, t) {
        ScheduledShape(env, s, i, now);
        SurplusScheduled(env, s, i, j, now);
        CheckedFate(env, Scheduled(env, s, i, now), i + 1, j, now);
      } else {
        RemovedShape(s, i);
        SurplusRemoved(s, i, j);
        CheckedFate(env, s.(tasks := RemoveAt(s.tasks, i)), i, j - 1, now);
      }
    }
  }

  /** The task the loop stands at is surplus exactly when it is not wanted. */
  lemma SurplusNow(s: Sys, i: nat)
    requires i < |s.tasks| && Tidy(s.tasks)
    ensures s.tasks[i].state.Fresh? ==> (Surplus(s, i, i) <==> !Wanted(s.tasks, s.tasks[i]))
  {
  }

  /** CheckState on the whole, whatever the instance counts: afterwards nothing stored is fresh; a task that was not
      fresh is untouched; a surplus fresh task is dropped unsent, and every other one is stored as new and sent,
      which no fresh task was before. */
  lemma CheckStateFate(env: Settings, issued: set<string>, s: Sys, now: int, j: nat)
    requires Safe(env, false, issued, s) && j < |s.tasks|
    ensures s.tasks[j].name.Some?
    ensures var r := CheckedFrom(env, s, 0, now);
            && (forall m | 0 <= m < |r.tasks| :: !r.tasks[m].state.Fresh?)
            && NoDuplicates(r.sent) && |s.sent| <= |r.sent| && r.sent[..|s.sent|] == s.sent
            && Fate(s, r, 0, j)
            && (s.tasks[j].state.Fresh? ==>
                  s.tasks[j].id !in s.sent && (s.tasks[j].id in r.sent <==> !Surplus(s, 0, j)))
  {
    hide Safe, CheckedFrom, Surplus;
    CheckedSafe(env, false, issued, s, 0, now);
    SafeLifeCycle(env, false, issued, s);
    SafeLifeCycle(env, false, issued, CheckedFrom(env, s, 0, now));
    LifeCycleTidy(issued, s);
    CheckedRest(env, s, 0, now);
    CheckedFate(env, s, 0, j, now);
    hide LifeCycle;
    SentOnce(issued, CheckedFrom(env, s, 0, now));
  }

  lemma SentOnce(issued: set<string>, s: Sys)
    requires LifeCycle(issued, s)
    ensures NoDuplicates(s.sent)
  {
  }

  // ---------- The tasks of one kind ----------

  /** The IDs of a kind that CheckState keeps, in order. */
  function Kept(ts: seq<Command>, k: Kind, n: int): seq<string> {
    if |ts| == 0 then []
    else if Drops(ts[0], k, n) then Kept(ts[1..], k, n - 1)
    else if ts[0].name == Some(k) then [ts[0].id] + Kept(ts[1..], k, n)
    else Kept(ts[1..], k, n)
  }

  /** The IDs that it drops. */
  function DroppedIds(ts: seq<Command>, k: Kind, n: int): set<string> {
    if |ts| == 0 then {}
    else if Drops(ts[0], k, n) then {ts[0].id} + DroppedIds(ts[1..], k, n - 1)
    else DroppedIds(ts[1..], k, n)
  }

  lemma KindIdsFrom(ts: seq<Command>, i: nat, k: Kind)
    requires i < |ts|
    ensures KindIds(ts[i..], k) == (if ts[i].name == Some(k) then [ts[i].id] else []) + KindIds(ts[i + 1..], k)
    ensures KindIds(ts[..i + 1], k) == KindIds(ts[..i], k) + (if ts[i].name == Some(k) then [ts[i].id] else [])
    ensures KindIds(ts, k) == KindIds(ts[..i], k) + KindIds(ts[i..], k)
  {
    hide KindIds;
    assert ts[i..] == [ts[i]] + ts[i + 1..] && ts[..i + 1] == ts[..i] + [ts[i]] && ts == ts[..i] + ts[i..];
    KindIdsSplit([ts[i]], ts[i + 1..], k);
    KindIdsSplit(ts[..i], [ts[i]], k);
    KindIdsSplit(ts[..i], ts[i..], k);
    KindIdsOne(ts[i], k);
  }

  lemma KeptFrom(ts: seq<Command>, i: nat, k: Kind, n: int)
    requires i < |ts|
    ensures Kept(ts[i..], k, n)
         == if Drops(ts[i], k, n) then Kept(ts[i + 1..], k, n - 1)
            else if ts[i].name == Some(k) then [ts[i].id] + Kept(ts[i + 1..], k, n)
            else Kept(ts[i + 1..], k, n)
  {
    assert ts[i..][1..] == ts[i + 1..];
  }

  /** What the loop at position `i` is going to leave of a kind: what it has passed, and what is kept of the rest. */
  function KindEnd(ts: seq<Command>, i: nat, k: Kind): seq<string>
    requires i <= |ts|
  {
    KindIds(ts[..i], k) + Kept(ts[i..], k, Count(ts, k))
  }

  lemma KindEndPassed(ts: seq<Command>, i: nat, k: Kind)
    requires i < |ts| && !Drops(ts[i], k, Count(ts, k))
    ensures KindEnd(ts, i + 1, k) == KindEnd(ts, i, k)
  {
    hide KindIds, Kept, Count, Drops;
    KindIdsFrom(ts, i, k);
    KeptFrom(ts, i, k, Count(ts, k));
  }

  lemma KindEndRemoved(ts: seq<Command>, i: nat, k: Kind)
    requires i < |ts| && (ts[i].name == Some(k) ==> Drops(ts[i], k, Count(ts, k)))
    ensures KindEnd(RemoveAt(ts, i), i, k) == KindEnd(ts, i, k)
  {
    var n, us := Count(ts, k), RemoveAt(ts, i);
    CountRemove(ts, i, k);
    RemovedSlices(ts, i);
    KindEndOf(us, i, k, ts[..i], ts[i + 1..], Count(us, k));
    KindEndOf(ts, i, k, ts[..i], ts[i..], n);
    hide KindEnd, KindIds, Kept, Count, RemoveAt;
    if ts[i].name != Some(k) {
      OtherStays(ts[i], k, n);
    }
    hide Drops;
    KeptFrom(ts, i, k, n);
  }

  lemma KindEndOf(ts: seq<Command>, i: nat, k: Kind, passed: seq<Command>, rest: seq<Command>, n: int)
    requires i <= |ts| && ts[..i] == passed && ts[i..] == rest && n == Count(ts, k)
    ensures KindEnd(ts, i, k) == KindIds(passed, k) + Kept(rest, k, n)
  {
  }

  lemma RemovedSlices(ts: seq<Command>, i: nat)
    requires i < |ts|
    ensures |RemoveAt(ts, i)| == |ts| - 1 && RemoveAt(ts, i)[i..] == ts[i + 1..] && RemoveAt(ts, i)[..i] == ts[..i]
  {
  }

  lemma KindEndReplaced(ts: seq<Command>, i: nat, u: Command, k: Kind)
    requires i < |ts| && u.name == ts[i].name && u.id == ts[i].id
    ensures KindEnd(ts[i := u], i + 1, k) == KindEnd(ts, i + 1, k)
  {
    CountReplace(ts, i, u, k);
    hide KindIds, Kept, Count;
    assert ts[i := u][i + 1..] == ts[i + 1..];
    KindIdsSame(ts[..i + 1], ts[i := u][..i + 1], k);
  }

  lemma KindEndLast(ts: seq<Command>, k: Kind)
    ensures KindEnd(ts, |ts|, k) == KindIds(ts, k)
  {
    assert ts[..|ts|] == ts && ts[|ts|..] == [];
    assert Kept([], k, Count(ts, k)) == [];
  }

  /** Of the tasks from `i` on, the loop leaves the kept ones of a kind. */
  lemma {:induction false} CheckedKind(env: Settings, s: Sys, i: nat, now: int, k: Kind)
    requires i <= |s.tasks| && Tidy(s.tasks)
    ensures KindIds(CheckedFrom(env, s, i, now).tasks, k) == KindEnd(s.tasks, i, k)
    decreases |s.tasks| - i
  {
    hide CheckedFrom, Scheduled, Count, KindIds, KindEnd;
    var ts := s.tasks;
    if i == |ts| {
      CheckedEnd(env, s, now);
      KindEndLast(ts, k);
    } else {
      CheckedRound(env, s, i, now);
      if !ts[i].state.Fresh? {
        KindEndPassed(ts, i, k);
        CheckedKind(env, s, i + 1, now, k);
      } else if Wanted(ts, ts[i]) {
        var s1 := Scheduled(env, s, i, now);
        ScheduledShape(env, s, i, now);
        KindEndPassed(ts, i, k);
        KindEndReplaced(ts, i, s1.tasks[i], k);
        CheckedKind(env, s1, i + 1, now, k);
      } else {
        RemovedShape(s, i);
        KindEndRemoved(ts, i, k);
        CheckedKind(env, s.(tasks := RemoveAt(ts, i)), i, now, k);
      }
    }
  }

  lemma {:induction false} KeptLength(ts: seq<Command>, k: Kind, n: int)
    ensures |Kept(ts, k, n)| == Count(ts, k) - Dropped(ts, k, n)
  {
    if |ts| == 0 {
      assert Count(ts, k) == 0;
    } else {
      CountRemove(ts, 0, k);
      assert RemoveAt(ts, 0) == ts[1..];
      hide Count;
      KeptLength(ts[1..], k, n);
      KeptLength(ts[1..], k, n - 1);
    }
  }

  lemma CheckedCount(env: Settings, s: Sys, now: int, k: Kind)
    requires Tidy(s.tasks)
    ensures Count(CheckedFrom(env, s, 0, now).tasks, k)
         == Count(s.tasks, k) - Dropped(s.tasks, k, Count(s.tasks, k))
  {
    hide CheckedFrom, Count, Dropped, Kept, KindIds, Tidy;
    CheckedKind(env, s, 0, now, k);
    assert s.tasks[0..] == s.tasks && s.tasks[..0] == [];
    KeptLength(s.tasks, k, Count(s.tasks, k));
    KindIdsOfKind(CheckedFrom(env, s, 0, now).tasks, k);
    NoKindIds(k);
  }

  /** CheckState leaves a kind with its count less the dropped ones. */
  lemma CheckStateCounts(env: Settings, issued: set<string>, s: Sys, now: int, k: Kind)
    requires Safe(env, false, issued, s)
    ensures Count(CheckedFrom(env, s, 0, now).tasks, k)
         == Count(s.tasks, k) - Dropped(s.tasks, k, Count(s.tasks, k))
  {
    SafeLifeCycle(env, false, issued, s);
    LifeCycleTidy(issued, s);
    CheckedCount(env, s, now, k);
  }

  lemma NoKindIds(k: Kind)
    ensures KindIds([], k) == []
  {
  }

  /** What is kept is what is not dropped. */
  lemma {:induction false} KeptLeft(ts: seq<Command>, k: Kind, n: int)
    requires DistinctIds(ts)
    ensures Kept(ts, k, n) == Left(KindIds(ts, k), DroppedIds(ts, k, n))
    ensures forall id | id in DroppedIds(ts, k, n) :: HasId(ts, id)
  {
    if |ts| == 0 {
      assert Kept(ts, k, n) == [] && KindIds(ts, k) == [];
    } else {
      var rest, t := ts[1..], ts[0];
      var m := if Drops(t, k, n) then n - 1 else n;
      assert DistinctIds(rest);
      KeptLeft(rest, k, m);
      assert ts[0..] == ts;
      KindIdsFrom(ts, 0, k);
      hide KindIds, Left, Kept, DroppedIds, Drops, DistinctIds, HasId;
      KeptRound(ts, k, n);
      HeadApart(ts, k, DroppedIds(rest, k, m));
      LeftHead(t.id, KindIds(rest, k), DroppedIds(rest, k, m));
    }
  }

  /** The first task's ID is not among those of the others. */
  lemma HeadApart(ts: seq<Command>, k: Kind, gone: set<string>)
    requires DistinctIds(ts) && |ts| > 0 && forall id | id in gone :: HasId(ts[1..], id)
    ensures HasId(ts, ts[0].id) && ts[0].id !in gone && ts[0].id !in KindIds(ts[1..], k)
    ensures forall id | id in gone :: HasId(ts, id)
  {
    var rest := ts[1..];
    forall id | id in gone ensures HasId(ts, id) && id != ts[0].id {
      var i :| 0 <= i < |rest| && rest[i].id == id;
      assert ts[i + 1] == rest[i];
    }
    KindIdsIn(rest, k, ts[0].id);
    assert forall i | 0 <= i < |rest| :: rest[i] == ts[i + 1];
  }

  /** Where a dropped task stood. */
  lemma {:induction false} DroppedAt(ts: seq<Command>, k: Kind, n: int, id: string) returns (j: nat)
    requires id in DroppedIds(ts, k, n)
    ensures j < |ts| && ts[j].id == id && Drops(ts[j], k, n - Dropped(ts[..j], k, n))
  {
    var m := if Drops(ts[0], k, n) then n - 1 else n;
    if Drops(ts[0], k, n) && ts[0].id == id {
      j := 0;
      assert Dropped(ts[..0], k, n) == 0;
    } else {
      var i := DroppedAt(ts[1..], k, m, id);
      j := i + 1;
      assert ts[..j][1..] == ts[1..][..i];
    }
  }

  /** What CheckState drops of a kind is a stored task, and afterwards no stored task has its ID. */
  lemma DroppedIsGone(env: Settings, s: Sys, now: int, k: Kind, id: string)
    requires Tidy(s.tasks) && id in DroppedIds(s.tasks, k, Count(s.tasks, k))
    ensures HasId(s.tasks, id) && !HasId(CheckedFrom(env, s, 0, now).tasks, id)
  {
    var j := DroppedAt(s.tasks, k, Count(s.tasks, k), id);
    assert s.tasks[0..j] == s.tasks[..j];
    hide CheckedFrom, DroppedIds, Dropped, Count;
    CheckedFate(env, s, 0, j, now);
  }

  lemma KeptRound(ts: seq<Command>, k: Kind, n: int)
    requires |ts| > 0
    ensures if Drops(ts[0], k, n) then
              && ts[0].name == Some(k)
              && Kept(ts, k, n) == Kept(ts[1..], k, n - 1)
              && DroppedIds(ts, k, n) == {ts[0].id} + DroppedIds(ts[1..], k, n - 1)
            else
              && Kept(ts, k, n) == (if ts[0].name == Some(k) then [ts[0].id] else []) + Kept(ts[1..], k, n)
              && DroppedIds(ts, k, n) == DroppedIds(ts[1..], k, n)
  {
  }

  /** A new ID in front of a list: left or not, it does not change what is left of the others. */
  lemma LeftHead(id: string, ids: seq<string>, gone: set<string>)
    requires id !in ids && id !in gone
    ensures Left([id] + ids, gone) == [id] + Left(ids, gone)
    ensures Left([id] + ids, {id} + gone) == Left(ids, gone)
    ensures Left([] + ids, gone) == [] + Left(ids, gone)
  {
    assert Left([id], gone) == [id] && Left([id], {id} + gone) == [] by {
      assert [id][..0] == [];
    }
    hide Left;
    LeftSplit([id], ids, gone);
    LeftSplit([id], ids, {id} + gone);
    LeftSame(ids, gone, {id} + gone);
    assert [] + ids == ids;
  }

  /** Only the tasks of the kind matter. */
  lemma {:induction false} KeptOfKind(ts: seq<Command>, k: Kind, n: int)
    ensures Kept(ts, k, n) == Kept(OfKind(ts, k), k, n)
  {
    if |ts| == 0 {
      assert OfKind(ts, k) == [];
    } else {
      assert ts[0..] == ts;
      OfKindFrom(ts, 0, k);
      hide OfKind, Drops;
      var rest := OfKind(ts[1..], k);
      if ts[0].name == Some(k) {
        assert OfKind(ts, k)[0] == ts[0] && OfKind(ts, k)[1..] == rest;
      } else {
        assert !Drops(ts[0], k, n) by { OtherStays(ts[0], k, n); }
      }
      KeptOfKind(ts[1..], k, n);
      KeptOfKind(ts[1..], k, n - 1);
    }
  }

  lemma OtherStays(t: Command, k: Kind, n: int)
    requires t.name != Some(k)
    ensures !Drops(t, k, n)
  {
  }

  lemma {:induction false} KeptSplit(a: seq<Command>, b: seq<Command>, k: Kind, n: int)
    ensures Kept(a + b, k, n) == Kept(a, k, n) + Kept(b, k, n - Dropped(a, k, n))
  {
    if |a| == 0 {
      assert a + b == b;
    } else {
      assert (a + b)[1..] == a[1..] + b;
      KeptSplit(a[1..], b, k, n);
      KeptSplit(a[1..], b, k, n - 1);
    }
  }

  // ---------- When CheckState leaves too few ----------

  /** Fresh tasks of a kind, in iteration order, each wanting fewer instances than are left once the ones before it
      are gone. */
  ghost predicate Chain(ts: seq<Command>, k: Kind, n: int, js: seq<nat>) {
    && (forall i | 0 <= i < |js| :: js[i] < |ts| && Drops(ts[js[i]], k, n - i))
    && forall i, j | 0 <= i < j < |js| :: js[i] < js[j]
  }

  /** A chain can be dropped one by one, and the loop drops as many tasks as the longest chain has. */
  lemma {:induction false} ChainsDropped(ts: seq<Command>, k: Kind, n: int, js: seq<nat>)
    requires Chain(ts, k, n, js)
    ensures |js| <= Dropped(ts, k, n)
    decreases |ts|
  {
    if |js| == 0 {
    } else {
      assert js[0] < |ts|;
      var rest := ts[1..];
      if Drops(ts[0], k, n) {
        assert forall i | 1 <= i < |js| :: js[0] < js[i];
        var tail := seq(|js| - 1, i requires 0 <= i < |js| - 1 => js[i + 1] - 1);
        assert Chain(rest, k, n - 1, tail) by { ChainTail(ts, k, n, js, tail); }
        ChainsDropped(rest, k, n - 1, tail);
      } else {
        assert Drops(ts[js[0]], k, n - 0);
        assert js[0] != 0;
        assert forall i | 0 <= i < |js| :: js[0] <= js[i];
        var same := seq(|js|, i requires 0 <= i < |js| => js[i] - 1);
        assert forall i | 0 <= i < |same| :: rest[same[i]] == ts[js[i]];
        ChainsDropped(rest, k, n, same);
      }
    }
  }

  lemma ChainTail(ts: seq<Command>, k: Kind, n: int, js: seq<nat>, tail: seq<nat>)
    requires Chain(ts, k, n, js) && |ts| > 0 && |js| == |tail| + 1
    requires forall i | 1 <= i < |js| :: js[i] == tail[i - 1] + 1
    ensures Chain(ts[1..], k, n - 1, tail)
  {
    hide Drops;
    forall i | 0 <= i < |tail| ensures tail[i] < |ts[1..]| && Drops(ts[1..][tail[i]], k, n - 1 - i) {
      assert js[i + 1] == tail[i] + 1;
      assert Drops(ts[js[i + 1]], k, n - (i + 1));
    }
    forall i, j | 0 <= i < j < |tail| ensures tail[i] < tail[j] {
      assert js[i + 1] < js[j + 1];
    }
  }

  /** A chain over the rest, moved back by one place. */
  lemma ChainBack(ts: seq<Command>, k: Kind, n: int, tail: seq<nat>) returns (js: seq<nat>)
    requires |ts| > 0 && Chain(ts[1..], k, n, tail)
    ensures |js| == |tail| && Chain(ts, k, n, js) && forall i | 0 <= i < |js| :: js[i] == tail[i] + 1
  {
    hide Drops;
    js := seq(|tail|, i requires 0 <= i < |tail| => tail[i] + 1);
    assert forall i | 0 <= i < |js| :: ts[js[i]] == ts[1..][tail[i]];
  }

  /** A chain with a task put in front of it. */
  lemma ChainFront(ts: seq<Command>, k: Kind, n: int, js: seq<nat>)
    requires |ts| > 0 && Drops(ts[0], k, n) && Chain(ts, k, n - 1, js) && forall i | 0 <= i < |js| :: js[i] > 0
    ensures Chain(ts, k, n, [0] + js)
  {
    hide Drops;
    forall i | 1 <= i <= |js| ensures Drops(ts[([0] + js)[i]], k, n - i) {
      assert Drops(ts[js[i - 1]], k, n - 1 - (i - 1));
    }
  }

  lemma {:induction false} DroppedChain(ts: seq<Command>, k: Kind, n: int) returns (js: seq<nat>)
    ensures Chain(ts, k, n, js) && |js| == Dropped(ts, k, n)
  {
    if |ts| == 0 {
      js := [];
    } else {
      hide Drops, Chain;
      if Drops(ts[0], k, n) {
        var tail := DroppedChain(ts[1..], k, n - 1);
        var back := ChainBack(ts, k, n - 1, tail);
        ChainFront(ts, k, n, back);
        js := [0] + back;
      } else {
        var tail := DroppedChain(ts[1..], k, n);
        js := ChainBack(ts, k, n, tail);
      }
    }
  }

  /** There is a chain of so many fresh tasks of a kind when the count stands at `n`. */
  ghost predicate ChainOf(ts: seq<Command>, k: Kind, n: int, length: nat) {
    exists js :: Chain(ts, k, n, js) && |js| == length
  }

  lemma ChainPrefix(ts: seq<Command>, k: Kind, n: int, js: seq<nat>, length: nat)
    requires Chain(ts, k, n, js) && length <= |js|
    ensures Chain(ts, k, n, js[..length])
  {
  }

  lemma ChainIffDropped(ts: seq<Command>, k: Kind, n: int, length: nat)
    ensures ChainOf(ts, k, n, length) <==> length <= Dropped(ts, k, n)
  {
    hide Dropped;
    var js := DroppedChain(ts, k, n);
    if length <= |js| {
      ChainPrefix(ts, k, n, js, length);
      assert |js[..length]| == length;
    }
    if ChainOf(ts, k, n, length) {
      var other :| Chain(ts, k, n, other) && |other| == length;
      ChainsDropped(ts, k, n, other);
    }
  }

  /** CheckState leaves a kind with no fewer than it had or than are wanted, whichever other less, if and only if the
      instance counts of its fresh tasks have no chain longer than the kind has too many. */
  lemma CheckStateLeavesEnough(env: Settings, issued: set<string>, s: Sys, now: int, k: Kind)
    requires Safe(env, false, issued, s)
    ensures var n, max, left := Count(s.tasks, k), s.cfg.max.Of(k), Count(CheckedFrom(env, s, 0, now).tasks, k);
            left >= Min(n, max) <==> !ChainOf(s.tasks, k, n, Positive(n - max) + 1)
  {
    CheckStateCounts(env, issued, s, now, k);
    hide Safe, CheckedFrom, Count, Dropped, ChainOf;
    var n := Count(s.tasks, k);
    ChainIffDropped(s.tasks, k, n, Positive(n - s.cfg.max.Of(k)) + 1);
  }

  /** So it never leaves too few when no fresh task of the kind wants fewer instances than are wanted. */
  lemma FreshWantEnough(ts: seq<Command>, k: Kind, max: int)
    requires forall j | 0 <= j < |ts| && ts[j].name == Some(k) && ts[j].state.Fresh? :: ts[j].instances >= max
    ensures !ChainOf(ts, k, Count(ts, k), Positive(Count(ts, k) - max) + 1)
  {
    hide Count;
    var n := Count(ts, k);
    forall js | Chain(ts, k, n, js) ensures |js| <= Positive(n - max) {
      if |js| > 0 {
        assert Drops(ts[js[|js| - 1]], k, n - (|js| - 1));
      }
    }
  }

  // ---------- With the wanted counts on every task ----------

  /** How many fresh tasks of a kind there are. */
  function FreshCount(ts: seq<Command>, k: Kind): nat {
    if |ts| == 0 then 0
    else (if ts[0].name == Some(k) && ts[0].state.Fresh? then 1 else 0) + FreshCount(ts[1..], k)
  }

  /** When all tasks of a kind want `max` instances the first fresh ones are dropped, as many as there are too many. */
  lemma {:induction false} DroppedCurrent(ts: seq<Command>, k: Kind, n: int, max: int)
    requires forall i | 0 <= i < |ts| && ts[i].name == Some(k) :: ts[i].instances == max
    ensures Dropped(ts, k, n) == Min(FreshCount(ts, k), Positive(n - max))
  {
    if |ts| == 0 {
      assert Dropped(ts, k, n) == 0;
    } else {
      DroppedCurrent(ts[1..], k, n, max);
      DroppedCurrent(ts[1..], k, n - 1, max);
    }
  }

  /** With the wanted count on every task of the kind a fresh one is surplus exactly when fewer fresh ones come
      before it than the kind has too many. */
  lemma SurplusCurrent(s: Sys, j: nat)
    requires j < |s.tasks| && s.tasks[j].name.Some? && KindCurrent(s, s.tasks[j].name.value)
    ensures var k := s.tasks[j].name.value;
            Surplus(s, 0, j) <==> FreshCount(s.tasks[..j], k) < Count(s.tasks, k) - s.cfg.max.Of(k)
  {
    var k := s.tasks[j].name.value;
    assert s.tasks[0..j] == s.tasks[..j];
    DroppedCurrent(s.tasks[..j], k, Count(s.tasks, k), s.cfg.max.Of(k));
    hide Dropped, FreshCount, Count;
  }

  /** With the wanted count on every task of the kind CheckState drops only what is too much: it leaves a kind that
      has F fresh tasks among its C with the larger of C - F and the smaller of C and the wanted count. */
  lemma CheckStateCountsCurrent(env: Settings, issued: set<string>, s: Sys, now: int, k: Kind)
    requires LifeCycle(issued, s) && KindCurrent(s, k)
    ensures Count(CheckedFrom(env, s, 0, now).tasks, k)
         == Larger(Count(s.tasks, k) - FreshCount(s.tasks, k), Min(Count(s.tasks, k), s.cfg.max.Of(k)))
  {
    LifeCycleTidy(issued, s);
    hide LifeCycle, CheckedFrom, Count, Dropped;
    CheckedCount(env, s, now, k);
    DroppedCurrent(s.tasks, k, Count(s.tasks, k), s.cfg.max.Of(k));
    FreshAtMost(s.tasks, k);
  }

  lemma {:induction false} FreshAtMost(ts: seq<Command>, k: Kind)
    ensures FreshCount(ts, k) <= Count(ts, k)
  {
    if |ts| == 0 {
    } else {
      FreshAtMost(ts[1..], k);
      CountRemove(ts, 0, k);
      assert RemoveAt(ts, 0) == ts[1..];
    }
  }

  // ---------- A run that leaves too few ----------

  /** An agent as it is stored, not yet running. */
  function StoredAgent(id: string, state: State, instances: int): Command {
    Command(Some(Agent), id, state, None, instances, [0, 0], [0, 0], 0.0, 0.0, 0.0, "", "", 1)
  }

  /** Some agents stored, those of the queue sent, and nothing else. */
  function HoldingAgents(agents: seq<Command>, queue: seq<Command>, wanted: int): Sys {
    var cfg := Config(PerKind(1, 1, wanted), PerKind(1, 1, wanted), 6443);
    Sys(agents, None, [], cfg, cfg, queue, true, false, [], true, [], QueueIds(queue), [], false)
  }

  lemma HoldingSafe(env: Settings, issued: set<string>, agents: seq<Command>, queue: seq<Command>, wanted: int)
    requires DistinctIds(agents) && DistinctIds(queue)
    requires forall i | 0 <= i < |agents| ::
               && agents[i] == StoredAgent(agents[i].id, agents[i].state, wanted)
               && agents[i].id != "" && agents[i].id in issued
    requires forall i | 0 <= i < |agents| && agents[i].state.Fresh? :: !HasId(queue, agents[i].id)
    requires forall i | 0 <= i < |queue| :: queue[i] in agents
    ensures Safe(env, false, issued, HoldingAgents(agents, queue, wanted))
    ensures InstancesCurrent(HoldingAgents(agents, queue, wanted))
  {
    var s := HoldingAgents(agents, queue, wanted);
    assert multiset(s.sent) == multiset(QueueIds(s.queue)) + multiset(Launches(s.log)) + multiset(s.lost);
    forall i | 0 <= i < |agents| ensures ProperTask(issued, s.sent, agents[i]) && PortsCarried(s, agents[i]) {
      if agents[i].id in s.sent {
        var j :| 0 <= j < |queue| && queue[j].id == agents[i].id;
        assert HasId(queue, agents[i].id);
      }
      forall j | 0 <= j < |queue| && queue[j].id == agents[i].id ensures queue[j].mappings == agents[i].mappings {
        assert queue[j] in agents;
      }
    }
  }

  /** Scaling agents by request, seen from outside. */
  lemma AgentsRescaled(s: Sys, count: int)
    ensures var r := ScaledTo(s, Agent, count);
            && Rescaled(s.tasks, r.tasks, Agent, count, 0)
            && r.cfg.max.agent == count && r.saved == s.cfg && r.queue == s.queue
  {
    hide ScaledFrom;
    ScaledFromStore(SaveConfig(s), Agent, count, s.cfg.max.agent, 0);
  }

  lemma RunOfThree(env: Settings, s: Sys, a: Event, b: Event, c: Event)
    ensures Run(env, s, [a, b, c]) == Apply(env, Apply(env, Apply(env, s, a), b), c)
  {
    hide Apply;
    assert [a, b, c][..2] == [a, b] && [a, b][..1] == [a] && [a][..0] == [];
    assert Run(env, s, [a]) == Apply(env, s, a);
    assert Run(env, s, [a, b]) == Apply(env, Run(env, s, [a]), b);
  }

  /** CheckState can leave fewer than are wanted: of two agents, both wanted, one is fresh; a request for one agent and
      a crash leave two wanted but one on every task, and CheckState drops the fresh one. */
  lemma FreshLostAfterCrash(env: Settings, now: int)
    ensures var x, y := StoredAgent("x", Fresh, 2), StoredAgent("y", New, 2);
            var s := HoldingAgents([x, y], [y], 2);
            var r := Run(env, s, [ScaleRequest(Agent, 1), Crashed, Checking(now)]);
            && Safe(env, false, {"x", "y"}, s) && InstancesCurrent(s)
            && Count(s.tasks, Agent) == 2 && s.cfg.max.agent == 2
            && Count(r.tasks, Agent) == 1 && r.cfg.max.agent == 2
  {
    var x, y := StoredAgent("x", Fresh, 2), StoredAgent("y", New, 2);
    var s := HoldingAgents([x, y], [y], 2);
    HoldingSafe(env, {"x", "y"}, [x, y], [y], 2);
    hide Safe, InstancesCurrent, ScaledTo, CheckedFrom, Rescaled;
    TwoAgents(x, y);
    AgentsRescaled(s, 1);
    var t := Restarted(ScaledTo(s, Agent, 1));
    TwoRescaled(x, y, t.tasks, 1);
    FirstDropped(env, t, now);
    ScaledCrashedChecked(env, s, 1, now);
  }

  lemma ScaledCrashedChecked(env: Settings, s: Sys, count: int, now: int)
    ensures Run(env, s, [ScaleRequest(Agent, count), Crashed, Checking(now)])
         == CheckedFrom(env, Restarted(ScaledTo(s, Agent, count)), 0, now)
  {
    hide ScaledTo, CheckedFrom, Restarted;
    RunOfThree(env, s, ScaleRequest(Agent, count), Crashed, Checking(now));
  }

  /** Of two agents that want one, the first, fresh one is dropped. */
  lemma FirstDropped(env: Settings, s: Sys, now: int)
    requires Tidy(s.tasks) && |s.tasks| == 2 && s.tasks[0].state.Fresh? && !s.tasks[1].state.Fresh?
    requires forall i | 0 <= i < 2 :: s.tasks[i].name == Some(Agent) && s.tasks[i].instances == 1
    ensures Count(CheckedFrom(env, s, 0, now).tasks, Agent) == 1 && CheckedFrom(env, s, 0, now).cfg == s.cfg
  {
    hide CheckedFrom;
    var ts := s.tasks;
    assert ts == [ts[0], ts[1]] && ts[1..] == [ts[1]] && ts[1..][1..] == [];
    TwoAgents(ts[0], ts[1]);
    CheckedCount(env, s, now, Agent);
    CheckedFrame(env, s, 0, now);
    assert Dropped(ts[1..], Agent, 1) == 0;
  }

  lemma TwoRescaled(x: Command, y: Command, us: seq<Command>, count: int)
    requires x.name == Some(Agent) && y.name == Some(Agent) && Rescaled([x, y], us, Agent, count, 0)
    ensures us == [x.(instances := count), y.(instances := count)] && us == [us[0], us[1]]
  {
  }

  lemma TwoAgents(x: Command, y: Command)
    requires x.name == Some(Agent) && y.name == Some(Agent)
    ensures Count([x, y], Agent) == 2
  {
    assert [x, y][..1] == [x];
    CountOne(x, Agent);
  }
}
