/** Stopping and starting the cluster, with crashes at any point in between. */
module Hibernation {
  import opened Types
  import opened Nodes
  import opened Scaling
  import opened Scheduling
  import opened Updates
  import opened Machine
  import opened Minor
  import opened Safety
  import opened Counts

  /** The configuration in memory and its saved copy. */
  datatype Disk = Disk(cfg: Config, saved: Config)

  function DiskOf(s: Sys): Disk { Disk(s.cfg, s.saved) }

  /** The single effects on the configuration that stopping and starting are made of. */
  datatype Effect =
    | Remember                     // copy the wanted counts to the counts to restore, if none is zero
    | Save
    | Want(k: Kind, count: int)
    | WantAgain(k: Kind)           // want what is to be restored

  function Do(d: Disk, e: Effect): Disk {
    match e
    case Remember => d.(cfg := Remembered(d.cfg))
    case Save => d.(saved := d.cfg)
    case Want(k, count) => d.(cfg := d.cfg.(max := With(d.cfg.max, k, count)))
    case WantAgain(k) => d.(cfg := d.cfg.(max := With(d.cfg.max, k, d.cfg.restore.Of(k))))
  }

  function Exec(d: Disk, es: seq<Effect>): Disk
    decreases |es|
  {
    if |es| == 0 then d else Exec(Do(d, es[0]), es[1..])
  }

  /** clusterStop: every scaling saves before it sets the new count. */
  function StopEffects(ds: bool): seq<Effect> {
    [Remember, Save, Save, Want(Agent, 0), Save, Want(Server, 0)]
    + (if ds then [Save, Want(Datastore, 0), Save] else [Save])
  }

  /** clusterStart. */
  function StartEffects(): seq<Effect> {
    [Save, WantAgain(Datastore), Save, WantAgain(Server), Save, WantAgain(Agent)]
  }

  lemma ScaledToDisk(s: Sys, k: Kind, count: int)
    ensures DiskOf(ScaledTo(s, k, count)) == Do(Do(DiskOf(s), Save), Want(k, count))
  {
    hide Scaled;
    ScaledKeepsConfig(s, k, count, s.cfg.max.Of(k));
  }

  lemma {:induction false} ExecSplit(d: Disk, a: seq<Effect>, b: seq<Effect>)
    ensures Exec(d, a + b) == Exec(Exec(d, a), b)
    decreases |a|
  {
    if |a| == 0 {
      assert a + b == b;
    } else {
      assert (a + b)[1..] == a[1..] + b;
      ExecSplit(Do(d, a[0]), a[1..], b);
    }
  }

  lemma ExecTwo(d: Disk, a: Effect, b: Effect, rest: seq<Effect>)
    ensures Exec(d, [a, b] + rest) == Exec(Do(Do(d, a), b), rest)
  {
    assert ([a, b] + rest)[1..] == [b] + rest;
    assert ([b] + rest)[1..] == rest;
  }

  lemma ExecOne(d: Disk, a: Effect)
    ensures Exec(d, [a]) == Do(d, a)
  {
    assert [a][1..] == [];
  }

  /** The handlers have these effects. */
  lemma StopIsEffects(s: Sys, ds: bool)
    ensures DiskOf(Stopped(s, ds)) == Exec(DiskOf(s), StopEffects(ds))
  {
    hide ScaledTo, Exec, Remembered;
    var s1 := SaveConfig(s.(cfg := Remembered(s.cfg)));
    var s2 := ScaledTo(s1, Agent, 0);
    var s3 := ScaledTo(s2, Server, 0);
    ScaledToDisk(s1, Agent, 0);
    ScaledToDisk(s2, Server, 0);
    ScaledToDisk(s3, Datastore, 0);
    var tail := if ds then [Save, Want(Datastore, 0), Save] else [Save];
    ExecTwo(DiskOf(s), Remember, Save, [Save, Want(Agent, 0), Save, Want(Server, 0)] + tail);
    ExecTwo(DiskOf(s1), Save, Want(Agent, 0), [Save, Want(Server, 0)] + tail);
    ExecTwo(DiskOf(s2), Save, Want(Server, 0), tail);
    assert StopEffects(ds) == [Remember, Save] + ([Save, Want(Agent, 0), Save, Want(Server, 0)] + tail);
    assert [Save, Want(Agent, 0), Save, Want(Server, 0)] + tail
        == [Save, Want(Agent, 0)] + ([Save, Want(Server, 0)] + tail);
    if ds {
      ExecTwo(DiskOf(s3), Save, Want(Datastore, 0), [Save]);
      assert tail == [Save, Want(Datastore, 0)] + [Save];
      ExecOne(DiskOf(ScaledTo(s3, Datastore, 0)), Save);
    } else {
      ExecOne(DiskOf(s3), Save);
    }
  }

  lemma StartIsEffects(s: Sys)
    ensures DiskOf(Started(s)) == Exec(DiskOf(s), StartEffects())
  {
    hide ScaledTo, Exec;
    var s1 := ScaledTo(s, Datastore, s.cfg.restore.datastore);
    var s2 := ScaledTo(s1, Server, s1.cfg.restore.server);
    ScaledToDisk(s, Datastore, s.cfg.restore.datastore);
    ScaledToDisk(s1, Server, s1.cfg.restore.server);
    ScaledToDisk(s2, Agent, s2.cfg.restore.agent);
    var two, one := [Save, WantAgain(Server), Save, WantAgain(Agent)], [Save, WantAgain(Agent)];
    ExecTwo(DiskOf(s), Save, WantAgain(Datastore), two);
    ExecTwo(DiskOf(s1), Save, WantAgain(Server), one);
    ExecTwo(DiskOf(s2), Save, WantAgain(Agent), []);
    assert StartEffects() == [Save, WantAgain(Datastore)] + two && two == [Save, WantAgain(Server)] + one
        && one == one + [];
    assert Exec(DiskOf(Started(s)), []) == DiskOf(Started(s)) by { ExecNone(DiskOf(Started(s))); }
  }

  lemma ExecNone(d: Disk)
    ensures Exec(d, []) == d
  {
  }

  // ---------- Crashes ----------

  /** The process dies and its configuration is reloaded. */
  function Reloaded(d: Disk): Disk { d.(cfg := d.saved) }

  /** What can happen to the configuration of a cluster that is being stopped and started; a cut-short request dies
      after its first `effects` effects.  Any other part of the framework may save at any time. */
  datatype Act =
    | Stop(ds: bool)
    | StopCutShort(ds: bool, effects: nat)
    | Start
    | StartCutShort(effects: nat)
    | Crash
    | SaveNow

  function Begun(es: seq<Effect>, n: nat): seq<Effect> { if n <= |es| then es[..n] else es }

  function Act1(d: Disk, a: Act): Disk {
    match a
    case Stop(ds) => Exec(d, StopEffects(ds))
    case StopCutShort(ds, n) => Reloaded(Exec(d, Begun(StopEffects(ds), n)))
    case Start => if AllNonzero(d.cfg.max) then d else Exec(d, StartEffects())
    case StartCutShort(n) => Reloaded(if AllNonzero(d.cfg.max) then d else Exec(d, Begun(StartEffects(), n)))
    case Crash => Reloaded(d)
    case SaveNow => Do(d, Save)
  }

  function ActAll(d: Disk, acts: seq<Act>): Disk {
    if |acts| == 0 then d else Act1(ActAll(d, acts[..|acts| - 1]), acts[|acts| - 1])
  }

  /** Each wanted count is the original one or zero, and the counts to restore are the original ones. */
  predicate Hibernates(orig: PerKind<int>, c: Config) {
    && c.restore == orig
    && forall k :: c.max.Of(k) == 0 || c.max.Of(k) == orig.Of(k)
  }

  predicate BothHibernate(orig: PerKind<int>, d: Disk) { Hibernates(orig, d.cfg) && Hibernates(orig, d.saved) }

  /** An effect of stopping to zero or of starting. */
  predicate Mild(e: Effect) { e.Want? ==> e.count == 0 }

  lemma DoHibernates(orig: PerKind<int>, d: Disk, e: Effect)
    requires Hibernates(orig, d.cfg) && Mild(e)
    ensures Hibernates(orig, Do(d, e).cfg)
    ensures Hibernates(orig, d.saved) || e.Save? ==> Hibernates(orig, Do(d, e).saved)
  {
    if e.Remember? && AllNonzero(d.cfg.max) {
      assert d.cfg.max.Of(Datastore) == orig.datastore && d.cfg.max.Of(Server) == orig.server
          && d.cfg.max.Of(Agent) == orig.agent;
    }
    if e.Want? {
      WithOf(d.cfg.max, e.k, 0);
    }
    if e.WantAgain? {
      WithOf(d.cfg.max, e.k, d.cfg.restore.Of(e.k));
    }
  }

  lemma {:induction false} ExecHibernates(orig: PerKind<int>, d: Disk, es: seq<Effect>)
    requires BothHibernate(orig, d) && forall e | e in es :: Mild(e)
    ensures BothHibernate(orig, Exec(d, es))
    decreases |es|
  {
    hide Hibernates, Do;
    if |es| == 0 {
    } else {
      DoHibernates(orig, d, es[0]);
      ExecHibernates(orig, Do(d, es[0]), es[1..]);
    }
  }

  lemma Act1Hibernates(orig: PerKind<int>, d: Disk, a: Act)
    requires BothHibernate(orig, d)
    ensures BothHibernate(orig, Act1(d, a))
  {
    hide Hibernates, Exec, AllNonzero;
    match a
    case Stop(ds) => ExecHibernates(orig, d, StopEffects(ds));
    case StopCutShort(ds, n) => ExecHibernates(orig, d, Begun(StopEffects(ds), n));
    case Start => ExecHibernates(orig, d, StartEffects());
    case StartCutShort(n) => ExecHibernates(orig, d, Begun(StartEffects(), n));
    case Crash =>
    case SaveNow =>
  }

  lemma {:induction false} ActAllHibernates(orig: PerKind<int>, d: Disk, acts: seq<Act>)
    requires BothHibernate(orig, d)
    ensures BothHibernate(orig, ActAll(d, acts))
  {
    hide BothHibernate, Act1;
    if |acts| == 0 {
    } else {
      ActAllHibernates(orig, d, acts[..|acts| - 1]);
      Act1Hibernates(orig, ActAll(d, acts[..|acts| - 1]), acts[|acts| - 1]);
    }
  }

  /** A stop that reached its first save has put the original counts away safely, if none was zero. */
  lemma FirstSave(d: Disk, ds: bool, n: nat)
    requires AllNonzero(d.cfg.max) && n >= 2
    ensures BothHibernate(d.cfg.max, Exec(d, Begun(StopEffects(ds), n)))
  {
    var es := Begun(StopEffects(ds), n);
    var rest := es[2..];
    assert es == [Remember, Save] + rest;
    ExecTwo(d, Remember, Save, rest);
    var d2 := Do(Do(d, Remember), Save);
    assert BothHibernate(d.cfg.max, d2);
    assert forall e | e in rest :: e in StopEffects(ds);
    hide Exec, Do, Hibernates;
    ExecHibernates(d.cfg.max, d2, rest);
  }

  /** A start that is let through restores the original counts, whichever of them are back already. */
  lemma StartRestores(orig: PerKind<int>, d: Disk)
    requires BothHibernate(orig, d)
    ensures Act1(d, Start).cfg.max == orig
  {
    if AllNonzero(d.cfg.max) {
      assert d.cfg.max.Of(Datastore) == orig.datastore && d.cfg.max.Of(Server) == orig.server
          && d.cfg.max.Of(Agent) == orig.agent;
    } else {
      ExecTwo(d, Save, WantAgain(Datastore), [Save, WantAgain(Server), Save, WantAgain(Agent)]);
      var d1 := Do(Do(d, Save), WantAgain(Datastore));
      ExecTwo(d1, Save, WantAgain(Server), [Save, WantAgain(Agent)]);
      var d2 := Do(Do(d1, Save), WantAgain(Server));
      ExecTwo(d2, Save, WantAgain(Agent), []);
      assert StartEffects() == [Save, WantAgain(Datastore)] + [Save, WantAgain(Server), Save, WantAgain(Agent)];
      assert [Save, WantAgain(Server), Save, WantAgain(Agent)] == [Save, WantAgain(Server)] + [Save, WantAgain(Agent)];
      assert [Save, WantAgain(Agent)] == [Save, WantAgain(Agent)] + [];
    }
  }

  /** No count is zero. */
  ghost predicate NoneZero(p: PerKind<int>) { forall k: Kind :: p.Of(k) != 0 }

  lemma NoneZeroIs(p: PerKind<int>)
    ensures AllNonzero(p) <==> NoneZero(p)
  {
    if NoneZero(p) {
      assert p.Of(Datastore) != 0 && p.Of(Server) != 0 && p.Of(Agent) != 0;
    }
  }

  /** Crash-safe hibernation.  If no wanted count is zero and clusterStop gets as far as its first save (or through),
      then whatever follows (crashes at any point of further stops and starts, saves by anyone), a cluster start
      ends with exactly the original wanted counts. */
  lemma CrashSafeHibernation(d: Disk, first: Act, acts: seq<Act>)
    requires NoneZero(d.cfg.max)
    requires first.Stop? || (first.StopCutShort? && first.effects >= 2)
    ensures Act1(ActAll(Act1(d, first), acts), Start).cfg.max == d.cfg.max
  {
    var orig := d.cfg.max;
    NoneZeroIs(orig);
    var n := if first.Stop? then |StopEffects(first.ds)| else first.effects;
    FirstSave(d, first.ds, n);
    assert Begun(StopEffects(first.ds), |StopEffects(first.ds)|) == StopEffects(first.ds);
    hide Exec, ActAll, Begun, Hibernates;
    var d1 := Act1(d, first);
    assert BothHibernate(orig, d1);
    ActAllHibernates(orig, d1, acts);
    StartRestores(orig, ActAll(d1, acts));
  }

  /** A stop that dies before its first save has done nothing that survives. */
  lemma CutBeforeSave(d: Disk, ds: bool, n: nat)
    requires n < 2
    ensures Act1(d, StopCutShort(ds, n)) == Reloaded(d)
  {
    var es := Begun(StopEffects(ds), n);
    assert es == if n == 0 then [] else [Remember];
    ExecOne(d, Remember);
  }

  /** Without a crash a stop and a start restore the wanted counts exactly when none of them was zero,
      or the counts to restore already were the wanted ones. */
  lemma StopThenStart(s: Sys, ds: bool)
    ensures StartRequested(Stopped(s, ds)).cfg.max == s.cfg.max
       <==> NoneZero(s.cfg.max) || s.cfg.restore == s.cfg.max
  {
    NoneZeroIs(s.cfg.max);
    hide ScaledTo;
    var s1 := SaveConfig(s.(cfg := Remembered(s.cfg)));
    var s2 := ScaledTo(s1, Agent, 0);
    var s3 := ScaledTo(s2, Server, 0);
    ScaledToDisk(s1, Agent, 0);
    ScaledToDisk(s2, Server, 0);
    ScaledToDisk(s3, Datastore, 0);
    var t := Stopped(s, ds);
    assert t.cfg.max.server == 0 && t.cfg.restore == Remembered(s.cfg).restore;
    var t1 := ScaledTo(t, Datastore, t.cfg.restore.datastore);
    var t2 := ScaledTo(t1, Server, t1.cfg.restore.server);
    ScaledToDisk(t, Datastore, t.cfg.restore.datastore);
    ScaledToDisk(t1, Server, t1.cfg.restore.server);
    ScaledToDisk(t2, Agent, t2.cfg.restore.agent);
    hide Stopped;
    assert StartRequested(t).cfg.max == t.cfg.restore;
  }

  // ---------- Whole runs ----------

  lemma SavedHibernates(orig: PerKind<int>, s: Sys, r: Sys)
    requires BothHibernate(orig, DiskOf(s)) && SavedFrom(s, r) && r.cfg.max == s.cfg.max
    ensures BothHibernate(orig, DiskOf(r))
  {
  }

  lemma SameHibernates(orig: PerKind<int>, s: Sys, r: Sys)
    requires BothHibernate(orig, DiskOf(s)) && r.cfg == s.cfg && (r.saved == s.saved || r.saved == s.cfg)
    ensures BothHibernate(orig, DiskOf(r))
  {
  }

  /** Every step but a scale request keeps the original counts safe, in memory and saved. */
  lemma StepHibernates(env: Settings, issued: set<string>, orig: PerKind<int>, s: Sys, e: Event)
    requires BothHibernate(orig, DiskOf(s)) && LifeCycle(issued, s) && !e.ScaleRequest?
    ensures BothHibernate(orig, DiskOf(Apply(env, s, e)))
  {
    hide BothHibernate, HeartbeatDone, CheckedFrom, UpdateHandled, Cleaned, SweptFrom, Stopped, Started, Exec,
      AllNonzero;
    var r := Apply(env, s, e);
    match e
    case Beating(b) =>
      HeartbeatSaved(env, s, b);
      HeartbeatBounded(env, s, b);
      SavedHibernates(orig, s, r);
    case Checking(now) =>
      CheckedFrame(env, s, 0, now);
      SameHibernates(orig, s, r);
    case Offered(offers, accepted) =>
      OffersFrame(env, s, offers, accepted);
      SameHibernates(orig, s, r);
    case Updated(u, a, n) =>
      LifeCycleNames(issued, s);
      UpdateMinor(s, u, a, n);
      KeptConfig(s, UpdateHandled(s, u, a, n));
      KeptHibernates(orig, s, r);
    case StopRequest(ds) =>
      StopIsEffects(s, ds);
      Act1Hibernates(orig, DiskOf(s), Stop(ds));
    case StartRequest =>
      StartIsEffects(s);
      Act1Hibernates(orig, DiskOf(s), Start);
    case Sweeping => SameHibernates(orig, s, r);
    case CleaningNodes => SameHibernates(orig, s, r);
    case NodeReported(_, _) => SameHibernates(orig, s, r);
    case ClusterChanged(nodes, up) => SameHibernates(orig, s, r);
    case Resubscribed => SameHibernates(orig, s, r);
    case Crashed => Act1Hibernates(orig, DiskOf(s), Crash);
  }

  lemma KeptHibernates(orig: PerKind<int>, s: Sys, r: Sys)
    requires BothHibernate(orig, DiskOf(s)) && r.saved == r.cfg
    requires r.cfg.max == s.cfg.max && r.cfg.restore == s.cfg.restore
    ensures BothHibernate(orig, DiskOf(r))
  {
  }

  /** A piece of a run: a whole event, or a stop or a start that dies after its first effects, leaving some state `mid`
      for the restart. */
  datatype Piece =
    | Whole(e: Event)
    | DiesStopping(ds: bool, effects: nat, mid: Sys)
    | DiesStarting(effects: nat, mid: Sys)

  /** A state that a request can have reached: its first effects are done, and otherwise it has only rewritten or
      dropped stored tasks, removed nodes and made calls. */
  ghost predicate PartOf(s: Sys, es: seq<Effect>, mid: Sys) {
    DiskOf(mid) == Exec(DiskOf(s), es) && MinorStep(s, mid)
  }

  /** Any event but a scale request, and deaths inside stops and starts; a start that is refused has no inside. */
  ghost predicate Possible(s: Sys, p: Piece) {
    match p
    case Whole(e) => !e.ScaleRequest?
    case DiesStopping(ds, n, mid) => PartOf(s, Begun(StopEffects(ds), n), mid)
    case DiesStarting(n, mid) => !AllNonzero(s.cfg.max) && PartOf(s, Begun(StartEffects(), n), mid)
  }

  ghost function After(env: Settings, s: Sys, p: Piece): Sys {
    if p.Whole? then Apply(env, s, p.e) else Restarted(p.mid)
  }

  ghost function Through(env: Settings, s: Sys, ps: seq<Piece>): Sys {
    if |ps| == 0 then s else After(env, Through(env, s, ps[..|ps| - 1]), ps[|ps| - 1])
  }

  function IssuedBy(p: Piece): set<string> { if p.Whole? then IdsOf(p.e) else {} }

  function IssuedThrough(issued: set<string>, ps: seq<Piece>): set<string> {
    if |ps| == 0 then issued else IssuedThrough(issued, ps[..|ps| - 1]) + IssuedBy(ps[|ps| - 1])
  }

  /** Every piece is possible where it comes, and brings fresh IDs. */
  ghost predicate PossibleRun(env: Settings, issued: set<string>, s: Sys, ps: seq<Piece>) {
    |ps| > 0 ==>
      var front, last := ps[..|ps| - 1], ps[|ps| - 1];
      && PossibleRun(env, issued, s, front) && Possible(Through(env, s, front), last)
      && (last.Whole? ==> FreshIds(IssuedThrough(issued, front), last.e))
  }

  lemma PieceSafe(env: Settings, issued: set<string>, s: Sys, p: Piece)
    requires Safe(env, false, issued, s) && Possible(s, p) && (p.Whole? ==> FreshIds(issued, p.e))
    ensures Safe(env, false, issued + IssuedBy(p), After(env, s, p))
  {
    hide Safe, Apply, MinorStep, FreshIds, Exec;
    if p.Whole? {
      StepSafe(env, false, issued, s, p.e);
    } else {
      assert issued + IssuedBy(p) == issued;
      MinorSafe(env, false, issued, s, p.mid);
      RestartedSafe(env, false, issued, p.mid);
    }
  }

  lemma PieceHibernates(env: Settings, issued: set<string>, orig: PerKind<int>, s: Sys, p: Piece)
    requires Safe(env, false, issued, s) && Possible(s, p) && BothHibernate(orig, DiskOf(s))
    ensures BothHibernate(orig, DiskOf(After(env, s, p)))
  {
    hide BothHibernate, Safe, MinorStep, Exec, Apply;
    match p
    case Whole(e) =>
      SafeLifeCycle(env, false, issued, s);
      StepHibernates(env, issued, orig, s, e);
    case DiesStopping(ds, n, mid) => Act1Hibernates(orig, DiskOf(s), StopCutShort(ds, n));
    case DiesStarting(n, mid) => Act1Hibernates(orig, DiskOf(s), StartCutShort(n));
  }

  lemma {:induction false} ThroughHibernates(env: Settings, issued: set<string>, orig: PerKind<int>, s: Sys,
      ps: seq<Piece>)
    requires Safe(env, false, issued, s) && PossibleRun(env, issued, s, ps) && BothHibernate(orig, DiskOf(s))
    ensures Safe(env, false, IssuedThrough(issued, ps), Through(env, s, ps))
    ensures BothHibernate(orig, DiskOf(Through(env, s, ps)))
  {
    hide BothHibernate, Safe, After, Possible, FreshIds;
    if |ps| == 0 {
    } else {
      var front, last := ps[..|ps| - 1], ps[|ps| - 1];
      ThroughHibernates(env, issued, orig, s, front);
      var t, now := Through(env, s, front), IssuedThrough(issued, front);
      PieceSafe(env, now, t, last);
      PieceHibernates(env, now, orig, t, last);
    }
  }

  /** Over whole runs: once a cluster with no wanted count at zero has been stopped, or a stop has at least reached its
      first save, then after any events but scale requests, with crashes between them or inside stops and starts,
      a start ends with exactly the original counts. */
  lemma HibernationOverRuns(env: Settings, issued: set<string>, s: Sys, first: Piece, ps: seq<Piece>)
    requires Safe(env, false, issued, s) && NoneZero(s.cfg.max)
    requires (first.Whole? && first.e.StopRequest?) || (first.DiesStopping? && first.effects >= 2)
    requires Possible(s, first) && PossibleRun(env, issued, After(env, s, first), ps)
    ensures StartRequested(Through(env, After(env, s, first), ps)).cfg.max == s.cfg.max
  {
    NoneZeroIs(s.cfg.max);
    hide Through, PossibleRun, Safe, Exec, Stopped, BothHibernate, Started, AllNonzero, NoneZero, MinorStep;
    var s1, ds := After(env, s, first), if first.Whole? then first.e.ds else first.ds;
    assert issued + IssuedBy(first) == issued;
    PieceSafe(env, issued, s, first);
    StopIsEffects(s, ds);
    FirstSave(DiskOf(s), ds, if first.Whole? then 9 else first.effects);
    WholeStop(ds);
    if !first.Whole? {
      assert DiskOf(s1) == Reloaded(DiskOf(first.mid));
      ReloadedHibernates(s.cfg.max, DiskOf(first.mid));
    }
    ThroughHibernates(env, issued, s.cfg.max, s1, ps);
    var r := Through(env, s1, ps);
    StartRestores(s.cfg.max, DiskOf(r));
    StartIsEffects(r);
  }

  lemma ReloadedHibernates(orig: PerKind<int>, d: Disk)
    requires BothHibernate(orig, d)
    ensures BothHibernate(orig, Reloaded(d))
  {
  }

  lemma WholeStop(ds: bool)
    ensures Begun(StopEffects(ds), 9) == StopEffects(ds)
  {
  }

  /** A stop does pass through such states: those between its scalings. */
  lemma StopPassesThrough(s: Sys, ds: bool)
    ensures var s1 := SaveConfig(s.(cfg := Remembered(s.cfg)));
            var s2 := ScaledTo(s1, Agent, 0);
            && PartOf(s, Begun(StopEffects(ds), 2), s1)
            && PartOf(s, Begun(StopEffects(ds), 4), s2)
            && PartOf(s, Begun(StopEffects(ds), 6), ScaledTo(s2, Server, 0))
  {
    hide ScaledTo, Exec, MinorStep;
    var s0 := s.(cfg := Remembered(s.cfg));
    var s1 := SaveConfig(s0);
    var s2 := ScaledTo(s1, Agent, 0);
    CountsMinor(s, s0);
    SameStore(s0, s1);
    MinorTrans(s, s0, s1);
    ScaledToMinor(s1, Agent, 0);
    MinorTrans(s, s1, s2);
    ScaledToMinor(s2, Server, 0);
    MinorTrans(s, s2, ScaledTo(s2, Server, 0));
    ScaledToDisk(s1, Agent, 0);
    ScaledToDisk(s2, Server, 0);
    var two, four, six := [Remember, Save], [Remember, Save, Save, Want(Agent, 0)],
      [Remember, Save, Save, Want(Agent, 0), Save, Want(Server, 0)];
    assert Begun(StopEffects(ds), 2) == two && Begun(StopEffects(ds), 4) == four && Begun(StopEffects(ds), 6) == six;
    ExecNone(DiskOf(s1));
    ExecNone(DiskOf(s2));
    ExecNone(DiskOf(ScaledTo(s2, Server, 0)));
    ExecTwo(DiskOf(s), Remember, Save, []);
    ExecTwo(DiskOf(s), Remember, Save, [Save, Want(Agent, 0)]);
    ExecTwo(DiskOf(s), Remember, Save, [Save, Want(Agent, 0), Save, Want(Server, 0)]);
    ExecTwo(DiskOf(s1), Save, Want(Agent, 0), []);
    ExecTwo(DiskOf(s1), Save, Want(Agent, 0), [Save, Want(Server, 0)]);
    ExecTwo(DiskOf(s2), Save, Want(Server, 0), []);
    assert two == two + [] && four == two + [Save, Want(Agent, 0)];
    assert [Save, Want(Agent, 0)] == [Save, Want(Agent, 0)] + [];
    assert six == two + [Save, Want(Agent, 0), Save, Want(Server, 0)];
    assert [Save, Want(Agent, 0), Save, Want(Server, 0)] == [Save, Want(Agent, 0)] + [Save, Want(Server, 0)];
    assert [Save, Want(Server, 0)] == [Save, Want(Server, 0)] + [];
  }
}
