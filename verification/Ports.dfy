/** Host ports: the first-fit search for a free block and the two rewrites that hand the block to a task. */
module Ports {
  import opened Types

  predicate InUse(ts: seq<Command>, port: nat) {
    exists i :: 0 <= i < |ts| && port in ts[i].discovery
  }

  /** The x-th port of the block that starts at `port`, in 32-bit arithmetic. */
  function PortAt(port: nat, x: nat): nat { U32(port + x) }

  predicate BlockFree(ts: seq<Command>, port: nat, num: nat) {
    forall x: nat | x < num :: !InUse(ts, PortAt(port, x))
  }

  /** The first free block of `num` ports starting at `i` or later but before `hi`, or 0. */
  function SearchFrom(ts: seq<Command>, i: int, hi: int, num: nat): nat
    decreases hi - i
  {
    if i >= hi then 0
    else if BlockFree(ts, U32(i), num) then U32(i)
    else SearchFrom(ts, i + 1, hi, num)
  }

  function HostPort(env: Settings, ts: seq<Command>, num: nat): nat {
    SearchFrom(ts, env.portFrom + 1, env.portTo, num)
  }

  /** Give every mapping without a host port its port of the block. */
  function Assigned(mappings: seq<nat>, hostPort: nat): seq<nat> {
    seq(|mappings|, n requires 0 <= n < |mappings| => if mappings[n] == 0 then PortAt(hostPort, n) else mappings[n])
  }

  /** Copy the host ports into the discovery record.  The source fails when the record is the shorter one. */
  function Synced(mappings: seq<nat>, discovery: seq<nat>): seq<nat> {
    if |mappings| <= |discovery| then mappings + discovery[|mappings|..] else mappings
  }

  /** The task CheckState makes of a fresh one. */
  function Promoted(env: Settings, ts: seq<Command>, t: Command, now: int): Command {
    var ports := Assigned(t.mappings, HostPort(env, ts, |t.discovery|));
    t.(state := New, since := Some(now), mappings := ports, discovery := Synced(ports, t.discovery))
  }

  /** The port range is one of proper port numbers, blocks that start in it included. */
  ghost predicate RangeSane(env: Settings) {
    0 <= env.portFrom && env.portTo + 2 < TWO_TO_THE_32
  }

  /** What the search finds: a block start strictly inside the range, free, and the first such;
      and 0 exactly when no block that starts inside the range is free. */
  lemma {:induction false} SearchFinds(ts: seq<Command>, i: int, hi: int, num: nat)
    requires 0 < i && hi < TWO_TO_THE_32
    ensures var p := SearchFrom(ts, i, hi, num);
            if p == 0 then forall j: nat | i <= j < hi :: !BlockFree(ts, j, num)
            else i <= p < hi && BlockFree(ts, p, num) && forall j: nat | i <= j < p :: !BlockFree(ts, j, num)
    decreases hi - i
  {
    if i < hi && !BlockFree(ts, U32(i), num) {
      SearchFinds(ts, i + 1, hi, num);
    }
  }

  /** No discovery record lists the port, which is a number in 32-bit arithmetic. */
  ghost predicate Unlisted(ts: seq<Command>, port: nat) {
    forall i | 0 <= i < |ts| :: port % 0x1_0000_0000 !in ts[i].discovery
  }

  /** A block is free when no record lists any of its ports. */
  lemma BlockMeans(ts: seq<Command>, port: nat, num: nat)
    ensures BlockFree(ts, port, num) <==> forall q: nat | port <= q < port + num :: Unlisted(ts, q)
  {
    forall x: nat ensures InUse(ts, PortAt(port, x)) <==> !Unlisted(ts, port + x) {
    }
    if BlockFree(ts, port, num) {
      forall q: nat | port <= q < port + num ensures Unlisted(ts, q) {
        assert !InUse(ts, PortAt(port, q - port));
      }
    }
  }

  /** The mappings whose port was left to the framework: all but the API server port of a server. */
  function Dynamic(name: Option<Kind>, ports: seq<nat>): seq<nat> {
    if name == Some(Server) && |ports| > 0 then ports[1..] else ports
  }

  /** The configured API server port is a port, and outside every block the search may hand out
      (at most three ports, so at most one past the end of the range). */
  ghost predicate FixedPortOutside(env: Settings, p: int) {
    U32(p) != 0 && !(env.portFrom < U32(p) <= env.portTo + 1)
  }

  /** The port lists of a task nobody has scheduled yet. */
  ghost predicate Unassigned(env: Settings, t: Command) {
    && t.mappings == t.discovery
    && 1 <= |t.mappings| <= 3
    && (t.name == Some(Server) ==> FixedPortOutside(env, t.mappings[0]) && U32(t.mappings[0]) == t.mappings[0])
    && forall i | 0 <= i < |Dynamic(t.name, t.mappings)| :: Dynamic(t.name, t.mappings)[i] == 0
  }

  /** The port lists of a scheduled task: discovery agrees with the mappings, and the dynamic ports are distinct
      ports between the start of the range and the end of the last block that can start in it. */
  ghost predicate WellAssigned(env: Settings, t: Command) {
    && t.mappings == t.discovery
    && 1 <= |t.mappings| <= 3
    && (t.name == Some(Server) ==> FixedPortOutside(env, t.mappings[0]) && U32(t.mappings[0]) == t.mappings[0])
    && var d := Dynamic(t.name, t.mappings);
       && (forall i | 0 <= i < |d| :: env.portFrom + 1 <= d[i] <= env.portTo + |t.mappings| - 2)
       && forall i, j | 0 <= i < j < |d| :: d[i] != d[j]
  }

  ghost predicate Disjoint(a: seq<nat>, b: seq<nat>) {
    forall i, j | 0 <= i < |a| && 0 <= j < |b| :: a[i] != b[j]
  }

  lemma BlockPort(ts: seq<Command>, p: nat, num: nat, n: nat)
    requires BlockFree(ts, p, num) && n < num && p + num <= TWO_TO_THE_32
    ensures PortAt(p, n) == p + n && !InUse(ts, p + n)
  {
  }

  /** The i-th dynamic port of a task promoted by a successful search. */
  lemma DynamicPort(env: Settings, ts: seq<Command>, t: Command, now: int, i: nat)
    requires RangeSane(env) && Unassigned(env, t) && HostPort(env, ts, |t.discovery|) != 0
    requires i < |Dynamic(t.name, t.mappings)|
    ensures var p := HostPort(env, ts, |t.discovery|);
            var off := if t.name == Some(Server) then 1 else 0;
            && env.portFrom < p < env.portTo
            && Dynamic(t.name, Promoted(env, ts, t, now).mappings)[i] == p + off + i
            && !InUse(ts, p + off + i)
  {
    var num := |t.discovery|;
    SearchFinds(ts, env.portFrom + 1, env.portTo, num);
    var off := if t.name == Some(Server) then 1 else 0;
    BlockPort(ts, HostPort(env, ts, num), num, off + i);
    assert Dynamic(t.name, t.mappings)[i] == t.mappings[off + i] == 0;
  }

  /** A successful search makes an unassigned task well assigned, and its dynamic ports are in no record. */
  lemma PromotionAssigns(env: Settings, ts: seq<Command>, t: Command, now: int)
    requires RangeSane(env) && Unassigned(env, t) && HostPort(env, ts, |t.discovery|) != 0
    ensures WellAssigned(env, Promoted(env, ts, t, now))
    ensures var d := Dynamic(t.name, Promoted(env, ts, t, now).mappings);
            forall i | 0 <= i < |d| :: !InUse(ts, d[i])
  {
    forall i | 0 <= i < |Dynamic(t.name, t.mappings)| {
      DynamicPort(env, ts, t, now, i);
    }
  }

  // ---------- When the search cannot fail ----------

  function PortsOf(ts: seq<Command>): set<nat> {
    set i, j | 0 <= i < |ts| && 0 <= j < |ts[i].discovery| :: ts[i].discovery[j]
  }

  ghost function Interval(lo: nat, hi: nat): (r: set<nat>)
    ensures forall s :: s in r <==> lo <= s < hi
    ensures |r| == if lo <= hi then hi - lo else 0
  {
    if lo >= hi then {} else Interval(lo, hi - 1) + {hi - 1}
  }

  /** A block of `num` ports starting at `s` contains a used one. */
  ghost predicate Spoils(used: set<nat>, s: nat, num: nat) {
    exists p :: p in used && s <= p < s + num
  }

  ghost function Spoiled(used: set<nat>, lo: nat, hi: nat, num: nat): set<nat> {
    set s | s in Interval(lo, hi) && Spoils(used, s, num)
  }

  /** One used port spoils at most `num` block starts. */
  lemma SpoiledByOne(rest: set<nat>, p: nat, lo: nat, hi: nat, num: nat)
    ensures |Spoiled(rest + {p}, lo, hi, num)| <= |Spoiled(rest, lo, hi, num)| + num
  {
    var near := Interval(if p < num then 0 else p - num + 1, p + 1);
    forall s | s in Spoiled(rest + {p}, lo, hi, num)
      ensures s in Spoiled(rest, lo, hi, num) + near
    {
      var q :| q in rest + {p} && s <= q < s + num;
      if q != p {
        assert Spoils(rest, s, num);
      }
    }
    UnionSize(Spoiled(rest + {p}, lo, hi, num), Spoiled(rest, lo, hi, num), near);
  }

  lemma OneMore(num: nat, n: nat)
    ensures num * (n + 1) == num * n + num
  {
  }

  lemma {:induction false} SpoiledSize(used: set<nat>, lo: nat, hi: nat, num: nat)
    ensures |Spoiled(used, lo, hi, num)| <= num * |used|
    decreases |used|
  {
    if used == {} {
      assert Spoiled(used, lo, hi, num) == {};
    } else {
      var p :| p in used;
      var rest := used - {p};
      assert used == rest + {p};
      SpoiledSize(rest, lo, hi, num);
      SpoiledByOne(rest, p, lo, hi, num);
      OneMore(num, |rest|);
      assert |used| == |rest| + 1;
    }
  }

  lemma UnionSize(a: set<nat>, b: set<nat>, c: set<nat>)
    requires a <= b + c
    ensures |a| <= |b| + |c|
  {
    SubsetSize(a, b + c);
    assert b + c == b + (c - b);
    assert |b + (c - b)| == |b| + |c - b|;
    SubsetSize(c - b, c);
  }

  lemma SubsetSize(a: set<nat>, b: set<nat>)
    requires a <= b
    ensures |a| <= |b|
  {
    assert b == a + (b - a);
    assert |a + (b - a)| == |a| + |b - a|;
  }

  lemma AllSpoiled(env: Settings, ts: seq<Command>, num: nat)
    requires RangeSane(env) && env.portFrom < env.portTo && num <= 3 && HostPort(env, ts, num) == 0
    ensures Interval(env.portFrom + 1, env.portTo) <= Spoiled(PortsOf(ts), env.portFrom + 1, env.portTo, num)
  {
    var lo, hi := env.portFrom + 1, env.portTo;
    SearchFinds(ts, lo, hi, num);
    hide SearchFrom, BlockFree, PortsOf, Spoils;
    forall s | s in Interval(lo, hi) ensures Spoils(PortsOf(ts), s, num) {
      StartSpoiled(ts, s, num);
    }
  }

  lemma StartSpoiled(ts: seq<Command>, s: nat, num: nat)
    requires !BlockFree(ts, s, num) && s + num <= TWO_TO_THE_32
    ensures Spoils(PortsOf(ts), s, num)
  {
    var x: nat :| x < num && InUse(ts, PortAt(s, x));
    assert PortAt(s, x) == s + x;
    assert s + x in PortsOf(ts);
  }

  /** With fewer ports on record than a `num`-th of the range, the search for `num` ports always succeeds. */
  lemma SearchSucceeds(env: Settings, ts: seq<Command>, num: nat)
    requires RangeSane(env) && num <= 3
    requires num * |PortsOf(ts)| < env.portTo - env.portFrom - 1
    ensures HostPort(env, ts, num) != 0
  {
    var lo, hi := env.portFrom + 1, env.portTo;
    SpoiledSize(PortsOf(ts), lo, hi, num);
    if HostPort(env, ts, num) == 0 {
      AllSpoiled(env, ts, num);
      SubsetSize(Interval(lo, hi), Spoiled(PortsOf(ts), lo, hi, num));
      assert false;
    }
  }

  /** Why the condition is needed: when the range is exhausted the search answers 0, which is then used as a block
      start, so any two agents promoted that way, with or without a TCP port of their own, are both given ports 0 and 1
      and on. */
  lemma ExhaustedPortsCollide(env: Settings, ts: seq<Command>, t: Command, us: seq<Command>, u: Command, now: int)
    requires t.name == u.name == Some(Agent) && Unassigned(env, t) && Unassigned(env, u)
    requires |t.mappings| >= 2 && |u.mappings| >= 2
    requires HostPort(env, ts, |t.discovery|) == 0 && HostPort(env, us, |u.discovery|) == 0
    ensures forall i | 0 <= i < |t.mappings| :: Promoted(env, ts, t, now).mappings[i] == i
    ensures forall i | 0 <= i < |u.mappings| :: Promoted(env, us, u, now).mappings[i] == i
    ensures !Disjoint(Promoted(env, ts, t, now).mappings, Promoted(env, us, u, now).mappings)
  {
    assert forall i | 0 <= i < |t.mappings| :: Dynamic(t.name, t.mappings)[i] == t.mappings[i];
    assert forall i | 0 <= i < |u.mappings| :: Dynamic(u.name, u.mappings)[i] == u.mappings[i];
    assert Promoted(env, ts, t, now).mappings[1] == Promoted(env, us, u, now).mappings[1] == 1;
  }
}
