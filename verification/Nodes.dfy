/** The Kubernetes side: looking tasks and nodes up by each other, and removing unready nodes. */
module Nodes {
  import opened Types
  import opened Store

  predicate Unready(n: Node) { n.ready.ReadyFalse? || n.ready.ReadyUnknown? }

  function UnreadyOf(ns: seq<Node>): seq<Node> {
    if |ns| == 0 then [] else if Unready(ns[0]) then [ns[0]] + UnreadyOf(ns[1..]) else UnreadyOf(ns[1..])
  }

  function ReadyOf(ns: seq<Node>): seq<Node> {
    if |ns| == 0 then [] else if Unready(ns[0]) then ReadyOf(ns[1..]) else [ns[0]] + ReadyOf(ns[1..])
  }

  ghost predicate DistinctNames(ns: seq<Node>) {
    forall i, j | 0 <= i < j < |ns| :: ns[i].name != ns[j].name
  }

  /** The nodes whose name is not among `names`. */
  function Without(ns: seq<Node>, names: set<string>): seq<Node> {
    if |ns| == 0 then []
    else if ns[0].name in names then Without(ns[1..], names)
    else [ns[0]] + Without(ns[1..], names)
  }

  function Names(ns: seq<Node>): set<string> { set n | n in ns :: n.name }

  /** The task ID a node carries: its label, or else its annotation. */
  function TaskIdOf(n: Node): string { if n.labelId != "" then n.labelId else n.annotationId }

  /** The stored task of a kind that a node belongs to, by one direct lookup. */
  function TaskOfNode(ts: seq<Command>, n: Node, k: Kind): Command {
    if TaskIdOf(n) == "" then EMPTY else Get(ts, Some(k), TaskIdOf(n))
  }

  /** The task whose node is removed: an agent, or else a server, or else none. */
  function OwnerOf(ts: seq<Command>, n: Node): Command {
    var t := TaskOfNode(ts, n, Agent);
    if t.id != "" then t else TaskOfNode(ts, n, Server)
  }

  /** The first cached node that carries a task ID. */
  function NodeOf(cache: seq<Node>, id: string): Node {
    if |cache| == 0 then NO_NODE else if TaskIdOf(cache[0]) == id then cache[0] else NodeOf(cache[1..], id)
  }

  function KillFor(ts: seq<Command>, n: Node): Call {
    var t := OwnerOf(ts, n);
    Kill(NodeCleanup, t.id, t.agent)
  }

  function KillsFor(ts: seq<Command>, ns: seq<Node>): seq<Call> {
    seq(|ns|, i requires 0 <= i < |ns| => KillFor(ts, ns[i]))
  }

  /** The order in which cleanup kills for unready nodes `us`: deleting the first node runs a whole
      cleanup of the others, and then every node is dealt with once more. */
  function KillOrder(us: seq<Node>): seq<Node> {
    if |us| == 0 then [] else KillOrder(us[1..]) + us
  }

  /** What CleanupNodes leaves behind. */
  function Cleaned(s: Sys): (r: Sys)
    ensures OnlyNodes(s, r)
  {
    if !s.kubeUp then s
    else
      var us := UnreadyOf(s.cluster);
      s.(cluster := ReadyOf(s.cluster),
         cache := Without(s.cache, Names(us)),
         log := s.log + KillsFor(s.tasks, KillOrder(us)))
  }

  /** What DeleteNode leaves behind: the node is gone, and cleanup has run. */
  function NodeDeleted(s: Sys, name: string): (r: Sys)
    ensures OnlyNodes(s, r)
  {
    if !s.kubeUp then s else Cleaned(s.(cluster := Without(s.cluster, {name})))
  }

  // ---------- Facts about node lists ----------

  lemma {:induction false} WithoutIn(ns: seq<Node>, names: set<string>)
    ensures forall n :: n in Without(ns, names) <==> n in ns && n.name !in names
    ensures DistinctNames(ns) ==> DistinctNames(Without(ns, names))
  {
    if |ns| == 0 {
    } else {
      WithoutIn(ns[1..], names);
      assert ns == [ns[0]] + ns[1..];
    }
  }

  lemma {:induction false} WithoutNothing(ns: seq<Node>, names: set<string>)
    requires forall n | n in ns :: n.name !in names
    ensures Without(ns, names) == ns
  {
    if |ns| == 0 {
    } else {
      WithoutNothing(ns[1..], names);
      assert ns == [ns[0]] + ns[1..];
    }
  }

  lemma {:induction false} WithoutTwice(ns: seq<Node>, a: set<string>, b: set<string>)
    ensures Without(Without(ns, a), b) == Without(ns, a + b)
  {
    if |ns| == 0 {
    } else {
      WithoutTwice(ns[1..], a, b);
      var rest := Without(ns[1..], a);
      var w := Without(ns, a);
      if ns[0].name in a {
        assert w == rest;
      } else {
        assert w[0] == ns[0] && w[1..] == rest;
        assert Without(w, b) == if ns[0].name in b then Without(rest, b) else [ns[0]] + Without(rest, b);
      }
    }
  }

  lemma {:induction false} ReadyAndUnready(ns: seq<Node>)
    ensures forall n :: n in ReadyOf(ns) <==> n in ns && !Unready(n)
    ensures forall n :: n in UnreadyOf(ns) <==> n in ns && Unready(n)
    ensures |ReadyOf(ns)| + |UnreadyOf(ns)| == |ns|
    ensures DistinctNames(ns) ==> DistinctNames(ReadyOf(ns)) && DistinctNames(UnreadyOf(ns))
  {
    if |ns| == 0 {
    } else {
      ReadyAndUnready(ns[1..]);
      assert ns == [ns[0]] + ns[1..];
      DistinctCons(ns, ReadyOf(ns[1..]));
      DistinctCons(ns, UnreadyOf(ns[1..]));
    }
  }

  lemma DistinctCons(ns: seq<Node>, part: seq<Node>)
    requires |ns| > 0 && forall n | n in part :: n in ns[1..]
    ensures DistinctNames(ns) && DistinctNames(part) ==> DistinctNames([ns[0]] + part)
  {
    assert forall i | 0 <= i < |part| :: part[i] in ns[1..];
  }

  lemma {:induction false} AllReady(ns: seq<Node>)
    ensures UnreadyOf(ReadyOf(ns)) == [] && ReadyOf(ReadyOf(ns)) == ReadyOf(ns)
  {
    if |ns| == 0 {
    } else {
      AllReady(ns[1..]);
    }
  }

  lemma {:induction false} NoneUnready(ns: seq<Node>)
    requires UnreadyOf(ns) == []
    ensures ReadyOf(ns) == ns
  {
    if |ns| == 0 {
    } else {
      NoneUnready(ns[1..]);
    }
  }

  /** Deleting the first unready node leaves the other unready ones and every ready one. */
  lemma {:induction false} DropFirstUnready(ns: seq<Node>)
    requires DistinctNames(ns) && |UnreadyOf(ns)| > 0
    ensures var rest := Without(ns, {UnreadyOf(ns)[0].name});
            UnreadyOf(rest) == UnreadyOf(ns)[1..] && ReadyOf(rest) == ReadyOf(ns)
  {
    ReadyAndUnready(ns);
    var u := UnreadyOf(ns)[0];
    if Unready(ns[0]) {
      WithoutNothing(ns[1..], {u.name});
      assert Without(ns, {u.name}) == ns[1..];
    } else {
      assert u in UnreadyOf(ns[1..]);
      ReadyAndUnready(ns[1..]);
      assert u in ns[1..];
      DropFirstUnready(ns[1..]);
    }
  }

  lemma KillsForSplit(ts: seq<Command>, a: seq<Node>, b: seq<Node>)
    ensures KillsFor(ts, a + b) == KillsFor(ts, a) + KillsFor(ts, b)
  {
  }

  // ---------- What cleanup does ----------

  lemma {:induction false} KillOrderLength(us: seq<Node>)
    ensures |KillOrder(us)| == |us| * (|us| + 1) / 2
  {
    if |us| == 0 {
    } else {
      KillOrderLength(us[1..]);
    }
  }

  /** The i-th unready node (counting from one) is killed for exactly i times. */
  lemma {:induction false} KillOrderTimes(us: seq<Node>, i: nat)
    requires DistinctNames(us) && i < |us|
    ensures multiset(KillOrder(us))[us[i]] == i + 1
  {
    assert us == [us[0]] + us[1..];
    OnceEach(us, i);
    assert multiset(KillOrder(us)) == multiset(KillOrder(us[1..])) + multiset(us);
    hide KillOrder;
    if i == 0 {
      assert us[0] !in us[1..];
      KillOrderIn(us[1..]);
    } else {
      KillOrderTimes(us[1..], i - 1);
    }
  }

  lemma {:induction false} KillOrderIn(us: seq<Node>)
    ensures forall n | n in KillOrder(us) :: n in us
  {
    if |us| == 0 {
    } else {
      KillOrderIn(us[1..]);
    }
  }

  lemma {:induction false} OnceEach(us: seq<Node>, i: nat)
    requires DistinctNames(us) && i < |us|
    ensures multiset(us)[us[i]] == 1
  {
    assert us == us[..i] + [us[i]] + us[i + 1..];
    assert us[i] !in us[..i] && us[i] !in us[i + 1..];
  }

  /** With u unready nodes cleanup sends exactly u(u+1)/2 kills, and afterwards no unready node is left in the
      cluster or has its key in Redis, while every ready node and every other key is still there. */
  lemma CleanupEffect(s: Sys)
    requires s.kubeUp && DistinctNames(s.cluster)
    ensures var u := UnreadyAmong(s.cluster, |s.cluster|);
            |Cleaned(s).log| == |s.log| + u * (u + 1) / 2
    ensures forall c | c in Cleaned(s).log[|s.log|..] :: c.Kill?
    ensures forall n :: n in Cleaned(s).cluster <==> n in s.cluster && n.ready !in {ReadyFalse, ReadyUnknown}
    ensures forall n :: n in Cleaned(s).cache
              <==> n in s.cache
                   && forall m | m in s.cluster && m.ready in {ReadyFalse, ReadyUnknown} :: m.name != n.name
    ensures Cleaned(s).tasks == s.tasks
  {
    var us := UnreadyOf(s.cluster);
    ReadyAndUnready(s.cluster);
    UnreadyLength(s.cluster);
    KillOrderLength(us);
    WithoutIn(s.cache, Names(us));
    assert Cleaned(s).log[|s.log|..] == KillsFor(s.tasks, KillOrder(us));
  }

  // ---------- Whom cleanup kills ----------

  /** The node carries the task ID: in its label, or else in its annotation. */
  ghost predicate Carries(n: Node, id: string) {
    if n.labelId != "" then n.labelId == id else n.annotationId == id
  }

  /** The first cached node that carries the task ID. */
  ghost predicate FirstCarrying(cache: seq<Node>, id: string, p: nat) {
    p < |cache| && Carries(cache[p], id) && forall j | 0 <= j < p :: !Carries(cache[j], id)
  }

  /** The first stored task of a kind whose ID the node carries. */
  ghost predicate OwnedBy(ts: seq<Command>, n: Node, k: Kind, p: nat) {
    && p < |ts| && ts[p].name == Some(k) && ts[p].id != "" && Carries(n, ts[p].id)
    && forall j | 0 <= j < p && ts[j].name == Some(k) :: !Carries(n, ts[j].id)
  }

  ghost predicate Owned(ts: seq<Command>, n: Node, k: Kind) { exists p: nat :: OwnedBy(ts, n, k, p) }

  /** The call kills the agent the node belongs to, or else the server, or else names no task at all. */
  ghost predicate KillsOwner(ts: seq<Command>, n: Node, c: Call) {
    if Owned(ts, n, Agent) then
      exists p: nat :: OwnedBy(ts, n, Agent, p) && c == Kill(NodeCleanup, ts[p].id, ts[p].agent)
    else if Owned(ts, n, Server) then
      exists p: nat :: OwnedBy(ts, n, Server, p) && c == Kill(NodeCleanup, ts[p].id, ts[p].agent)
    else c == Kill(NodeCleanup, "", "")
  }

  /** How many of the first `i` nodes are unready. */
  function UnreadyAmong(ns: seq<Node>, i: nat): nat
    requires i <= |ns|
  {
    if i == 0 then 0
    else UnreadyAmong(ns, i - 1) + if ns[i - 1].ready in {ReadyFalse, ReadyUnknown} then 1 else 0
  }

  /** The lookup by which a node finds its task. */
  lemma TaskOfNodeMeans(ts: seq<Command>, n: Node, k: Kind)
    ensures Owned(ts, n, k) ==> exists p: nat :: OwnedBy(ts, n, k, p) && TaskOfNode(ts, n, k) == ts[p]
    ensures !Owned(ts, n, k) ==> TaskOfNode(ts, n, k) == EMPTY
  {
    var p := IndexOfKey(ts, Some(k), TaskIdOf(n));
    if TaskIdOf(n) != "" && p < |ts| {
      assert OwnedBy(ts, n, k, p);
    }
  }

  /** The lookup by which a task finds its node: the first cached one that carries its ID, if there is one. */
  lemma NodeOfFirst(cache: seq<Node>, id: string)
    ensures forall p: nat :: FirstCarrying(cache, id, p) ==> NodeOf(cache, id) == cache[p]
    ensures (forall p: nat :: !FirstCarrying(cache, id, p)) ==> NodeOf(cache, id) == NO_NODE
  {
    var p := PlaceOf(cache, id);
    assert p < |cache| ==> FirstCarrying(cache, id, p);
  }

  lemma {:induction false} PlaceOf(cache: seq<Node>, id: string) returns (p: nat)
    ensures p <= |cache| && forall j | 0 <= j < p :: !Carries(cache[j], id)
    ensures if p < |cache| then Carries(cache[p], id) && NodeOf(cache, id) == cache[p] else NodeOf(cache, id) == NO_NODE
  {
    if |cache| == 0 || Carries(cache[0], id) {
      p := 0;
    } else {
      var q := PlaceOf(cache[1..], id);
      p := q + 1;
      assert forall j | 1 <= j < p :: cache[j] == cache[1..][j - 1];
    }
  }

  lemma KillForOwner(ts: seq<Command>, n: Node)
    ensures KillsOwner(ts, n, KillFor(ts, n))
  {
    TaskOfNodeMeans(ts, n, Agent);
    TaskOfNodeMeans(ts, n, Server);
    hide TaskOfNode, OwnedBy;
    assert Owned(ts, n, Agent) ==> TaskOfNode(ts, n, Agent).id != "" by { OwnerNamed(ts, n, Agent); }
  }

  lemma OwnerNamed(ts: seq<Command>, n: Node, k: Kind)
    ensures forall p: nat | OwnedBy(ts, n, k, p) :: p < |ts| && ts[p].id != ""
  {
  }

  lemma {:induction false} UnreadyAmongTail(ns: seq<Node>, i: nat)
    requires 0 < i <= |ns|
    ensures UnreadyAmong(ns, i) == UnreadyAmong(ns[1..], i - 1) + UnreadyAmong(ns, 1)
  {
    if i > 1 {
      UnreadyAmongTail(ns, i - 1);
    }
  }

  lemma {:induction false} UnreadyLength(ns: seq<Node>)
    ensures |UnreadyOf(ns)| == UnreadyAmong(ns, |ns|)
  {
    if |ns| == 0 {
    } else {
      UnreadyLength(ns[1..]);
      UnreadyAmongTail(ns, |ns|);
      assert UnreadyAmong(ns, 1) == UnreadyAmong(ns, 0) + if Unready(ns[0]) then 1 else 0;
    }
  }

  /** Where an unready node of a listing stands among the unready ones. */
  lemma {:induction false} UnreadyRank(ns: seq<Node>, i: nat)
    requires i < |ns| && ns[i].ready in {ReadyFalse, ReadyUnknown}
    ensures 0 < UnreadyAmong(ns, i + 1) <= |UnreadyOf(ns)| && UnreadyOf(ns)[UnreadyAmong(ns, i + 1) - 1] == ns[i]
  {
    if i > 0 {
      UnreadyRank(ns[1..], i - 1);
      UnreadyAmongTail(ns, i + 1);
    }
    assert UnreadyAmong(ns, 1) == UnreadyAmong(ns, 0) + if Unready(ns[0]) then 1 else 0;
  }

  /** Whom cleanup kills.  Its calls are one kill for each of a list of nodes, of the task that node belongs to; in that
      list only unready nodes occur, and the i-th unready node of the listing (counting from one) exactly i times. */
  lemma CleanupKills(s: Sys) returns (whose: seq<Node>)
    requires s.kubeUp && DistinctNames(s.cluster)
    ensures |Cleaned(s).log| == |s.log| + |whose| && Cleaned(s).log[..|s.log|] == s.log
    ensures forall m | 0 <= m < |whose| ::
              && whose[m] in s.cluster && whose[m].ready in {ReadyFalse, ReadyUnknown}
              && KillsOwner(s.tasks, whose[m], Cleaned(s).log[|s.log| + m])
    ensures forall i | 0 <= i < |s.cluster| && s.cluster[i].ready in {ReadyFalse, ReadyUnknown} ::
              multiset(whose)[s.cluster[i]] == UnreadyAmong(s.cluster, i + 1)
  {
    var us := UnreadyOf(s.cluster);
    whose := KillOrder(us);
    ReadyAndUnready(s.cluster);
    KillOrderIn(us);
    hide KillsOwner, UnreadyOf, ReadyOf, KillOrder, UnreadyAmong, KillFor, Without;
    forall m | 0 <= m < |whose|
      ensures whose[m] in us && KillsOwner(s.tasks, whose[m], Cleaned(s).log[|s.log| + m])
    {
      assert whose[m] in whose;
      KillForOwner(s.tasks, whose[m]);
    }
    forall i | 0 <= i < |s.cluster| && s.cluster[i].ready in {ReadyFalse, ReadyUnknown}
      ensures multiset(whose)[s.cluster[i]] == UnreadyAmong(s.cluster, i + 1)
    {
      UnreadyRank(s.cluster, i);
      KillOrderTimes(us, UnreadyAmong(s.cluster, i + 1) - 1);
    }
  }

  /** Deleting one node: it is gone from the cluster, and so is every unready node, which also loses its key; every
      other node and every other key stays. */
  lemma DeletedEffect(s: Sys, name: string)
    requires DistinctNames(s.cluster)
    ensures var r := NodeDeleted(s, name);
            if !s.kubeUp then r == s
            else
              && r == s.(cluster := r.cluster, cache := r.cache, log := r.log)
              && (forall n :: n in r.cluster
                   <==> n in s.cluster && n.name != name && n.ready !in {ReadyFalse, ReadyUnknown})
              && forall n :: n in r.cache
                   <==> n in s.cache && forall m | m in s.cluster && m.ready in {ReadyFalse, ReadyUnknown} ::
                          m.name == name || m.name != n.name
  {
    if s.kubeUp {
      var s1 := s.(cluster := Without(s.cluster, {name}));
      WithoutIn(s.cluster, {name});
      CleanupEffect(s1);
      hide Cleaned, UnreadyAmong;
    }
  }

  /** The kills of a deletion are for unready nodes other than the deleted one. */
  lemma DeletedKills(s: Sys, name: string)
    requires DistinctNames(s.cluster)
    ensures var r := NodeDeleted(s, name);
            && s.log <= r.log
            && forall c | c in r.log[|s.log|..] :: exists n ::
                 n in s.cluster && n.name != name && n.ready in {ReadyFalse, ReadyUnknown} && KillsOwner(s.tasks, n, c)
  {
    if s.kubeUp {
      var s1 := s.(cluster := Without(s.cluster, {name}));
      WithoutIn(s.cluster, {name});
      var whose := CleanupKills(s1);
      hide Cleaned, KillsOwner, UnreadyAmong;
      var r := NodeDeleted(s, name);
      forall c | c in r.log[|s.log|..]
        ensures exists n ::
                  n in s.cluster && n.name != name && n.ready in {ReadyFalse, ReadyUnknown} && KillsOwner(s.tasks, n, c)
      {
        var m :| 0 <= m < |whose| && r.log[|s.log|..][m] == c;
        assert KillsOwner(s.tasks, whose[m], c);
      }
    }
  }

  /** A second cleanup finds nothing to do. */
  lemma CleanupTwice(s: Sys)
    ensures Cleaned(Cleaned(s)) == Cleaned(s)
  {
    if s.kubeUp {
      var t := Cleaned(s);
      AllReady(s.cluster);
      assert Names(UnreadyOf(t.cluster)) == {};
      WithoutNothing(t.cache, {});
      assert t.log + KillsFor(t.tasks, []) == t.log;
    }
  }
}
