/** What scaling down does to the Kubernetes nodes of the agents it kills. */
module Evictions {
  import opened Types
  import opened Store
  import opened Nodes
  import opened Scaling

  /** The first cached node of the task with this ID is a named one, and no node of that name is in the cluster. */
  ghost predicate Evicted(cache: seq<Node>, cluster: seq<Node>, id: string) {
    forall q: nat | FirstCarrying(cache, id, q) && cache[q].name != "" :: cache[q].name !in Names(cluster)
  }

  /** Some cached node of this name carries one of the IDs. */
  ghost predicate Belongs(cache: seq<Node>, ids: set<string>, name: string) {
    exists m, id :: m in cache && m.name == name && id in ids && Carries(m, id)
  }

  /** The task with this ID has a named node. */
  ghost predicate HasNode(cache: seq<Node>, id: string) {
    exists q: nat :: FirstCarrying(cache, id, q) && cache[q].name != ""
  }

  /** Nodes only go: none is new; a ready one goes only if it belongs to one of the tasks; and a node leaves the
      cache only with those of its name in the cluster; and without a node among the tasks nothing goes. */
  ghost predicate OnlyEvicts(s: Sys, r: Sys, ids: set<string>) {
    && (forall n | n in r.cluster :: n in s.cluster)
    && (forall n | n in s.cluster && n.ready !in {ReadyFalse, ReadyUnknown} && !Belongs(s.cache, ids, n.name) ::
          n in r.cluster)
    && (exists names :: r.cache == Without(s.cache, names) && names !! Names(r.cluster))
    && ((forall id | id in ids :: !HasNode(s.cache, id)) ==> r.cluster == s.cluster && r.cache == s.cache)
  }

  lemma EvictsNothing(s: Sys, r: Sys, ids: set<string>)
    requires r.cluster == s.cluster && r.cache == s.cache
    ensures OnlyEvicts(s, r, ids)
  {
    WithoutNothing(s.cache, {});
    assert r.cache == Without(s.cache, {}) && {} !! Names(r.cluster);
  }

  lemma EvictsTrans(a: Sys, b: Sys, c: Sys, ids: set<string>, more: set<string>)
    requires OnlyEvicts(a, b, ids) && OnlyEvicts(b, c, more)
    ensures OnlyEvicts(a, c, ids + more)
  {
    var m :| b.cache == Without(a.cache, m) && m !! Names(b.cluster);
    var n :| c.cache == Without(b.cache, n) && n !! Names(c.cluster);
    WithoutTwice(a.cache, m, n);
    WithoutIn(a.cache, m);
    hide Without;
    assert c.cache == Without(a.cache, m + n) && (m + n) !! Names(c.cluster);
    forall node | node in a.cluster && node.ready !in {ReadyFalse, ReadyUnknown}
        && !Belongs(a.cache, ids + more, node.name)
      ensures node in c.cluster
    {
      assert !Belongs(a.cache, ids, node.name);
      assert !Belongs(b.cache, more, node.name);
    }
  }

  /** Dropping keys keeps the order, so the first node that carries an ID is still the first if it is still there. */
  lemma {:induction false} FirstLeft(cache: seq<Node>, names: set<string>, id: string, q: nat) returns (p: nat)
    requires FirstCarrying(cache, id, q) && cache[q].name !in names
    ensures FirstCarrying(Without(cache, names), id, p) && Without(cache, names)[p] == cache[q]
    decreases q
  {
    var rest := cache[1..];
    if q == 0 {
      p := 0;
    } else {
      assert cache[q] == rest[q - 1];
      assert forall j | 0 <= j < q - 1 :: rest[j] == cache[j + 1];
      p := FirstLeft(rest, names, id, q - 1);
      if cache[0].name !in names {
        var w := Without(cache, names);
        assert w[0] == cache[0] && w[1..] == Without(rest, names);
        assert forall j | 0 < j <= p + 1 && j < |w| :: w[j] == Without(rest, names)[j - 1];
        p := p + 1;
      }
    }
  }

  /** Once a task's node is evicted it stays so, also when it is looked up in what is left of the cache. */
  lemma EvictedBefore(s: Sys, r: Sys, ids: set<string>, cluster: seq<Node>, id: string)
    requires OnlyEvicts(s, r, ids) && Evicted(r.cache, cluster, id) && forall n | n in cluster :: n in r.cluster
    ensures Evicted(s.cache, cluster, id)
  {
    var names :| r.cache == Without(s.cache, names) && names !! Names(r.cluster);
    hide Without;
    forall q: nat | FirstCarrying(s.cache, id, q) && s.cache[q].name != ""
      ensures s.cache[q].name !in Names(cluster)
    {
      if s.cache[q].name !in names {
        var p := FirstLeft(s.cache, names, id, q);
      }
    }
  }

  lemma EvictedLater(cache: seq<Node>, cluster: seq<Node>, left: seq<Node>, id: string)
    requires Evicted(cache, cluster, id) && forall n | n in left :: n in cluster
    ensures Evicted(cache, left, id)
  {
  }

  /** One round of Scale. */
  lemma RoundEvicts(s: Sys, k: Kind, count: int, prior: int, i: nat)
    requires i < |s.tasks| && s.kubeUp && DistinctNames(s.cluster)
    ensures var r, id := ScaledOne(s, k, count, prior, i), s.tasks[i].id;
            && r.kubeUp && DistinctNames(r.cluster)
            && (if k.Agent? && count < prior then OnlyEvicts(s, r, {id}) && Evicted(s.cache, r.cluster, id)
                else r.cluster == s.cluster && r.cache == s.cache)
  {
    var id, r := s.tasks[i].id, ScaledOne(s, k, count, prior, i);
    var s1 := s.(tasks := s.tasks[i := s.tasks[i].(instances := count)]);
    var name := NodeOf(s.cache, id).name;
    hide NodeDeleted, NodeOf, DistinctNames, OnlyEvicts, Evicted;
    if k.Agent? && count < prior {
      if name != "" {
        DeletionEvicts(s1, id);
        SameEvicts(s1, NodeDeleted(s1, name), s, r, id);
      } else {
        NoNodeEvicts(s, r, id);
      }
    }
  }

  /** Only the nodes matter. */
  lemma SameEvicts(s: Sys, r: Sys, s': Sys, r': Sys, id: string)
    requires OnlyEvicts(s, r, {id}) && s.cluster == s'.cluster && s.cache == s'.cache
    requires r.cluster == r'.cluster && r.cache == r'.cache
    ensures OnlyEvicts(s', r', {id})
  {
    hide Belongs, HasNode, Without;
  }

  lemma NoNodeEvicts(s: Sys, r: Sys, id: string)
    requires NodeOf(s.cache, id).name == "" && r.cluster == s.cluster && r.cache == s.cache
    ensures OnlyEvicts(s, r, {id}) && Evicted(s.cache, r.cluster, id)
  {
    NodeOfFirst(s.cache, id);
    hide NodeOf;
    EvictsNothing(s, r, {id});
  }

  lemma DeletionEvicts(s: Sys, id: string)
    requires s.kubeUp && DistinctNames(s.cluster) && NodeOf(s.cache, id).name != ""
    ensures var r := NodeDeleted(s, NodeOf(s.cache, id).name);
            && r.kubeUp && DistinctNames(r.cluster) && OnlyEvicts(s, r, {id}) && Evicted(s.cache, r.cluster, id)
  {
    var name := NodeOf(s.cache, id).name;
    var r := NodeDeleted(s, name);
    DeletedEffect(s, name);
    NodeOfFirst(s.cache, id);
    var gone := Names(UnreadyOf(Without(s.cluster, {name})));
    assert r.cache == Without(s.cache, gone);
    assert DistinctNames(r.cluster) by {
      WithoutIn(s.cluster, {name});
      ReadyAndUnready(Without(s.cluster, {name}));
    }
    GoneApart(s, name);
    hide NodeDeleted, Without, NodeOf, UnreadyOf;
    var q: nat :| FirstCarrying(s.cache, id, q);
    assert s.cache[q] in s.cache && Belongs(s.cache, {id}, name);
  }

  /** No node left in the cluster has the name of one that cleanup removed. */
  lemma GoneApart(s: Sys, name: string)
    requires s.kubeUp && DistinctNames(s.cluster)
    ensures Names(UnreadyOf(Without(s.cluster, {name}))) !! Names(NodeDeleted(s, name).cluster)
  {
    var rest := Without(s.cluster, {name});
    WithoutIn(s.cluster, {name});
    ReadyAndUnready(rest);
    hide Without, UnreadyOf, ReadyOf;
    forall a, b | a in UnreadyOf(rest) && b in ReadyOf(rest) ensures a.name != b.name {
      var i :| 0 <= i < |rest| && rest[i] == a;
      var j :| 0 <= j < |rest| && rest[j] == b;
      assert i != j;
    }
  }

  /** The IDs of the first tasks of a list. */
  function FirstIds(ts: seq<Command>, n: nat): set<string> {
    set i | 0 <= i < n && i < |ts| :: ts[i].id
  }

  lemma FirstIdsCons(t: Command, ts: seq<Command>, n: nat)
    ensures FirstIds([t] + ts, n + 1) == {t.id} + FirstIds(ts, n)
  {
    assert forall i | 0 <= i < |ts| :: ([t] + ts)[i + 1] == ts[i];
    forall id | id in FirstIds(ts, n) ensures id in FirstIds([t] + ts, n + 1) {
      var i :| 0 <= i < n && i < |ts| && ts[i].id == id;
      assert ([t] + ts)[i + 1].id == id;
    }
    assert ([t] + ts)[0].id in FirstIds([t] + ts, n + 1);
  }

  lemma {:induction false} ScaledEvicts(s: Sys, k: Kind, count: int, prior: int, i: nat)
    requires i <= |s.tasks| && s.kubeUp && DistinctNames(s.cluster)
    ensures var r, killed := ScaledFrom(s, k, count, prior, i),
                             FirstIds(OfKind(s.tasks[i..], k), Positive(prior - count));
            if k.Agent? then OnlyEvicts(s, r, killed) && forall id | id in killed :: Evicted(s.cache, r.cluster, id)
            else r.cluster == s.cluster && r.cache == s.cache
    decreases |s.tasks| - i
  {
    hide ScaledOne, OnlyEvicts, Evicted, OfKind, DistinctNames, FirstIds;
    OfKindFrom(s.tasks, i, k);
    var ts, n := s.tasks, Positive(prior - count);
    var r := ScaledFrom(s, k, count, prior, i);
    if i == |ts| {
      EvictsNothing(s, r, {});
      NoFirstIds(n);
    } else if ts[i].name != Some(k) {
      ScaledEvicts(s, k, count, prior, i + 1);
    } else {
      var s1 := ScaledOne(s, k, count, prior, i);
      RoundEvicts(s, k, count, prior, i);
      ScaledEvicts(s1, k, count, prior - 1, i + 1);
      assert s1.tasks[i + 1..] == ts[i + 1..];
      var later := OfKind(ts[i + 1..], k);
      if k.Agent? {
        if n > 0 {
          FirstIdsCons(ts[i], later, n - 1);
          EvictedAll(s, s1, r, ts[i].id, FirstIds(later, n - 1));
        } else {
          NoneFirst([ts[i]] + later);
          NoneFirst(later);
          EvictsSame(s, s1, r);
        }
      }
    }
  }

  lemma NoFirstIds(n: nat)
    ensures FirstIds([], n) == {}
  {
  }

  lemma NoneFirst(ts: seq<Command>)
    ensures FirstIds(ts, 0) == {}
  {
  }

  lemma EvictsSame(s: Sys, s1: Sys, r: Sys)
    requires s1.cluster == s.cluster && s1.cache == s.cache && OnlyEvicts(s1, r, {})
    ensures OnlyEvicts(s, r, {})
  {
  }

  lemma EvictedAll(s: Sys, s1: Sys, r: Sys, id: string, later: set<string>)
    requires OnlyEvicts(s, s1, {id}) && Evicted(s.cache, s1.cluster, id)
    requires OnlyEvicts(s1, r, later) && forall x | x in later :: Evicted(s1.cache, r.cluster, x)
    ensures OnlyEvicts(s, r, {id} + later) && forall x | x in {id} + later :: Evicted(s.cache, r.cluster, x)
  {
    EvictsTrans(s, s1, r, {id}, later);
    forall x | x in {id} + later ensures Evicted(s.cache, r.cluster, x) {
      if x == id {
        EvictedLater(s.cache, s1.cluster, r.cluster, id);
      } else {
        EvictedBefore(s, s1, {id}, r.cluster, x);
      }
    }
  }

  /** Scaling agents down takes the killed ones' nodes along: for each of the agents it kills, the cached node that
      carries its ID is in the cluster no more; a ready node that belongs to none of them stays; if none of them has
      a node all nodes stay; and scaling anything else touches no node. */
  lemma ScaleEvicts(s: Sys, k: Kind, count: int, prior: int)
    requires s.kubeUp && DistinctNames(s.cluster)
    ensures var r, killed := Scaled(s, k, count, prior), FirstIds(OfKind(s.tasks, k), Positive(prior - count));
            if k.Agent? then
              && (forall id, q: nat | id in killed && FirstCarrying(s.cache, id, q) && s.cache[q].name != "" ::
                    s.cache[q].name !in Names(r.cluster))
              && (forall n | n in r.cluster :: n in s.cluster)
              && (forall n | n in s.cluster && n.ready !in {ReadyFalse, ReadyUnknown}
                    && !Belongs(s.cache, killed, n.name) :: n in r.cluster)
              && ((forall id | id in killed :: !HasNode(s.cache, id)) ==> r.cluster == s.cluster && r.cache == s.cache)
            else r.cluster == s.cluster && r.cache == s.cache
  {
    ScaledEvicts(SaveConfig(s), k, count, prior, 0);
    assert s.tasks[0..] == s.tasks;
    hide ScaledFrom, FirstIds, OfKind;
    if k.Agent? {
      var r, killed := Scaled(s, k, count, prior), FirstIds(OfKind(s.tasks, k), Positive(prior - count));
      forall id, q: nat | id in killed && FirstCarrying(s.cache, id, q) && s.cache[q].name != ""
        ensures s.cache[q].name !in Names(r.cluster)
      {
        assert Evicted(s.cache, r.cluster, id);
      }
    }
  }
}
