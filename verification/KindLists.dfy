/** The IDs of the stored tasks of one kind, in iteration order, and what changes of the store do to them. */
module KindLists {
  import opened Types
  import opened Store

  function KindIds(ts: seq<Command>, k: Kind): seq<string> {
    if |ts| == 0 then []
    else
      var t := ts[|ts| - 1];
      if t.name == Some(k) then KindIds(ts[..|ts| - 1], k) + [t.id] else KindIds(ts[..|ts| - 1], k)
  }

  /** The IDs that are not among `gone`, in order. */
  function Left(ids: seq<string>, gone: set<string>): seq<string> {
    if |ids| == 0 then []
    else
      var id := ids[|ids| - 1];
      if id in gone then Left(ids[..|ids| - 1], gone) else Left(ids[..|ids| - 1], gone) + [id]
  }

  lemma {:induction false} KindIdsSplit(a: seq<Command>, b: seq<Command>, k: Kind)
    ensures KindIds(a + b, k) == KindIds(a, k) + KindIds(b, k)
  {
    if |b| == 0 {
      assert a + b == a;
    } else {
      assert (a + b)[..|a + b| - 1] == a + b[..|b| - 1];
      KindIdsSplit(a, b[..|b| - 1], k);
    }
  }

  lemma KindIdsOne(t: Command, k: Kind)
    ensures KindIds([t], k) == if t.name == Some(k) then [t.id] else []
  {
    assert [t][..0] == [];
  }

  lemma {:induction false} KindIdsOfKind(ts: seq<Command>, k: Kind)
    ensures |KindIds(ts, k)| == |OfKind(ts, k)| == Count(ts, k)
    ensures forall i | 0 <= i < |KindIds(ts, k)| :: KindIds(ts, k)[i] == OfKind(ts, k)[i].id
  {
    if |ts| == 0 {
    } else {
      KindIdsOfKind(ts[..|ts| - 1], k);
    }
  }

  lemma {:induction false} KindIdsIn(ts: seq<Command>, k: Kind, id: string)
    ensures id in KindIds(ts, k) <==> exists i :: 0 <= i < |ts| && ts[i].name == Some(k) && ts[i].id == id
  {
    if |ts| == 0 {
    } else {
      KindIdsIn(ts[..|ts| - 1], k, id);
    }
  }

  /** Keys stay. */
  lemma {:induction false} KindIdsSame(ts: seq<Command>, us: seq<Command>, k: Kind)
    requires |us| == |ts| && forall i | 0 <= i < |ts| :: us[i].name == ts[i].name && us[i].id == ts[i].id
    ensures KindIds(us, k) == KindIds(ts, k)
  {
    if |ts| == 0 {
    } else {
      KindIdsSame(ts[..|ts| - 1], us[..|us| - 1], k);
    }
  }

  /** A task that goes leaves the IDs before and after its own. */
  lemma KindIdsRemove(ts: seq<Command>, i: nat, k: Kind)
    requires i < |ts|
    ensures KindIds(RemoveAt(ts, i), k) == KindIds(ts[..i], k) + KindIds(ts[i + 1..], k)
    ensures if ts[i].name == Some(k) then KindIds(ts, k) == KindIds(ts[..i], k) + [ts[i].id] + KindIds(ts[i + 1..], k)
            else KindIds(RemoveAt(ts, i), k) == KindIds(ts, k)
  {
    hide KindIds;
    assert ts == ts[..i] + ([ts[i]] + ts[i + 1..]);
    KindIdsSplit(ts[..i], [ts[i]] + ts[i + 1..], k);
    KindIdsSplit([ts[i]], ts[i + 1..], k);
    KindIdsSplit(ts[..i], ts[i + 1..], k);
    KindIdsOne(ts[i], k);
    assert [] + KindIds(ts[i + 1..], k) == KindIds(ts[i + 1..], k);
  }

  /** A task of another kind that comes changes nothing. */
  lemma KindIdsPutOther(ts: seq<Command>, c: Command, at: nat, k: Kind)
    requires c.name != Some(k)
    ensures KindIds(Put(ts, c, at), k) == KindIds(ts, k)
  {
    var p := IndexOfKey(ts, c.name, c.id);
    if p < |ts| {
      KindIdsSame(ts, ts[p := c], k);
    } else {
      var q := if at < |ts| then at else |ts|;
      var u := ts[..q] + [c] + ts[q..];
      assert RemoveAt(u, q) == ts;
      KindIdsRemove(u, q, k);
    }
  }

  /** A task that goes takes its ID out of its kind, and nothing else. */
  lemma KindIdsRemoved(ts: seq<Command>, i: nat, k: Kind)
    requires DistinctIds(ts) && i < |ts|
    ensures KindIds(RemoveAt(ts, i), k) == Left(KindIds(ts, k), {ts[i].id})
  {
    var id := ts[i].id;
    KindIdsRemove(ts, i, k);
    var a, b := KindIds(ts[..i], k), KindIds(ts[i + 1..], k);
    KindIdsIn(ts[..i], k, id);
    KindIdsIn(ts[i + 1..], k, id);
    assert id !in a && id !in b;
    LeftAll(a, {id});
    LeftAll(b, {id});
    LeftSplit(a, b, {id});
    LeftSplit(a, [id], {id});
    LeftSplit(a + [id], b, {id});
    assert Left([id], {id}) == [] by { assert [id][..0] == []; }
    assert Left(a + b, {id}) == a + b && Left(a + [id] + b, {id}) == a + [] + b;
    assert a + [] == a;
  }

  lemma {:induction false} LeftSplit(a: seq<string>, b: seq<string>, gone: set<string>)
    ensures Left(a + b, gone) == Left(a, gone) + Left(b, gone)
  {
    if |b| == 0 {
      assert a + b == a;
    } else {
      assert (a + b)[..|a + b| - 1] == a + b[..|b| - 1];
      LeftSplit(a, b[..|b| - 1], gone);
    }
  }

  lemma {:induction false} LeftAll(ids: seq<string>, gone: set<string>)
    requires forall id | id in ids :: id !in gone
    ensures Left(ids, gone) == ids
  {
    if |ids| == 0 {
    } else {
      LeftAll(ids[..|ids| - 1], gone);
    }
  }

  lemma {:induction false} LeftTwice(ids: seq<string>, a: set<string>, b: set<string>)
    ensures Left(Left(ids, a), b) == Left(ids, a + b)
  {
    if |ids| == 0 {
    } else {
      var front, id := ids[..|ids| - 1], ids[|ids| - 1];
      LeftTwice(front, a, b);
      if id !in a {
        assert (Left(front, a) + [id])[..|Left(front, a)|] == Left(front, a);
      }
    }
  }

  lemma {:induction false} LeftIn(ids: seq<string>, gone: set<string>)
    ensures forall id :: id in Left(ids, gone) <==> id in ids && id !in gone
    ensures |Left(ids, gone)| <= |ids|
  {
    if |ids| == 0 {
    } else {
      LeftIn(ids[..|ids| - 1], gone);
      assert ids == ids[..|ids| - 1] + [ids[|ids| - 1]];
    }
  }

  /** What is left depends only on which of the listed IDs are gone. */
  lemma {:induction false} LeftSame(ids: seq<string>, a: set<string>, b: set<string>)
    requires forall id | id in ids :: id in a <==> id in b
    ensures Left(ids, a) == Left(ids, b)
  {
    if |ids| == 0 {
    } else {
      LeftSame(ids[..|ids| - 1], a, b);
    }
  }

  /** The more are gone, the fewer are left. */
  lemma {:induction false} LeftFewer(ids: seq<string>, a: set<string>, b: set<string>)
    requires forall id | id in ids && id in a :: id in b
    ensures |Left(ids, b)| <= |Left(ids, a)|
  {
    if |ids| == 0 {
    } else {
      LeftFewer(ids[..|ids| - 1], a, b);
    }
  }
}
