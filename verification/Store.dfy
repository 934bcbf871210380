/** The task part of the key/value store: a list of commands in iteration order, one per key. */
module Store {
  import opened Types

  function Count(ts: seq<Command>, k: Kind): nat {
    if |ts| == 0 then 0 else Count(ts[..|ts| - 1], k) + (if ts[|ts| - 1].name == Some(k) then 1 else 0)
  }

  ghost predicate DistinctKeys(ts: seq<Command>) {
    forall i, j | 0 <= i < j < |ts| :: ts[i].name != ts[j].name || ts[i].id != ts[j].id
  }

  ghost predicate DistinctIds(ts: seq<Command>) {
    forall i, j | 0 <= i < j < |ts| :: ts[i].id != ts[j].id
  }

  ghost predicate HasId(ts: seq<Command>, id: string) {
    exists i :: 0 <= i < |ts| && ts[i].id == id
  }

  /** The first position of a task ID, or the length. */
  function IndexOfId(ts: seq<Command>, id: string): (p: nat)
    ensures p <= |ts|
    ensures p < |ts| ==> ts[p].id == id
    ensures forall j | 0 <= j < p :: ts[j].id != id
  {
    if |ts| == 0 || ts[0].id == id then 0 else 1 + IndexOfId(ts[1..], id)
  }

  /** The position of a key, or the length. */
  function IndexOfKey(ts: seq<Command>, name: Option<Kind>, id: string): (p: nat)
    ensures p <= |ts|
    ensures p < |ts| ==> ts[p].name == name && ts[p].id == id
    ensures forall j | 0 <= j < p :: ts[j].name != name || ts[j].id != id
  {
    if |ts| == 0 || (ts[0].name == name && ts[0].id == id) then 0 else 1 + IndexOfKey(ts[1..], name, id)
  }

  function RemoveAt(ts: seq<Command>, i: nat): seq<Command>
    requires i < |ts|
  {
    ts[..i] + ts[i + 1..]
  }

  /** Write a command under its key.  A new key may land anywhere (`at`) in the iteration order. */
  function Put(ts: seq<Command>, c: Command, at: nat): seq<Command> {
    var p := IndexOfKey(ts, c.name, c.id);
    if p < |ts| then ts[p := c]
    else var q := if at < |ts| then at else |ts|; ts[..q] + [c] + ts[q..]
  }

  function Delete(ts: seq<Command>, name: Option<Kind>, id: string): seq<Command> {
    var p := IndexOfKey(ts, name, id);
    if p < |ts| then RemoveAt(ts, p) else ts
  }

  /** Reading a key; a missing key decodes to the empty command. */
  function Get(ts: seq<Command>, name: Option<Kind>, id: string): Command {
    var p := IndexOfKey(ts, name, id);
    if p < |ts| then ts[p] else EMPTY
  }

  lemma PutAt(ts: seq<Command>, i: nat, c: Command, at: nat)
    requires DistinctKeys(ts) && i < |ts| && ts[i].name == c.name && ts[i].id == c.id
    ensures Put(ts, c, at) == ts[i := c] && DistinctKeys(ts[i := c])
  {
  }

  lemma DeleteAt(ts: seq<Command>, i: nat)
    requires DistinctKeys(ts) && i < |ts|
    ensures Delete(ts, ts[i].name, ts[i].id) == RemoveAt(ts, i) && DistinctKeys(RemoveAt(ts, i))
  {
  }

  lemma {:induction false} CountSplit(a: seq<Command>, b: seq<Command>, k: Kind)
    ensures Count(a + b, k) == Count(a, k) + Count(b, k)
  {
    if |b| == 0 {
      assert a + b == a;
    } else {
      assert (a + b)[..|a + b| - 1] == a + b[..|b| - 1];
      CountSplit(a, b[..|b| - 1], k);
    }
  }

  lemma CountOne(c: Command, k: Kind)
    ensures Count([c], k) == if c.name == Some(k) then 1 else 0
  {
    assert [c][..0] == [];
  }

  lemma CountRemove(ts: seq<Command>, i: nat, k: Kind)
    requires i < |ts|
    ensures Count(RemoveAt(ts, i), k) == Count(ts, k) - (if ts[i].name == Some(k) then 1 else 0)
  {
    assert ts == ts[..i] + ([ts[i]] + ts[i + 1..]);
    CountSplit(ts[..i], [ts[i]] + ts[i + 1..], k);
    CountSplit([ts[i]], ts[i + 1..], k);
    CountSplit(ts[..i], ts[i + 1..], k);
    CountOne(ts[i], k);
  }

  lemma CountReplace(ts: seq<Command>, i: nat, c: Command, k: Kind)
    requires i < |ts| && c.name == ts[i].name
    ensures Count(ts[i := c], k) == Count(ts, k)
  {
    assert RemoveAt(ts[i := c], i) == RemoveAt(ts, i);
    CountRemove(ts, i, k);
    CountRemove(ts[i := c], i, k);
  }

  /** The tasks of one kind, in iteration order. */
  function OfKind(ts: seq<Command>, k: Kind): seq<Command>
    ensures forall t | t in OfKind(ts, k) :: t.name == Some(k)
  {
    if |ts| == 0 then []
    else if ts[|ts| - 1].name == Some(k) then OfKind(ts[..|ts| - 1], k) + [ts[|ts| - 1]]
    else OfKind(ts[..|ts| - 1], k)
  }

  lemma {:induction false} OfKindSplit(a: seq<Command>, b: seq<Command>, k: Kind)
    ensures OfKind(a + b, k) == OfKind(a, k) + OfKind(b, k)
  {
    if |b| == 0 {
      assert a + b == a;
    } else {
      assert (a + b)[..|a + b| - 1] == a + b[..|b| - 1];
      OfKindSplit(a, b[..|b| - 1], k);
    }
  }

  lemma {:induction false} OfKindCount(ts: seq<Command>, k: Kind)
    ensures |OfKind(ts, k)| == Count(ts, k)
  {
    if |ts| == 0 {
    } else {
      OfKindCount(ts[..|ts| - 1], k);
    }
  }
}
