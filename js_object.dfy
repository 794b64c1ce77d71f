/**
  A JavaScript plain object with string keys, seen through the list of its own
  properties in insertion order (the order `Object.entries` enumerates).
  Reading `o[k]` is `Lookup`, assigning `o[k] = v` and the spread
  `{ ...o, [k]: v }` are both `Put`: an existing key keeps its place and gets
  the new value, a new key is appended at the end.
*/
module JsObject {
  import opened Wrappers

  type Dict<V> = seq<(string, V)>

  /** Every key occurs once, as in any JavaScript object. */
  ghost predicate UniqueKeys<V>(d: Dict<V>)
  {
    forall i, j :: 0 <= i < j < |d| ==> d[i].0 != d[j].0
  }

  /** `o[k]`: the value stored under `k`, or `undefined`. */
  function Lookup<V>(d: Dict<V>, k: string): (r: Option<V>)
    ensures r.None? <==> forall i :: 0 <= i < |d| ==> d[i].0 != k
    ensures r.Some? ==> exists i :: 0 <= i < |d| && d[i] == (k, r.value)
  {
    if d == [] then None
    else if d[0].0 == k then Some(d[0].1)
    else
      var r := Lookup(d[1..], k);
      assert forall i :: 1 <= i < |d| ==> d[i] == d[1..][i - 1];
      r
  }

  /** In an object, the lookup of a key returns the value at that key's one entry. */
  lemma LookupAt<V>(d: Dict<V>, i: nat)
    requires UniqueKeys(d) && i < |d|
    ensures Lookup(d, d[i].0) == Some(d[i].1)
  {
  }

  /** `o[k] = v`: an existing key keeps its place and gets the new value, a new key is appended. */
  function Put<V>(d: Dict<V>, k: string, v: V): Dict<V>
  {
    if d == [] then [(k, v)]
    else if d[0].0 == k then [(k, v)] + d[1..]
    else [d[0]] + Put(d[1..], k, v)
  }

  /** After `o[k] = v`, `k` holds `v` and every other key its old value. */
  lemma {:induction false} PutLookup<V>(d: Dict<V>, k: string, v: V, k': string)
    ensures Lookup(Put(d, k, v), k') == if k' == k then Some(v) else Lookup(d, k')
    decreases |d|
  {
    if d != [] && d[0].0 != k {
      PutLookup(d[1..], k, v, k');
      assert ([d[0]] + Put(d[1..], k, v))[1..] == Put(d[1..], k, v);
    }
  }

  /** `o[k] = v` appends a new key at the end, and leaves the keys and their order alone otherwise. */
  lemma {:induction false} PutShape<V>(d: Dict<V>, k: string, v: V)
    ensures Lookup(d, k).None? ==> Put(d, k, v) == d + [(k, v)]
    ensures Lookup(d, k).Some? ==> |Put(d, k, v)| == |d| && forall i :: 0 <= i < |d| ==> Put(d, k, v)[i].0 == d[i].0
    decreases |d|
  {
    if d != [] && d[0].0 != k {
      PutShape(d[1..], k, v);
      assert Lookup(d, k) == Lookup(d[1..], k);
      assert d == [d[0]] + d[1..];
    }
  }

  /** Assigning keeps the keys of an object distinct. */
  lemma PutUnique<V>(d: Dict<V>, k: string, v: V)
    requires UniqueKeys(d)
    ensures UniqueKeys(Put(d, k, v))
  {
    PutShape(d, k, v);
  }

  /** The writes `ws` applied one after the other, first to last. */
  function PutAll<V>(d: Dict<V>, ws: seq<(string, V)>): Dict<V>
    decreases |ws|
  {
    if ws == [] then d
    else Put(PutAll(d, ws[..|ws| - 1]), ws[|ws| - 1].0, ws[|ws| - 1].1)
  }

  /** One more write after a series of writes is one more `Put`. */
  lemma PutAllSnoc<V>(d: Dict<V>, ws: seq<(string, V)>, w: (string, V))
    ensures PutAll(d, ws + [w]) == Put(PutAll(d, ws), w.0, w.1)
  {
    assert (ws + [w])[..|ws|] == ws;
  }

  /** Two series of writes one after the other are their concatenation. */
  lemma {:induction false} PutAllConcat<V>(d: Dict<V>, a: seq<(string, V)>, b: seq<(string, V)>)
    ensures PutAll(d, a + b) == PutAll(PutAll(d, a), b)
    decreases |b|
  {
    if b == [] {
      assert a + b == a;
    } else {
      assert (a + b)[..|a + b| - 1] == a + b[..|b| - 1];
      PutAllConcat(d, a, b[..|b| - 1]);
    }
  }

  /** The value of the last write to `k` among `ws`, if there is one. */
  function LastWrite<V>(ws: seq<(string, V)>, k: string): (r: Option<V>)
    ensures r.None? <==> forall q :: 0 <= q < |ws| ==> ws[q].0 != k
    decreases |ws|
  {
    if ws == [] then None
    else if ws[|ws| - 1].0 == k then Some(ws[|ws| - 1].1)
    else LastWrite(ws[..|ws| - 1], k)
  }

  /** After a series of writes, a key holds the last value written to it, or its old value if none was. */
  lemma {:induction false} LookupPutAll<V>(d: Dict<V>, ws: seq<(string, V)>, k: string)
    ensures Lookup(PutAll(d, ws), k) == if LastWrite(ws, k).Some? then LastWrite(ws, k) else Lookup(d, k)
    decreases |ws|
  {
    if ws != [] {
      LookupPutAll(d, ws[..|ws| - 1], k);
      PutLookup(PutAll(d, ws[..|ws| - 1]), ws[|ws| - 1].0, ws[|ws| - 1].1, k);
    }
  }

  /** A series of writes never removes a key and never moves an existing one: the old object's keys stay a prefix. */
  lemma {:induction false} PutAllKeepsOrder<V>(d: Dict<V>, ws: seq<(string, V)>)
    ensures |PutAll(d, ws)| >= |d|
    ensures forall i :: 0 <= i < |d| ==> PutAll(d, ws)[i].0 == d[i].0
    decreases |ws|
  {
    if ws != [] {
      PutAllKeepsOrder(d, ws[..|ws| - 1]);
      PutShape(PutAll(d, ws[..|ws| - 1]), ws[|ws| - 1].0, ws[|ws| - 1].1);
    }
  }

  /** A series of writes keeps the keys of an object distinct. */
  lemma {:induction false} PutAllUnique<V>(d: Dict<V>, ws: seq<(string, V)>)
    requires UniqueKeys(d)
    ensures UniqueKeys(PutAll(d, ws))
    decreases |ws|
  {
    if ws != [] {
      PutAllUnique(d, ws[..|ws| - 1]);
      PutUnique(PutAll(d, ws[..|ws| - 1]), ws[|ws| - 1].0, ws[|ws| - 1].1);
    }
  }

  /** The write at position `p` is the last write to its key when no later write has that key. */
  lemma {:induction false} LastWriteAt<V>(ws: seq<(string, V)>, p: nat)
    requires p < |ws|
    requires forall q :: p < q < |ws| ==> ws[q].0 != ws[p].0
    ensures LastWrite(ws, ws[p].0) == Some(ws[p].1)
    decreases |ws|
  {
    if p < |ws| - 1 {
      LastWriteAt(ws[..|ws| - 1], p);
    }
  }

  /** The last write in a concatenation comes from the second part when it writes the key at all. */
  lemma {:induction false} LastWriteConcat<V>(a: seq<(string, V)>, b: seq<(string, V)>, k: string)
    ensures LastWrite(a + b, k) == if LastWrite(b, k).Some? then LastWrite(b, k) else LastWrite(a, k)
    decreases |b|
  {
    if b == [] {
      assert a + b == a;
    } else {
      assert (a + b)[..|a + b| - 1] == a + b[..|b| - 1];
      LastWriteConcat(a, b[..|b| - 1], k);
    }
  }
}
