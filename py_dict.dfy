/** Python dicts with string keys, which keep insertion order (`OrderedDict`,
    and every plain dict from Python 3.7), as lists of key/value pairs.
    Assigning to a key that is present replaces its value in place; a new
    key goes at the end. */
module PyDict {
  import opened PyValues

  function KeysOf<V>(d: seq<(string, V)>): (r: seq<string>)
    ensures |r| == |d| && forall i :: 0 <= i < |d| ==> r[i] == d[i].0
  {
    seq(|d|, i requires 0 <= i < |d| => d[i].0)
  }

  /** No key occurs twice: the shape of every dict. */
  predicate DistinctKeys<V>(d: seq<(string, V)>) {
    forall i, j :: 0 <= i < j < |d| ==> d[i].0 != d[j].0
  }

  /** The position of the first pair with key k. */
  function IndexOf<V>(d: seq<(string, V)>, k: string): (r: Option<nat>)
    ensures r.Some? ==> r.value < |d| && d[r.value].0 == k && k !in KeysOf(d[..r.value])
    ensures r.None? <==> k !in KeysOf(d)
  {
    if d == [] then None
    else if d[0].0 == k then Some(0)
    else match IndexOf(d[1..], k)
      case None => None
      case Some(i) =>
        assert KeysOf(d[1..][..i]) == KeysOf(d[..i + 1])[1..];
        Some(i + 1)
  }

  /** `d.get(k)` */
  function Get<V>(d: seq<(string, V)>, k: string): (r: Option<V>)
    ensures r.Some? <==> k in KeysOf(d)
  {
    match IndexOf(d, k)
    case None => None
    case Some(i) => Some(d[i].1)
  }

  /** `d[k] = v` */
  function Put<V>(d: seq<(string, V)>, k: string, v: V): (r: seq<(string, V)>)
    ensures Get(r, k) == Some(v)
    ensures forall k' :: k' != k ==> Get(r, k') == Get(d, k')
    ensures KeysOf(r) == if k in KeysOf(d) then KeysOf(d) else KeysOf(d) + [k]
    ensures DistinctKeys(d) ==> DistinctKeys(r)
  {
    match IndexOf(d, k)
    case None =>
      var r := d + [(k, v)];
      assert KeysOf(r) == KeysOf(d) + [k];
      assert forall k' :: k' != k ==> Get(r, k') == Get(d, k') by {
        forall k' | k' != k ensures Get(r, k') == Get(d, k') {
          IndexOfAppend(d, (k, v), k');
        }
      }
      IndexOfAppend(d, (k, v), k);
      r
    case Some(i) =>
      var r := d[i := (k, v)];
      assert KeysOf(r) == KeysOf(d);
      assert r[..i] == d[..i];
      assert forall k' :: k' != k ==> Get(r, k') == Get(d, k') by {
        forall k' | k' != k ensures Get(r, k') == Get(d, k') {
          IndexOfUpdate(d, i, (k, v), k');
        }
      }
      IndexOfPrefix(r, i);
      r
  }

  /** Assign every pair of `items` in turn: `d.update(items)`, or a dict
      display or comprehension when `d` is empty. */
  function PutAll<V>(d: seq<(string, V)>, items: seq<(string, V)>): (r: seq<(string, V)>)
    ensures |d| <= |r| <= |d| + |items|
    ensures DistinctKeys(d) ==> DistinctKeys(r)
    decreases |items|
  {
    if items == [] then d
    else var n := |items| - 1; Put(PutAll(d, items[..n]), items[n].0, items[n].1)
  }

  /** `d.update(items)` on an `OrderedDict`: the pairs assigned one by
      one, in order. */
  method Update<V>(d: seq<(string, V)>, items: seq<(string, V)>) returns (r: seq<(string, V)>)
    ensures r == PutAll(d, items)
  {
    r := d;
    var i := 0;
    while i < |items|
      invariant 0 <= i <= |items|
      invariant r == PutAll(d, items[..i])
    {
      assert items[..i + 1][..i] == items[..i];
      r := Put(r, items[i].0, items[i].1);
      i := i + 1;
    }
    assert items[..i] == items;
  }

  /** The value of the last pair of `items` with key k. */
  function LastValue<V>(items: seq<(string, V)>, k: string): (r: Option<V>)
    ensures r.Some? <==> k in KeysOf(items)
  {
    if items == [] then None
    else
      var n := |items| - 1;
      assert KeysOf(items) == KeysOf(items[..n]) + [items[n].0];
      if items[n].0 == k then Some(items[n].1) else LastValue(items[..n], k)
  }

  // --- Lemmas -------------------------------------------------------------

  lemma IndexOfAppend<V>(d: seq<(string, V)>, p: (string, V), k: string)
    ensures IndexOf(d + [p], k) == if k in KeysOf(d) then IndexOf(d, k) else if p.0 == k then Some(|d|) else None
  {
    assert KeysOf(d + [p]) == KeysOf(d) + [p.0];
    match IndexOf(d + [p], k)
    case None =>
    case Some(i) =>
      if i < |d| {
        assert KeysOf((d + [p])[..i]) == KeysOf(d[..i]);
        IndexOfUnique(d, k, i);
      } else {
        assert (d + [p])[..i] == d;
      }
  }

  lemma {:induction false} IndexOfUnique<V>(d: seq<(string, V)>, k: string, i: nat)
    requires i < |d| && d[i].0 == k && k !in KeysOf(d[..i])
    ensures IndexOf(d, k) == Some(i)
    decreases i
  {
    if i > 0 {
      assert KeysOf(d[..i])[0] == d[0].0;
      assert KeysOf(d[1..][..i - 1]) == KeysOf(d[..i])[1..];
      IndexOfUnique(d[1..], k, i - 1);
    }
  }

  lemma IndexOfPrefix<V>(d: seq<(string, V)>, i: nat)
    requires i < |d| && d[i].0 !in KeysOf(d[..i])
    ensures IndexOf(d, d[i].0) == Some(i)
  {
    IndexOfUnique(d, d[i].0, i);
  }

  lemma IndexOfUpdate<V>(d: seq<(string, V)>, i: nat, p: (string, V), k: string)
    requires IndexOf(d, p.0) == Some(i) && k != p.0
    ensures IndexOf(d[i := p], k) == IndexOf(d, k)
  {
    var r := d[i := p];
    assert KeysOf(r) == KeysOf(d);
    match IndexOf(d, k)
    case None =>
    case Some(j) =>
      assert j != i;
      if j < i {
        assert r[..j] == d[..j];
      } else {
        assert KeysOf(r[..j]) == KeysOf(d[..j])[i := p.0];
        assert k !in KeysOf(r[..j]);
      }
      IndexOfUnique(r, k, j);
  }

  /** After `d.update(items)` a key holds the value the last pair with that
      key carried, and keeps its old value when no pair names it. */
  lemma {:induction false} GetPutAll<V>(d: seq<(string, V)>, items: seq<(string, V)>, k: string)
    ensures Get(PutAll(d, items), k) == if k in KeysOf(items) then LastValue(items, k) else Get(d, k)
    decreases |items|
  {
    if items != [] {
      var n := |items| - 1;
      assert KeysOf(items) == KeysOf(items[..n]) + [items[n].0];
      GetPutAll(d, items[..n], k);
    }
  }

  /** `update` keeps the existing keys in their order, and its keys are the
      old ones and those of the new pairs. */
  lemma {:induction false} KeysPutAll<V>(d: seq<(string, V)>, items: seq<(string, V)>)
    ensures KeysOf(d) <= KeysOf(PutAll(d, items))
    ensures forall k :: k in KeysOf(PutAll(d, items)) <==> k in KeysOf(d) || k in KeysOf(items)
    decreases |items|
  {
    if items != [] {
      var n := |items| - 1;
      assert KeysOf(items) == KeysOf(items[..n]) + [items[n].0];
      KeysPutAll(d, items[..n]);
    }
  }

  /** When no key repeats, `update` appends the pairs exactly, in order. */
  lemma {:induction false} PutAllFresh<V>(d: seq<(string, V)>, items: seq<(string, V)>)
    requires DistinctKeys(d + items)
    ensures PutAll(d, items) == d + items
    decreases |items|
  {
    if items != [] {
      var n := |items| - 1;
      assert d + items == (d + items[..n]) + [items[n]];
      assert DistinctKeys(d + items[..n]) by {
        forall i, j | 0 <= i < j < |d + items[..n]| ensures (d + items[..n])[i].0 != (d + items[..n])[j].0 {
          assert (d + items[..n])[i] == (d + items)[i] && (d + items[..n])[j] == (d + items)[j];
        }
      }
      PutAllFresh(d, items[..n]);
      var k := items[n].0;
      assert k !in KeysOf(d + items[..n]) by {
        forall i | 0 <= i < |d + items[..n]| ensures KeysOf(d + items[..n])[i] != k {
          assert (d + items)[i].0 != (d + items)[|d| + n].0;
        }
      }
    }
  }

  /** In a dict, the first and the last pair with a key are the same one. */
  lemma {:induction false} LastValueDistinct<V>(d: seq<(string, V)>, k: string)
    requires DistinctKeys(d)
    ensures LastValue(d, k) == Get(d, k)
    decreases |d|
  {
    if d != [] {
      var n := |d| - 1;
      var prefix := d[..n];
      assert DistinctKeys(prefix);
      LastValueDistinct(prefix, k);
      if d[n].0 == k {
        assert k !in KeysOf(prefix);
        IndexOfPrefix(d, n);
      } else {
        assert d == prefix + [d[n]];
        IndexOfAppend(prefix, d[n], k);
      }
    }
  }

  /** Building a dict from pairs whose keys are all different reproduces
      them. */
  lemma PutAllFromEmpty<V>(items: seq<(string, V)>)
    requires DistinctKeys(items)
    ensures PutAll([], items) == items
  {
    assert [] + items == items;
    PutAllFresh([], items);
  }

  lemma DistinctTail<V>(p: (string, V), items: seq<(string, V)>)
    requires DistinctKeys([p] + items)
    ensures DistinctKeys(items)
  {
    forall i, j | 0 <= i < j < |items| ensures items[i].0 != items[j].0 {
      assert ([p] + items)[i + 1] == items[i] && ([p] + items)[j + 1] == items[j];
    }
  }
}
