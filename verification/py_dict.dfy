/** Python dicts as the list of their items in insertion order: lookup
    finds the first binding, assignment replaces a key in place or appends
    a new one, and a comprehension folds assignment over its items. */
module PyDict {
  import opened Wrappers

  function Keys<K, V>(d: seq<(K, V)>): (ks: seq<K>)
    ensures |ks| == |d|
    ensures forall i :: 0 <= i < |d| ==> ks[i] == d[i].0
  {
    seq(|d|, i requires 0 <= i < |d| => d[i].0)
  }

  predicate KeysDistinct<K(==), V>(d: seq<(K, V)>) {
    forall i, j :: 0 <= i < j < |d| ==> d[i].0 != d[j].0
  }

  /** The position of the first binding of `k` at or after `from`. */
  function KeyIndexFrom<K(==), V>(d: seq<(K, V)>, k: K, from: nat): (r: Option<nat>)
    requires from <= |d|
    ensures r.None? ==> forall j :: from <= j < |d| ==> d[j].0 != k
    ensures r.Some? ==> from <= r.value < |d| && d[r.value].0 == k && forall j :: from <= j < r.value ==> d[j].0 != k
    decreases |d| - from
  {
    if from == |d| then None
    else if d[from].0 == k then Some(from)
    else KeyIndexFrom(d, k, from + 1)
  }

  /** The position of the first binding of `k`. */
  function KeyIndex<K(==), V>(d: seq<(K, V)>, k: K): (r: Option<nat>)
    ensures r.None? <==> k !in Keys(d)
    ensures r.Some? ==> r.value < |d| && d[r.value].0 == k && forall j :: 0 <= j < r.value ==> d[j].0 != k
  {
    var r := KeyIndexFrom(d, k, 0);
    if r.Some? then
      assert Keys(d)[r.value] == k;
      r
    else
      assert forall j :: 0 <= j < |d| ==> Keys(d)[j] != k;
      r
  }

  /** `d.get(k)`. */
  function Lookup<K(==), V>(d: seq<(K, V)>, k: K): (r: Option<V>)
    ensures r.Some? <==> k in Keys(d)
    ensures r.Some? ==> (k, r.value) in d
    ensures KeysDistinct(d) ==> forall i :: 0 <= i < |d| && d[i].0 == k ==> r == Some(d[i].1)
  {
    match KeyIndex(d, k)
    case None => None
    case Some(i) => Some(d[i].1)
  }

  /** The first binding of a key depends only on the key order. */
  lemma KeyIndexByKeys<K, V>(a: seq<(K, V)>, b: seq<(K, V)>, k: K)
    requires Keys(a) == Keys(b)
    ensures KeyIndex(a, k) == KeyIndex(b, k)
  {
    var ia, ib := KeyIndex(a, k), KeyIndex(b, k);
    assert k in Keys(a) <==> k in Keys(b);
    if ia.Some? && ib.Some? {
      assert a[ib.value].0 == Keys(b)[ib.value];
      assert b[ia.value].0 == Keys(a)[ia.value];
    }
  }

  /** `d[k] = v`: an existing key keeps its place and takes the new value;
      a new key goes at the end. */
  function Put<K(==), V>(d: seq<(K, V)>, k: K, v: V): (r: seq<(K, V)>)
    ensures k in Keys(d) ==> Keys(r) == Keys(d)
    ensures k !in Keys(d) ==> r == d + [(k, v)] && Keys(r) == Keys(d) + [k]
    ensures KeysDistinct(d) ==> KeysDistinct(r)
    ensures Lookup(r, k) == Some(v)
  {
    match KeyIndex(d, k)
    case None =>
      var r := d + [(k, v)];
      assert Keys(r) == Keys(d) + [k];
      r
    case Some(i) =>
      var r := d[i := (k, v)];
      assert Keys(r) == Keys(d);
      KeyIndexByKeys(r, d, k);
      r
  }

  /** Putting one key leaves every other key's binding alone. */
  lemma PutLeavesOthers<K, V>(d: seq<(K, V)>, k: K, v: V, k': K)
    requires k' != k
    ensures Lookup(Put(d, k, v), k') == Lookup(d, k')
  {
    if k in Keys(d) {
      KeyIndexByKeys(Put(d, k, v), d, k');
    } else {
      AppendLeavesOthers(d, k, v, k');
    }
  }

  /** Appending a binding for a new key leaves every other key's first
      binding where it was. */
  lemma AppendLeavesOthers<K, V>(d: seq<(K, V)>, k: K, v: V, k': K)
    requires k' != k
    ensures KeyIndex(d + [(k, v)], k') == KeyIndex(d, k')
  {
    var r := d + [(k, v)];
    match KeyIndex(d, k')
    case None =>
      assert Keys(r) == Keys(d) + [k];
    case Some(i) =>
      assert r[i] == d[i];
      var j := KeyIndex(r, k').value;
      assert j < |d| && r[j] == d[j];
  }

  /** Assigning the same value to a key twice is assigning it once. */
  lemma PutIdempotent<K, V>(d: seq<(K, V)>, k: K, v: V)
    ensures Put(Put(d, k, v), k, v) == Put(d, k, v)
  {
    var r := Put(d, k, v);
    var i := KeyIndex(r, k).value;
    assert r[i] == (k, v);
    assert r[i := (k, v)] == r;
  }

  /** A dict comprehension over `items`: later bindings of a key overwrite
      earlier ones in place. */
  function DictOf<K(==, !new), V>(items: seq<(K, V)>): (r: seq<(K, V)>)
    ensures KeysDistinct(r)
    ensures forall k :: k in Keys(r) <==> k in Keys(items)
    decreases |items|
  {
    if |items| == 0 then []
    else
      var n := |items| - 1;
      var front := items[..n];
      assert forall i :: 0 <= i < n ==> front[i] == items[i];
      assert Keys(items) == Keys(front) + [items[n].0];
      Put(DictOf(front), items[n].0, items[n].1)
  }

  /** In a dict comprehension the last binding of each key wins. */
  lemma DictOfLastWins<K(!new), V>(items: seq<(K, V)>, i: nat)
    requires i < |items|
    requires forall j :: i < j < |items| ==> items[j].0 != items[i].0
    ensures Lookup(DictOf(items), items[i].0) == Some(items[i].1)
  {
    DictOfIsPutAll(items);
    PutAllLastWins([], items, i);
  }

  /** A list whose keys are already distinct is its own dict. */
  lemma {:induction false} DictOfDistinct<K(!new), V>(items: seq<(K, V)>)
    requires KeysDistinct(items)
    ensures DictOf(items) == items
    decreases |items|
  {
    if |items| > 0 {
      var n := |items| - 1;
      var front := items[..n];
      assert KeysDistinct(front) by {
        forall i, j | 0 <= i < j < n ensures front[i].0 != front[j].0 {
          assert front[i] == items[i] && front[j] == items[j];
        }
      }
      DictOfDistinct(front);
      assert items[n].0 !in Keys(front) by {
        forall i | 0 <= i < n ensures Keys(front)[i] != items[n].0 {
          assert Keys(front)[i] == items[i].0;
        }
      }
      assert front + [items[n]] == items;
    }
  }

  /** `d[k] = v` for each item in turn, onto an existing dict. */
  function PutAll<K(==), V>(d: seq<(K, V)>, items: seq<(K, V)>): (r: seq<(K, V)>)
    ensures KeysDistinct(d) ==> KeysDistinct(r)
    decreases |items|
  {
    if |items| == 0 then d
    else
      var n := |items| - 1;
      Put(PutAll(d, items[..n]), items[n].0, items[n].1)
  }

  /** A comprehension is a run of assignments onto the empty dict. */
  lemma {:induction false} DictOfIsPutAll<K(!new), V>(items: seq<(K, V)>)
    ensures DictOf(items) == PutAll([], items)
    decreases |items|
  {
    if |items| > 0 {
      DictOfIsPutAll(items[..|items| - 1]);
    }
  }

  /** After a run of assignments, a key holds the value of its last
      assignment. */
  lemma {:induction false} PutAllLastWins<K, V>(d: seq<(K, V)>, items: seq<(K, V)>, i: nat)
    requires i < |items|
    requires forall j :: i < j < |items| ==> items[j].0 != items[i].0
    ensures Lookup(PutAll(d, items), items[i].0) == Some(items[i].1)
    decreases |items|
  {
    var n := |items| - 1;
    var front := items[..n];
    var k, v := items[i].0, items[i].1;
    var before := PutAll(d, front);
    assert PutAll(d, items) == Put(before, items[n].0, items[n].1);
    if i < n {
      assert front[i] == items[i];
      assert forall j :: i < j < n ==> front[j] == items[j];
      PutAllLastWins(d, front, i);
      assert items[n].0 != k;
      PutLeavesOthers(before, items[n].0, items[n].1, k);
      assert Lookup(Put(before, items[n].0, items[n].1), k) == Some(v);
    } else {
      assert i == n;
      assert Lookup(Put(before, items[n].0, items[n].1), k) == Some(v);
    }
  }

  /** A key no item assigns keeps its value. */
  lemma {:induction false} PutAllLeavesOthers<K, V>(d: seq<(K, V)>, items: seq<(K, V)>, k: K)
    requires forall j :: 0 <= j < |items| ==> items[j].0 != k
    ensures Lookup(PutAll(d, items), k) == Lookup(d, k)
    decreases |items|
  {
    if |items| > 0 {
      var n := |items| - 1;
      var front := items[..n];
      assert forall j :: 0 <= j < n ==> front[j] == items[j];
      PutAllLeavesOthers(d, front, k);
      PutLeavesOthers(PutAll(d, front), items[n].0, items[n].1, k);
    }
  }
}
