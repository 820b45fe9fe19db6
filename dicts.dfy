/**
 * Python dictionaries with string keys, as the library uses them for
 * regex group dictionaries, keyword arguments and instance attributes:
 * a sequence of (key, value) entries in insertion order. A well-formed
 * dictionary has distinct keys; assigning to a present key keeps its
 * position, assigning to a new key appends it, and removing a key drops it.
 */
module Dicts {
  import opened Common

  type Dict<V> = seq<(string, V)>

  predicate Distinct<V>(d: Dict<V>) {
    forall i, j :: 0 <= i < j < |d| ==> d[i].0 != d[j].0
  }

  /** The keys, in insertion order (`list(d)`). */
  function Keys<V>(d: Dict<V>): (ks: seq<string>)
    ensures |ks| == |d|
    ensures forall i :: 0 <= i < |d| ==> ks[i] == d[i].0
  {
    if d == [] then [] else [d[0].0] + Keys(d[1..])
  }

  /** `d.get(k)`: the value stored under k, None when k is absent. */
  function Lookup<V>(d: Dict<V>, k: string): (r: Option<V>)
    ensures r.None? <==> forall i :: 0 <= i < |d| ==> d[i].0 != k
    ensures r.Some? ==> exists i :: 0 <= i < |d| && d[i] == (k, r.value)
  {
    if d == [] then None
    else if d[0].0 == k then Some(d[0].1)
    else Lookup(d[1..], k)
  }

  /** In a dictionary with distinct keys, the entry at i is what k finds. */
  lemma {:induction false} LookupAt<V>(d: Dict<V>, i: nat)
    requires Distinct(d) && i < |d|
    ensures Lookup(d, d[i].0) == Some(d[i].1)
  {
    if i > 0 {
      assert d[1..][i - 1] == d[i];
      LookupAt(d[1..], i - 1);
    }
  }

  /** A key that is not among the keys is absent. */
  lemma LookupAbsent<V>(d: Dict<V>, k: string)
    requires k !in Keys(d)
    ensures Lookup(d, k).None?
  {
    forall i | 0 <= i < |d| ensures d[i].0 != k {
      assert d[i].0 == Keys(d)[i];
    }
  }

  /** `d[k] = v`. */
  function Put<V>(d: Dict<V>, k: string, v: V): (r: Dict<V>)
    ensures Lookup(r, k) == Some(v)
    ensures forall k' :: k' != k ==> Lookup(r, k') == Lookup(d, k')
    ensures Lookup(d, k).Some? ==> |r| == |d| && forall i :: 0 <= i < |d| ==> r[i].0 == d[i].0
    ensures Lookup(d, k).None? ==> r == d + [(k, v)]
  {
    if d == [] then [(k, v)]
    else if d[0].0 == k then [(k, v)] + d[1..]
    else [d[0]] + Put(d[1..], k, v)
  }

  /** Assignment keeps the keys distinct. */
  lemma PutDistinct<V>(d: Dict<V>, k: string, v: V)
    requires Distinct(d)
    ensures Distinct(Put(d, k, v))
  {
    var r := Put(d, k, v);
    forall i, j | 0 <= i < j < |r| ensures r[i].0 != r[j].0 {
      if Lookup(d, k).Some? {
        assert r[i].0 == d[i].0 && r[j].0 == d[j].0;
      } else if j == |d| {
        assert r[i] == d[i] && r[j] == (k, v);
      } else {
        assert r[i] == d[i] && r[j] == d[j];
      }
    }
  }

  /** `del d[k]` when k is present; nothing otherwise. */
  function Remove<V>(d: Dict<V>, k: string): (r: Dict<V>)
    ensures Lookup(r, k).None?
    ensures forall k' :: k' != k ==> Lookup(r, k') == Lookup(d, k')
    ensures forall i :: 0 <= i < |r| ==> r[i] in d
    ensures Distinct(d) ==> Distinct(r)
    ensures Lookup(d, k).None? ==> r == d
  {
    if d == [] then []
    else if d[0].0 == k then Remove(d[1..], k)
    else [d[0]] + Remove(d[1..], k)
  }

  /** Removing a key present once drops exactly one entry. */
  lemma {:induction false} RemoveCount<V>(d: Dict<V>, k: string)
    requires Distinct(d) && Lookup(d, k).Some?
    ensures |Remove(d, k)| == |d| - 1
  {
    assert d != [];
    if d[0].0 == k {
      assert Lookup(d[1..], k).None?;
    } else {
      assert Distinct(d[1..]);
      RemoveCount(d[1..], k);
    }
  }

  lemma SameKeys<V, W>(a: Dict<V>, b: Dict<W>)
    requires |a| == |b| && forall i :: 0 <= i < |a| ==> a[i].0 == b[i].0
    ensures Keys(a) == Keys(b)
  {
  }

  /** Two dictionaries with the same keys in the same places that agree on k look k up alike. */
  lemma {:induction false} LookupSame<V>(a: Dict<V>, b: Dict<V>, k: string)
    requires |a| == |b|
    requires forall i :: 0 <= i < |a| ==> a[i].0 == b[i].0
    requires forall i :: 0 <= i < |a| && a[i].0 == k ==> a[i].1 == b[i].1
    ensures Lookup(a, k) == Lookup(b, k)
  {
    if a != [] && a[0].0 != k {
      LookupSame(a[1..], b[1..], k);
    }
  }
}
