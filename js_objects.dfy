/** The two JavaScript containers the dashboard fills while it scans the
    transactions: a plain object used as a string-keyed dictionary, and a
    `Set`.  Both remember insertion order, which is the order
    `Object.entries` and `Array.from` report. */
module JsObjects {
  import opened Wrappers

  predicate Distinct<K(==)>(s: seq<K>) {
    forall i, j :: 0 <= i < j < |s| ==> s[i] != s[j]
  }

  /** The index of the first occurrence of `x` in `s`. */
  function FirstIndex<K(==)>(s: seq<K>, x: K): (i: nat)
    requires x in s
    ensures i < |s| && s[i] == x && x !in s[..i]
  {
    if s[0] == x then 0 else 1 + FirstIndex(s[1..], x)
  }

  /** `set.add(x)` on a JavaScript `Set` held as its insertion-ordered elements. */
  function SetAdd<K(==,!new)>(s: seq<K>, x: K): (r: seq<K>)
    ensures Distinct(s) ==> Distinct(r)
    ensures forall y :: y in r <==> y in s || y == x
    ensures x in s ==> r == s
  {
    if x in s then s else s + [x]
  }

  /** The `Set` obtained by adding the elements of `s` one after another:
      each distinct element once, at the place it was first added. */
  function Dedup<K(==,!new)>(s: seq<K>): seq<K> {
    if s == [] then [] else SetAdd(Dedup(s[..|s| - 1]), s[|s| - 1])
  }

  lemma DedupAppend<K(!new)>(s: seq<K>, x: K)
    ensures Dedup(s + [x]) == SetAdd(Dedup(s), x)
  {
    assert (s + [x])[..|s|] == s;
  }

  /** A Set built by successive `add`s holds each added element exactly once. */
  lemma {:induction false} DedupElements<K(!new)>(s: seq<K>)
    ensures Distinct(Dedup(s))
    ensures forall x :: x in Dedup(s) <==> x in s
  {
    if s != [] {
      var p := s[..|s| - 1];
      DedupElements(p);
      assert s == p + [s[|s| - 1]];
    }
  }

  lemma {:induction false} FirstIndexOfExtension<K>(s: seq<K>, x: K, y: K)
    requires y in s
    ensures y in s + [x] && FirstIndex(s + [x], y) == FirstIndex(s, y)
  {
    if s[0] != y {
      assert (s + [x])[1..] == s[1..] + [x];
      FirstIndexOfExtension(s[1..], x, y);
    }
  }

  /** ... and lists them in the order of their first addition. */
  lemma {:induction false} DedupOrder<K(!new)>(s: seq<K>)
    ensures forall i, j :: 0 <= i < j < |Dedup(s)| ==>
      Dedup(s)[i] in s && Dedup(s)[j] in s &&
      FirstIndex(s, Dedup(s)[i]) < FirstIndex(s, Dedup(s)[j])
  {
    DedupElements(s);
    if s != [] {
      var p, x := s[..|s| - 1], s[|s| - 1];
      assert s == p + [x];
      DedupOrder(p);
      DedupElements(p);
      var d := Dedup(p);
      forall y | y in d
        ensures y in s && FirstIndex(s, y) == FirstIndex(p, y) < |p|
      {
        FirstIndexOfExtension(p, x, y);
      }
      if x !in d {
        assert forall i :: 0 <= i < |p| ==> s[i] == p[i];
      }
    }
  }

  /** In a duplicate-free list an element's first index is its index. */
  lemma DistinctFirstIndex<K>(s: seq<K>, j: nat)
    requires Distinct(s) && j < |s|
    ensures FirstIndex(s, s[j]) == j
  {
  }

  /** Two elements first seen in one order are kept by `Dedup` in that order. */
  lemma DedupKeepsOrder<K(!new)>(s: seq<K>, a: K, b: K)
    requires a in s && b in s && FirstIndex(s, a) < FirstIndex(s, b)
    ensures a in Dedup(s) && b in Dedup(s)
    ensures FirstIndex(Dedup(s), a) < FirstIndex(Dedup(s), b)
  {
    DedupElements(s);
    var x, y := FirstIndex(Dedup(s), a), FirstIndex(Dedup(s), b);
    if y < x {
      DedupOrderAt(s, y, x);
    }
  }

  lemma DedupOrderAt<K(!new)>(s: seq<K>, i: nat, j: nat)
    requires i < j < |Dedup(s)|
    ensures Dedup(s)[i] in s && Dedup(s)[j] in s
    ensures FirstIndex(s, Dedup(s)[i]) < FirstIndex(s, Dedup(s)[j])
  {
    DedupOrder(s);
  }

  /** A duplicate-free list has as many elements as the set it holds. */
  lemma {:induction false} DistinctCardinality<K(!new)>(s: seq<K>)
    requires Distinct(s)
    ensures |set x | x in s| == |s|
  {
    if s != [] {
      var p, x := s[..|s| - 1], s[|s| - 1];
      assert Distinct(p) by {
        forall i, j | 0 <= i < j < |p| ensures p[i] != p[j] {
          assert s[i] == p[i] && s[j] == p[j];
        }
      }
      DistinctCardinality(p);
      forall i | 0 <= i < |p| ensures p[i] != x {
        assert s[i] == p[i];
      }
      assert (set y | y in s) == (set y | y in p) + {x};
    }
  }

  /** Removing duplicates leaves as many elements as there are distinct ones. */
  lemma DedupCardinality<K(!new)>(s: seq<K>)
    ensures |Dedup(s)| == |set x | x in s|
  {
    DedupElements(s);
    DistinctCardinality(Dedup(s));
    assert (set x | x in Dedup(s)) == (set x | x in s);
  }

  /** A plain object used as a dictionary: its keys in insertion order and
      the value stored under each. */
  datatype Dict<V> = Dict(keys: seq<string>, vals: map<string, V>)

  ghost predicate Valid<V>(d: Dict<V>) {
    Distinct(d.keys) && forall k :: k in d.vals <==> k in d.keys
  }

  function Empty<V>(): (d: Dict<V>)
    ensures Valid(d) && d.keys == []
  {
    Dict([], map[])
  }

  /** `obj[k] = v`: a new key goes to the end of the insertion order, an
      existing key keeps its place. */
  function Put<V>(d: Dict<V>, k: string, v: V): (r: Dict<V>)
    requires Valid(d)
    ensures Valid(r)
    ensures r.keys == SetAdd(d.keys, k)
    ensures k in r.vals && r.vals[k] == v
    ensures forall k' :: k' != k ==> (k' in r.vals <==> k' in d.vals)
    ensures forall k' :: k' != k && k' in d.vals ==> r.vals[k'] == d.vals[k']
  {
    Dict(SetAdd(d.keys, k), d.vals[k := v])
  }

  /** `obj[k] = (obj[k] || 0) + x`. */
  function AddTo(d: Dict<nat>, k: string, x: nat): (r: Dict<nat>)
    requires Valid(d)
    ensures Valid(r)
  {
    Put(d, k, (if k in d.vals then d.vals[k] else 0) + x)
  }

  /** `Object.entries(obj)`: the key/value pairs in insertion order. */
  function Entries<V>(d: Dict<V>): (es: seq<(string, V)>)
    requires Valid(d)
    ensures |es| == |d.keys|
    ensures forall i :: 0 <= i < |es| ==> es[i].0 == d.keys[i] && es[i].1 == d.vals[d.keys[i]]
  {
    seq(|d.keys|, i requires 0 <= i < |d.keys| => (d.keys[i], d.vals[d.keys[i]]))
  }

  /** The sum of the values of a dictionary of totals, in insertion order. */
  function SumOver(ks: seq<string>, m: map<string, nat>): nat
    requires forall k :: k in ks ==> k in m
  {
    if ks == [] then 0 else SumOver(ks[..|ks| - 1], m) + m[ks[|ks| - 1]]
  }

  function SumValues(d: Dict<nat>): nat
    requires Valid(d)
  {
    SumOver(d.keys, d.vals)
  }

  /** Values under keys that are not listed do not affect the sum. */
  lemma {:induction false} SumOverIgnoresOthers(ks: seq<string>, m: map<string, nat>, m': map<string, nat>)
    requires forall k :: k in ks ==> k in m && k in m' && m[k] == m'[k]
    ensures SumOver(ks, m) == SumOver(ks, m')
  {
    if ks != [] {
      SumOverIgnoresOthers(ks[..|ks| - 1], m, m');
    }
  }

  /** Raising the value under one listed key by `x` raises the sum by `x`. */
  lemma {:induction false} SumOverBump(ks: seq<string>, m: map<string, nat>, k: string, x: nat)
    requires Distinct(ks) && k in ks
    requires forall k' :: k' in ks ==> k' in m
    ensures forall k' :: k' in ks ==> k' in m[k := m[k] + x]
    ensures SumOver(ks, m[k := m[k] + x]) == SumOver(ks, m) + x
  {
    var m' := m[k := m[k] + x];
    var p, last := ks[..|ks| - 1], ks[|ks| - 1];
    assert ks == p + [last];
    if last == k {
      forall i | 0 <= i < |p| ensures p[i] != k {
        assert ks[i] == p[i];
      }
      SumOverIgnoresOthers(p, m, m');
    } else {
      assert Distinct(p) by {
        forall i, j | 0 <= i < j < |p| ensures p[i] != p[j] {
          assert ks[i] == p[i] && ks[j] == p[j];
        }
      }
      SumOverBump(p, m, k, x);
    }
  }

  /** The bookkeeping step `obj[k] = (obj[k] || 0) + x` adds `x` to the sum of
      the values. */
  lemma AddToSum(d: Dict<nat>, k: string, x: nat)
    requires Valid(d)
    ensures SumValues(AddTo(d, k, x)) == SumValues(d) + x
  {
    var r := AddTo(d, k, x);
    if k in d.vals {
      SumOverBump(d.keys, d.vals, k, x);
    } else {
      assert r.keys == d.keys + [k];
      assert r.keys[..|r.keys| - 1] == d.keys;
      SumOverIgnoresOthers(d.keys, d.vals, r.vals);
    }
  }
}
