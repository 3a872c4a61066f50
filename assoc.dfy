/**
 * Insertion-ordered key/value lists. A Ruby Hash keeps its keys in the order
 * they were first stored and replaces the value of a key that is stored
 * again; this module gives that model and the raw-key ordering that
 * `sort_by { |key, _value| key }` applies. The same lists stand for Tika's
 * Metadata object, whose `names` really come back in the order of its
 * internal hash table; insertion order is the model's choice for it.
 */
module Assoc {
  import opened Wrappers

  /** The keys, in storage order. */
  function Keys<K, V>(m: seq<(K, V)>): (ks: seq<K>)
    ensures |ks| == |m|
    ensures forall i :: 0 <= i < |m| ==> ks[i] == m[i].0
  {
    if m == [] then [] else [m[0].0] + Keys(m[1..])
  }

  /** `m[k]`: the value stored under `k`, or nil. */
  function Lookup<K(==), V>(m: seq<(K, V)>, k: K): Option<V>
  {
    if m == [] then None
    else if m[0].0 == k then Some(m[0].1)
    else Lookup(m[1..], k)
  }

  /** No key occurs twice: the shape of every Hash and Metadata. */
  predicate UniqueKeys<K(==), V>(m: seq<(K, V)>)
  {
    m == [] || (Lookup(m[1..], m[0].0).None? && UniqueKeys(m[1..]))
  }

  /** `m[k] = v`: overwrite in place when `k` is present, append otherwise. */
  function Put<K(==,!new), V>(m: seq<(K, V)>, k: K, v: V): (r: seq<(K, V)>)
    ensures Lookup(r, k) == Some(v)
    ensures forall k' :: k' != k ==> Lookup(r, k') == Lookup(m, k')
    ensures Lookup(m, k).None? ==> r == m + [(k, v)]
    ensures Lookup(m, k).Some? ==> Keys(r) == Keys(m)
    ensures UniqueKeys(m) ==> UniqueKeys(r)
  {
    if m == [] then [(k, v)]
    else if m[0].0 == k then [(k, v)] + m[1..]
    else
      var rest := Put(m[1..], k, v);
      assert ([m[0]] + rest)[1..] == rest;
      assert Lookup(m, k).None? ==> [m[0]] + (m[1..] + [(k, v)]) == m + [(k, v)];
      [m[0]] + rest
  }

  /** A store keeps the existing keys in their order and appends the key
      only when it is new. */
  lemma PutKeyOrder<K(!new), V>(m: seq<(K, V)>, k: K, v: V)
    ensures Keys(Put(m, k, v)) == Keys(m) + (if Lookup(m, k).None? then [k] else [])
  {
    if Lookup(m, k).None? {
      assert Keys(m + [(k, v)]) == Keys(m) + [k];
    }
  }

  /** The stores `ps` applied one after another to `m`. */
  function PutAll<K(==,!new), V>(m: seq<(K, V)>, ps: seq<(K, V)>): (r: seq<(K, V)>)
    ensures UniqueKeys(m) ==> UniqueKeys(r)
    ensures forall k :: Lookup(ps, k).None? ==> Lookup(r, k) == Lookup(m, k)
    decreases |ps|
  {
    if ps == [] then m else PutAll(Put(m, ps[0].0, ps[0].1), ps[1..])
  }

  /** In a list with unique keys, looking up the key of entry `i` finds entry `i`. */
  lemma {:induction false} LookupAt<K, V>(m: seq<(K, V)>, i: nat)
    requires UniqueKeys(m) && i < |m|
    ensures Lookup(m, m[i].0) == Some(m[i].1)
  {
    if i > 0 {
      LookupAt(m[1..], i - 1);
      assert m[1..][i - 1] == m[i];
      assert m[0].0 != m[i].0;
    }
  }

  /** In a list with unique keys, the key of entry `i` is absent from the entries before it. */
  lemma {:induction false} AbsentBefore<K, V>(m: seq<(K, V)>, i: nat)
    requires UniqueKeys(m) && i < |m|
    ensures Lookup(m[..i], m[i].0).None?
  {
    if i > 0 {
      AbsentBefore(m[1..], i - 1);
      assert m[1..][i - 1] == m[i];
      assert m[1..][..i - 1] == m[..i][1..];
      LookupAt(m[1..], i - 1);
      assert m[0].0 != m[i].0;
    }
  }

  // ---------------------------------------------------------------------
  // Raw key order: Ruby's String#<=> compares code units one by one, a
  // proper prefix coming first. It does NOT fold case.

  /** `a <= b` in raw string order. */
  predicate KeyLe(a: string, b: string)
  {
    a == [] || (b != [] && (a[0] < b[0] || (a[0] == b[0] && KeyLe(a[1..], b[1..]))))
  }

  lemma {:induction false} KeyLeTotal(a: string, b: string)
    ensures KeyLe(a, b) || KeyLe(b, a)
  {
    if a != [] && b != [] && a[0] == b[0] {
      KeyLeTotal(a[1..], b[1..]);
    }
  }

  lemma {:induction false} KeyLeTransitive(a: string, b: string, c: string)
    requires KeyLe(a, b) && KeyLe(b, c)
    ensures KeyLe(a, c)
  {
    if a != [] && a[0] == b[0] && b[0] == c[0] {
      KeyLeTransitive(a[1..], b[1..], c[1..]);
    }
  }

  lemma {:induction false} KeyLeAntisymmetric(a: string, b: string)
    requires KeyLe(a, b) && KeyLe(b, a)
    ensures a == b
  {
    if a != [] {
      KeyLeAntisymmetric(a[1..], b[1..]);
      assert a == [a[0]] + a[1..] && b == [b[0]] + b[1..];
    }
  }

  /** Keys in non-decreasing raw order. */
  predicate SortedByKey<V>(m: seq<(string, V)>)
  {
    forall i, j | 0 <= i < j < |m| :: KeyLe(m[i].0, m[j].0)
  }

  /** Inserts `p` before the first entry whose key it does not exceed. */
  function InsertByKey<V>(p: (string, V), s: seq<(string, V)>): seq<(string, V)>
  {
    if s == [] then [p]
    else if KeyLe(p.0, s[0].0) then [p] + s
    else [s[0]] + InsertByKey(p, s[1..])
  }

  /** `m.sort_by { |key, _value| key }`, as an insertion sort. */
  function SortByKey<V>(m: seq<(string, V)>): seq<(string, V)>
  {
    if m == [] then [] else InsertByKey(m[0], SortByKey(m[1..]))
  }

  lemma {:induction false} InsertByKeyPermutes<V>(p: (string, V), s: seq<(string, V)>)
    ensures multiset(InsertByKey(p, s)) == multiset(s) + multiset{p}
  {
    if s != [] && !KeyLe(p.0, s[0].0) {
      InsertByKeyPermutes(p, s[1..]);
      assert s == [s[0]] + s[1..];
    }
  }

  lemma {:induction false} InsertByKeySorted<V>(p: (string, V), s: seq<(string, V)>)
    requires SortedByKey(s)
    ensures SortedByKey(InsertByKey(p, s))
  {
    if s == [] {
    } else if KeyLe(p.0, s[0].0) {
      var r := [p] + s;
      forall i, j | 0 <= i < j < |r| ensures KeyLe(r[i].0, r[j].0) {
        if i == 0 && j > 1 { KeyLeTransitive(p.0, s[0].0, s[j - 1].0); }
      }
    } else {
      var t := InsertByKey(p, s[1..]);
      InsertByKeySorted(p, s[1..]);
      InsertByKeyPermutes(p, s[1..]);
      KeyLeTotal(p.0, s[0].0);
      var r := [s[0]] + t;
      forall i, j | 0 <= i < j < |r| ensures KeyLe(r[i].0, r[j].0) {
        if i == 0 {
          assert t[j - 1] in multiset(s[1..]) + multiset{p};
          if t[j - 1] != p {
            assert t[j - 1] in s[1..];
            var k :| 0 <= k < |s[1..]| && s[1..][k] == t[j - 1];
            assert s[k + 1] == t[j - 1];
          }
        }
      }
    }
  }

  /** Inserting an entry whose key is new behaves, for lookups, like putting it in front. */
  lemma {:induction false} InsertByKeyLookup<V>(p: (string, V), s: seq<(string, V)>)
    requires Lookup(s, p.0).None?
    ensures forall k :: Lookup(InsertByKey(p, s), k) == Lookup([p] + s, k)
    ensures UniqueKeys(s) ==> UniqueKeys(InsertByKey(p, s))
  {
    if s != [] && !KeyLe(p.0, s[0].0) {
      var t := InsertByKey(p, s[1..]);
      InsertByKeyLookup(p, s[1..]);
      assert ([s[0]] + t)[1..] == t;
      assert ([p] + s[1..])[1..] == s[1..];
      assert ([p] + s)[1..] == s;
    }
  }

  /** Sorting orders the keys, only permutes the entries, and keeps every lookup. */
  lemma {:induction false} SortByKeyCorrect<V>(m: seq<(string, V)>)
    ensures SortedByKey(SortByKey(m))
    ensures multiset(SortByKey(m)) == multiset(m)
    ensures UniqueKeys(m) ==> UniqueKeys(SortByKey(m))
    ensures UniqueKeys(m) ==> forall k :: Lookup(SortByKey(m), k) == Lookup(m, k)
  {
    if m != [] {
      var t := SortByKey(m[1..]);
      SortByKeyCorrect(m[1..]);
      InsertByKeySorted(m[0], t);
      InsertByKeyPermutes(m[0], t);
      assert m == [m[0]] + m[1..];
      if UniqueKeys(m) {
        assert Lookup(t, m[0].0).None?;
        InsertByKeyLookup(m[0], t);
        forall k ensures Lookup(SortByKey(m), k) == Lookup(m, k) {
          assert ([m[0]] + t)[1..] == t;
        }
      }
    }
  }

  /** The raw order puts every upper-case ASCII key before every lower-case
      one: "B" sorts before "a", where a case-insensitive sort would put "a" first. */
  lemma RawKeyOrderIsCaseSensitive<V>(x: V, y: V)
    ensures SortByKey([("a", x), ("B", y)]) == [("B", y), ("a", x)]
    ensures KeyLe("B", "a") && !KeyLe("a", "B")
  {
    var m := [("a", x), ("B", y)];
    assert m[1..] == [("B", y)];
    assert SortByKey(m[1..]) == [("B", y)] by {
      assert m[1..][1..] == [];
    }
    assert !KeyLe("a", "B");
    assert InsertByKey(("a", x), [("B", y)]) == [("B", y)] + InsertByKey(("a", x), []);
  }
}
