/** Sequence facts shared by the filter engine, the URL synchroniser and the
    price chart: duplicate-freedom, order-preserving sub-lists, and the
    first-appearance de-duplication that `Array.from(new Set(xs))` and a
    `Map`'s insertion order both perform. */
module Seqs {

  predicate NoDups<T(==)>(s: seq<T>) {
    forall i, j :: 0 <= i < j < |s| ==> s[i] != s[j]
  }

  /** `a` is `b` with some elements dropped and the rest kept in order. */
  predicate IsSubsequence<T(==)>(a: seq<T>, b: seq<T>)
    decreases |b|
  {
    if a == [] then true
    else if b == [] then false
    else if a[0] == b[0] then IsSubsequence(a[1..], b[1..])
    else IsSubsequence(a, b[1..])
  }

  lemma {:induction false} SubsequenceMembers<T>(a: seq<T>, b: seq<T>, x: T)
    requires IsSubsequence(a, b) && x in a
    ensures x in b
    decreases |b|
  {
    if a[0] == b[0] {
      if x != a[0] {
        assert x in a[1..];
        SubsequenceMembers(a[1..], b[1..], x);
      }
    } else {
      SubsequenceMembers(a, b[1..], x);
    }
  }

  /** Index of the first occurrence of `x`. */
  function FirstIndex<T(==)>(s: seq<T>, x: T): (i: nat)
    requires x in s
    ensures i < |s| && s[i] == x
    ensures forall j :: 0 <= j < i ==> s[j] != x
  {
    if s[0] == x then 0 else 1 + FirstIndex(s[1..], x)
  }

  lemma FirstIndexExtend<T>(s: seq<T>, y: T, x: T)
    requires x in s
    ensures x in s + [y] && FirstIndex(s + [y], x) == FirstIndex(s, x)
  {
    var i := FirstIndex(s, x);
    var k := FirstIndex(s + [y], x);
    assert (s + [y])[i] == x;
    assert k <= i;
    assert s[k] == (s + [y])[k];
  }

  /** The distinct elements of `s`, each at the place it first occurs. */
  function Dedup<T(==,!new)>(s: seq<T>): (r: seq<T>)
    ensures NoDups(r)
    ensures forall x :: x in r <==> x in s
    ensures |r| <= |s|
  {
    if s == [] then []
    else
      var r := Dedup(s[..|s| - 1]);
      var y := s[|s| - 1];
      assert forall x :: x in s <==> x in s[..|s| - 1] || x == y;
      if y in r then r else r + [y]
  }

  /** One element more at the end is kept when it is new. */
  lemma DedupAppend<T(!new)>(s: seq<T>, y: T)
    ensures Dedup(s + [y]) == if y in Dedup(s) then Dedup(s) else Dedup(s) + [y]
  {
    var t := s + [y];
    assert t[..|t| - 1] == s;
  }

  /** Dedup lists the elements in the order of their first occurrence. */
  lemma {:induction false} DedupFirstAppearance<T(!new)>(s: seq<T>)
    ensures forall i, j :: 0 <= i < j < |Dedup(s)| ==>
      FirstIndex(s, Dedup(s)[i]) < FirstIndex(s, Dedup(s)[j])
  {
    if s != [] {
      var p := s[..|s| - 1];
      var y := s[|s| - 1];
      assert s == p + [y];
      DedupFirstAppearance(p);
      var rp := Dedup(p);
      var r := Dedup(s);
      forall x | x in p ensures FirstIndex(s, x) == FirstIndex(p, x) {
        FirstIndexExtend(p, y, x);
      }
      if y !in rp {
        assert r == rp + [y];
        assert y !in p;
        assert FirstIndex(s, y) == |p|;
        forall i, j | 0 <= i < j < |r|
          ensures FirstIndex(s, r[i]) < FirstIndex(s, r[j])
        {
          assert r[i] == rp[i] && r[i] in p;
          if j < |rp| {
            assert r[j] == rp[j];
          }
        }
      }
    }
  }
}
