/** A query string as the ordered list of name/value pairs that
    `URLSearchParams` keeps, with its `get` and `set` operations.
    Percent-encoding of the final text is not modelled. */
module UrlParams {
  import opened FlightTypes
  import Seqs

  type Query = seq<(string, string)>

  function Keys(q: Query): (ks: seq<string>)
    ensures |ks| == |q| && forall i :: 0 <= i < |q| ==> ks[i] == q[i].0
  {
    if q == [] then [] else [q[0].0] + Keys(q[1..])
  }

  /** `params.get(key)`: the value of the first pair with that name. */
  function Get(q: Query, key: string): (v: Option<string>)
    ensures v.None? <==> key !in Keys(q)
    ensures v.Some? ==> q[Seqs.FirstIndex(Keys(q), key)] == (key, v.value)
  {
    if q == [] then None
    else if q[0].0 == key then Some(q[0].1)
    else
      var rest := Get(q[1..], key);
      assert Keys(q)[1..] == Keys(q[1..]);
      assert rest.Some? ==> Seqs.FirstIndex(Keys(q), key) == 1 + Seqs.FirstIndex(Keys(q[1..]), key);
      rest
  }

  lemma {:induction false} GetAppend(a: Query, b: Query, key: string)
    ensures Get(a + b, key) == if key in Keys(a) then Get(a, key) else Get(b, key)
  {
    if a != [] {
      assert (a + b)[1..] == a[1..] + b;
      assert Keys(a)[1..] == Keys(a[1..]);
      GetAppend(a[1..], b, key);
    } else {
      assert a + b == b;
    }
  }

  /** The pairs of `q` whose name is not `key`, in order. */
  function Without(q: Query, key: string): (r: Query)
    ensures key !in Keys(r)
    ensures forall k :: k != key ==> Get(r, k) == Get(q, k)
  {
    if q == [] then []
    else if q[0].0 == key then Without(q[1..], key)
    else [q[0]] + Without(q[1..], key)
  }

  /** `params.set(key, value)`: the first pair with that name gets the new
      value and the later ones are removed; with no such pair, one is
      appended. */
  function Set(q: Query, key: string, value: string): (r: Query)
    ensures key !in Keys(q) ==> r == q + [(key, value)]
    ensures Get(r, key) == Some(value)
    ensures forall k :: k != key ==> Get(r, k) == Get(q, k)
  {
    if key in Keys(q) then
      var i := Seqs.FirstIndex(Keys(q), key);
      var r := q[..i] + [(key, value)] + Without(q[i + 1..], key);
      SetProperties(q, key, value, i);
      r
    else
      GetAppend(q, [(key, value)], key);
      forall k | k != key ensures Get(q + [(key, value)], k) == Get(q, k) {
        GetAppend(q, [(key, value)], k);
      }
      q + [(key, value)]
  }

  lemma SplitAt(q: Query, i: nat)
    requires i < |q|
    ensures q == q[..i] + [q[i]] + q[i + 1..]
  {
  }

  lemma KeysAppend(a: Query, b: Query)
    ensures Keys(a + b) == Keys(a) + Keys(b)
  {
    var l, r := Keys(a + b), Keys(a) + Keys(b);
    assert |l| == |r|;
    forall i | 0 <= i < |l| ensures l[i] == r[i] {
      if i < |a| {
        assert (a + b)[i] == a[i];
      } else {
        assert (a + b)[i] == b[i - |a|];
      }
    }
  }

  /** Looking up a name that is not the middle pair's skips that pair. */
  lemma {:induction false} GetAround(pre: Query, p: (string, string), rest: Query, k: string)
    requires p.0 != k
    ensures Get(pre + [p] + rest, k) == if k in Keys(pre) then Get(pre, k) else Get(rest, k)
  {
    assert pre + [p] + rest == pre + ([p] + rest);
    GetAppend(pre, [p] + rest, k);
    assert ([p] + rest)[1..] == rest;
  }

  lemma {:induction false} SetProperties(q: Query, key: string, value: string, i: nat)
    requires key in Keys(q) && i == Seqs.FirstIndex(Keys(q), key)
    ensures Get(q[..i] + [(key, value)] + Without(q[i + 1..], key), key) == Some(value)
    ensures forall k :: k != key ==>
      Get(q[..i] + [(key, value)] + Without(q[i + 1..], key), k) == Get(q, k)
  {
    var pre, w := q[..i], Without(q[i + 1..], key);
    SetFound(q, key, value, i);
    forall k | k != key
      ensures Get(pre + [(key, value)] + w, k) == Get(q, k)
    {
      SetOther(q, key, value, i, k);
    }
  }

  /** After `set`, the name reads back as the new value. */
  lemma SetFound(q: Query, key: string, value: string, i: nat)
    requires key in Keys(q) && i == Seqs.FirstIndex(Keys(q), key)
    ensures Get(q[..i] + [(key, value)] + Without(q[i + 1..], key), key) == Some(value)
  {
    PrefixBeforeKey(q, key, i);
    GetAtMiddle(q[..i], (key, value), Without(q[i + 1..], key));
  }

  /** A pair whose name the pairs before it lack is the one `get` finds. */
  lemma GetAtMiddle(pre: Query, p: (string, string), rest: Query)
    requires p.0 !in Keys(pre)
    ensures Get(pre + [p] + rest, p.0) == Some(p.1)
  {
    assert pre + [p] + rest == pre + ([p] + rest);
    GetAppend(pre, [p] + rest, p.0);
  }

  /** The pairs before the first `key` do not hold `key`. */
  lemma PrefixBeforeKey(q: Query, key: string, i: nat)
    requires key in Keys(q) && i == Seqs.FirstIndex(Keys(q), key)
    ensures key !in Keys(q[..i])
  {
    var pre := q[..i];
    forall j | 0 <= j < |pre| ensures Keys(pre)[j] != key {
      assert Keys(pre)[j] == Keys(q)[j];
    }
  }

  lemma SetOther(q: Query, key: string, value: string, i: nat, k: string)
    requires key in Keys(q) && i == Seqs.FirstIndex(Keys(q), key) && k != key
    ensures Get(q[..i] + [(key, value)] + Without(q[i + 1..], key), k) == Get(q, k)
  {
    var pre, w := q[..i], Without(q[i + 1..], key);
    SplitAt(q, i);
    assert q[i].0 == key;
    GetAround(pre, (key, value), w, k);
    GetAround(pre, q[i], q[i + 1..], k);
  }
}
