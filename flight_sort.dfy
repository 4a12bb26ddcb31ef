/** `sortFlights` and its duration key `toMinutes`
    (src/hooks/useFilteredFlights.ts). The list is copied into an array and
    the array is sorted in place with the three-way comparator; the sort is
    stable, as `Array.prototype.sort` is. */
module FlightSort {
  import opened Strings
  import opened FlightTypes
  import opened Patterns

  /* ---------------- Duration key ---------------- */

  /** `toMinutes`: 60 times the digits before the first matching `H`, plus
      the digits before the first matching `M`; a missing part counts 0. */
  function ToMinutes(d: string): nat {
    60 * CaptureValue(d, 'H') + CaptureValue(d, 'M')
  }

  /** Where the characters of "PT<h>H<m>M" sit. */
  lemma HoursMinutesLayout(hd: string, md: string)
    requires AllDigits(hd) && AllDigits(md)
    ensures var s := "PT" + hd + "H" + md + "M";
      && |s| == |hd| + |md| + 4
      && s[0] == 'P' && s[1] == 'T' && s[2 + |hd|] == 'H' && s[3 + |hd| + |md|] == 'M'
      && (forall j :: 2 <= j < 2 + |hd| ==> IsDigit(s[j]))
      && (forall j :: 3 + |hd| <= j < 3 + |hd| + |md| ==> IsDigit(s[j]))
      && s[2..2 + |hd|] == hd && s[3 + |hd|..3 + |hd| + |md|] == md
  {
    var s := "PT" + hd + "H" + md + "M";
    forall j | 2 <= j < 2 + |hd| ensures IsDigit(s[j]) { assert s[j] == hd[j - 2]; }
    forall j | 3 + |hd| <= j < 3 + |hd| + |md| ensures IsDigit(s[j]) { assert s[j] == md[j - 3 - |hd|]; }
  }

  lemma HoursCapture(hd: string, md: string)
    requires |hd| >= 1 && AllDigits(hd) && AllDigits(md)
    ensures Capture("PT" + hd + "H" + md + "M", 'H') == Some(hd)
  {
    var s := "PT" + hd + "H" + md + "M";
    HoursMinutesLayout(hd, md);
    assert GroupAt(s, 'H', 2, 2 + |hd|);
    forall i: nat, k: nat | i < 2 ensures !GroupAt(s, 'H', i, k) {
      assert !IsDigit(s[i]);
    }
    CaptureIsLeftmost(s, 'H', 2, 2 + |hd|);
  }

  lemma MinutesCapture(hd: string, md: string)
    requires |md| >= 1 && AllDigits(hd) && AllDigits(md)
    ensures Capture("PT" + hd + "H" + md + "M", 'M') == Some(md)
  {
    var s := "PT" + hd + "H" + md + "M";
    var a := 2 + |hd|;
    HoursMinutesLayout(hd, md);
    assert GroupAt(s, 'M', a + 1, a + 1 + |md|);
    forall i: nat, k: nat | i < a + 1 ensures !GroupAt(s, 'M', i, k) {
      if i < 2 || i == a {
        assert !IsDigit(s[i]);
      } else if k <= a {
        assert k < |s| ==> s[k] != 'M';
      } else {
        assert i <= a < k && !IsDigit(s[a]);
      }
    }
    CaptureIsLeftmost(s, 'M', a + 1, a + 1 + |md|);
  }

  /** "PT<h>H<m>M" is h hours and m minutes, for any digit texts h and m. */
  lemma ToMinutesHoursMinutes(hd: string, md: string)
    requires |hd| >= 1 && AllDigits(hd) && |md| >= 1 && AllDigits(md)
    ensures ToMinutes("PT" + hd + "H" + md + "M") == 60 * DigitsValue(hd) + DigitsValue(md)
  {
    HoursCapture(hd, md);
    MinutesCapture(hd, md);
  }

  /** "PT<m>M" is m minutes. */
  lemma ToMinutesMinutesOnly(md: string)
    requires |md| >= 1 && AllDigits(md)
    ensures ToMinutes("PT" + md + "M") == DigitsValue(md)
  {
    var s := "PT" + md + "M";
    var b := 2 + |md|;
    assert |s| == b + 1;
    assert s[0] == 'P' && s[1] == 'T' && s[b] == 'M';
    assert forall j :: 2 <= j < b ==> IsDigit(s[j]) by {
      forall j | 2 <= j < b ensures IsDigit(s[j]) { assert s[j] == md[j - 2]; }
    }
    forall i: nat, k: nat ensures !GroupAt(s, 'H', i, k) {
      if i < 2 {
        assert !IsDigit(s[i]);
      } else if k <= b {
        assert s[k] != 'H';
      }
    }
    CaptureAbsent(s, 'H');
    assert GroupAt(s, 'M', 2, b);
    forall i: nat, k: nat | i < 2 ensures !GroupAt(s, 'M', i, k) {
      assert !IsDigit(s[i]);
    }
    CaptureIsLeftmost(s, 'M', 2, b);
    assert s[2..b] == md;
  }

  /** A text with no digits at all counts as 0 minutes. */
  lemma ToMinutesNoDigits(s: string)
    requires forall i :: 0 <= i < |s| ==> !IsDigit(s[i])
    ensures ToMinutes(s) == 0
  {
    forall i: nat, k: nat ensures !GroupAt(s, 'H', i, k) && !GroupAt(s, 'M', i, k) {
      if i < |s| { assert !IsDigit(s[i]); }
    }
    CaptureAbsent(s, 'H');
    CaptureAbsent(s, 'M');
  }

  /** "PT2H30M" is 150 minutes. */
  lemma HoursMinutesExample()
    ensures ToMinutes("PT2H30M") == 150
  {
    ToMinutesHoursMinutes("2", "30");
    assert "PT" + "2" + "H" + "30" + "M" == "PT2H30M";
  }

  /** "PT45M" is 45 minutes. */
  lemma MinutesExample()
    ensures ToMinutes("PT45M") == 45
    ensures ToMinutes("PT") == 0
  {
    ToMinutesNoDigits("PT");
    ToMinutesMinutesOnly("45");
    assert "PT" + "45" + "M" == "PT45M";
  }

  /* ---------------- Comparator ---------------- */

  /** The value a flight is compared by. */
  datatype SortValue = Num(n: int) | Text(t: string)

  /** The key a flight is compared by; `epoch` stands for
      `new Date(text).getTime()`. */
  function SortValueOf(f: Flight, key: SortKey, epoch: string -> int): SortValue {
    match key
    case Price => Num(f.price)
    case Duration => Num(ToMinutes(f.duration))
    case Departure => Num(epoch(f.departureTime))
    case Airline => Text(f.airline)
  }

  /** The UTF-16 code units of one character: the character itself below
      U+10000, and its surrogate pair above. */
  function Utf16Units(c: char): (units: seq<int>)
    ensures c as int < 0x10000 ==> units == [c as int]
    ensures c as int >= 0x10000 ==> |units| == 2 && 0xD800 <= units[0] < 0xDC00 && 0xDC00 <= units[1] < 0xE000
  {
    if c as int < 0x10000 then [c as int]
    else [0xD800 + (c as int - 0x10000) / 0x400, 0xDC00 + (c as int - 0x10000) % 0x400]
  }

  /** A JavaScript string's code units: the UTF-16 encoding of its characters. */
  function Utf16(s: string): seq<int> {
    if s == [] then [] else Utf16Units(s[0]) + Utf16(s[1..])
  }

  /** Lexicographic order on code units, a proper prefix first. */
  predicate UnitsLess(a: seq<int>, b: seq<int>) {
    if |a| == 0 then |b| > 0
    else if |b| == 0 then false
    else if a[0] != b[0] then a[0] < b[0]
    else UnitsLess(a[1..], b[1..])
  }

  /** JavaScript's `<` on strings, which compares UTF-16 code units (so a
      character above U+FFFF sorts by its high surrogate). */
  predicate StringLess(a: string, b: string) {
    UnitsLess(Utf16(a), Utf16(b))
  }

  lemma {:induction false} UnitsLessIrreflexive(a: seq<int>)
    ensures !UnitsLess(a, a)
  {
    if |a| > 0 { UnitsLessIrreflexive(a[1..]); }
  }

  lemma {:induction false} UnitsLessTransitive(a: seq<int>, b: seq<int>, c: seq<int>)
    ensures UnitsLess(a, b) && UnitsLess(b, c) ==> UnitsLess(a, c)
  {
    if |a| > 0 && |b| > 0 && |c| > 0 && a[0] == b[0] && b[0] == c[0] {
      UnitsLessTransitive(a[1..], b[1..], c[1..]);
    }
  }

  lemma {:induction false} UnitsLessTotal(a: seq<int>, b: seq<int>)
    ensures a != b ==> UnitsLess(a, b) || UnitsLess(b, a)
  {
    if |a| > 0 && |b| > 0 && a[0] == b[0] {
      assert a == [a[0]] + a[1..] && b == [b[0]] + b[1..];
      UnitsLessTotal(a[1..], b[1..]);
    }
  }

  /** Two different characters differ in their first code unit, or are
      both surrogate pairs that differ in the second. */
  lemma UnitsDiffer(c: char, d: char)
    requires c != d
    ensures Utf16Units(c)[0] != Utf16Units(d)[0]
         || (c as int >= 0x10000 && d as int >= 0x10000 && Utf16Units(c)[1] != Utf16Units(d)[1])
  {
    if c as int >= 0x10000 && d as int >= 0x10000 {
      var p, q := c as int - 0x10000, d as int - 0x10000;
      assert p == (p / 0x400) * 0x400 + p % 0x400;
      assert q == (q / 0x400) * 0x400 + q % 0x400;
    }
  }

  /** The encodings of two different characters differ, whatever follows. */
  lemma UnitsOfDistinctChars(c: char, d: char, x: seq<int>, y: seq<int>)
    requires c != d
    ensures Utf16Units(c) + x != Utf16Units(d) + y
  {
    var cu, du := Utf16Units(c), Utf16Units(d);
    UnitsDiffer(c, d);
    assert (cu + x)[0] == cu[0] && (du + y)[0] == du[0];
    if c as int >= 0x10000 && d as int >= 0x10000 {
      assert (cu + x)[1] == cu[1] && (du + y)[1] == du[1];
    }
  }

  /** Different strings have different code units. */
  lemma {:induction false} Utf16Injective(a: string, b: string)
    requires a != b
    ensures Utf16(a) != Utf16(b)
  {
    if a == [] || b == [] {
    } else if a[0] == b[0] {
      assert a == [a[0]] + a[1..] && b == [b[0]] + b[1..];
      Utf16Injective(a[1..], b[1..]);
      var w := Utf16Units(a[0]);
      assert (w + Utf16(a[1..]))[|w|..] == Utf16(a[1..]);
      assert (w + Utf16(b[1..]))[|w|..] == Utf16(b[1..]);
    } else {
      UnitsOfDistinctChars(a[0], b[0], Utf16(a[1..]), Utf16(b[1..]));
    }
  }

  lemma StringLessIrreflexive(a: string)
    ensures !StringLess(a, a)
  {
    UnitsLessIrreflexive(Utf16(a));
  }

  lemma StringLessTransitive(a: string, b: string, c: string)
    ensures StringLess(a, b) && StringLess(b, c) ==> StringLess(a, c)
  {
    UnitsLessTransitive(Utf16(a), Utf16(b), Utf16(c));
  }

  lemma StringLessTotal(a: string, b: string)
    ensures a != b ==> StringLess(a, b) || StringLess(b, a)
  {
    if a != b {
      Utf16Injective(a, b);
      UnitsLessTotal(Utf16(a), Utf16(b));
    }
  }

  lemma StringLessAsymmetric(a: string, b: string)
    ensures !(StringLess(a, b) && StringLess(b, a))
  {
    StringLessTransitive(a, b, a);
    StringLessIrreflexive(a);
  }

  /** "Not greater" is transitive too. */
  lemma StringNotLessTransitive(x: string, y: string, z: string)
    ensures !StringLess(y, x) && !StringLess(z, y) ==> !StringLess(z, x)
  {
    StringLessTotal(x, y);
    StringLessTotal(y, z);
    StringLessTransitive(x, y, z);
    StringLessTransitive(x, z, x);
    StringLessIrreflexive(x);
  }

  /** Code-unit order is not code-point order: U+1F600 is above U+FF21, yet a
      name starting with it sorts first, by its high surrogate 0xD83D. */
  lemma SurrogateSortsFirst()
    ensures '\U{1F600}' as int > '\U{FF21}' as int
    ensures StringLess("\U{1F600}Air", "\U{FF21}ir")
  {
    var a, b := "\U{1F600}Air", "\U{FF21}ir";
    assert Utf16Units(a[0]) == [0xD83D, 0xDE00];
    assert Utf16(a) == [0xD83D, 0xDE00] + Utf16(a[1..]);
    assert Utf16(b) == [0xFF21] + Utf16(b[1..]);
  }

  predicate ValueLess(a: SortValue, b: SortValue) {
    match (a, b)
    case (Num(x), Num(y)) => x < y
    case (Text(x), Text(y)) => StringLess(x, y)
    case _ => false
  }

  /** The comparator handed to `sort`. */
  function Compare(sort: SortState, epoch: string -> int, a: Flight, b: Flight): int {
    var av := SortValueOf(a, sort.key, epoch);
    var bv := SortValueOf(b, sort.key, epoch);
    if ValueLess(av, bv) then (if sort.order == Asc then -1 else 1)
    else if ValueLess(bv, av) then (if sort.order == Asc then 1 else -1)
    else 0
  }

  /** The comparator is a total preorder whose ties are exactly the equal keys. */
  lemma CompareLaws(sort: SortState, epoch: string -> int, a: Flight, b: Flight, c: Flight)
    ensures Compare(sort, epoch, a, b) == 0 <==>
      SortValueOf(a, sort.key, epoch) == SortValueOf(b, sort.key, epoch)
    ensures Compare(sort, epoch, a, b) == -Compare(sort, epoch, b, a)
    ensures Compare(sort, epoch, a, b) <= 0 && Compare(sort, epoch, b, c) <= 0 ==>
      Compare(sort, epoch, a, c) <= 0
  {
    if sort.key == Airline {
      var x, y, z := a.airline, b.airline, c.airline;
      StringLessIrreflexive(x);
      StringLessTotal(x, y);
      StringLessAsymmetric(x, y);
      StringLessAsymmetric(y, z);
      StringLessAsymmetric(x, z);
      StringNotLessTransitive(x, y, z);
      StringNotLessTransitive(z, y, x);
    }
  }

  /* ---------------- Specification of the sort ---------------- */

  ghost predicate Sorted(sort: SortState, epoch: string -> int, s: seq<Flight>) {
    forall i, j :: 0 <= i < j < |s| ==> Compare(sort, epoch, s[i], s[j]) <= 0
  }

  /** The flights of `s` whose key is `v`, in their order in `s`. */
  function WithKey(sort: SortState, epoch: string -> int, s: seq<Flight>, v: SortValue): seq<Flight> {
    if s == [] then []
    else (if SortValueOf(s[0], sort.key, epoch) == v then [s[0]] else []) + WithKey(sort, epoch, s[1..], v)
  }

  lemma {:induction false} WithKeyAppend(sort: SortState, epoch: string -> int, a: seq<Flight>, b: seq<Flight>, v: SortValue)
    ensures WithKey(sort, epoch, a + b, v) == WithKey(sort, epoch, a, v) + WithKey(sort, epoch, b, v)
  {
    if a == [] {
      assert a + b == b;
    } else {
      assert (a + b)[1..] == a[1..] + b;
      WithKeyAppend(sort, epoch, a[1..], b, v);
    }
  }

  /** Insert `x` into `t` after every element that does not compare
      greater than it: one step of a stable insertion sort. */
  function Insert(sort: SortState, epoch: string -> int, t: seq<Flight>, x: Flight): seq<Flight> {
    if t == [] || Compare(sort, epoch, t[|t| - 1], x) <= 0 then t + [x]
    else Insert(sort, epoch, t[..|t| - 1], x) + [t[|t| - 1]]
  }

  /** The stable sort of `s`: insert its elements one by one. */
  function SortSpec(sort: SortState, epoch: string -> int, s: seq<Flight>): seq<Flight> {
    if s == [] then [] else Insert(sort, epoch, SortSpec(sort, epoch, s[..|s| - 1]), s[|s| - 1])
  }

  lemma {:induction false} InsertPermutes(sort: SortState, epoch: string -> int, t: seq<Flight>, x: Flight)
    ensures multiset(Insert(sort, epoch, t, x)) == multiset(t) + multiset{x}
  {
    if !(t == [] || Compare(sort, epoch, t[|t| - 1], x) <= 0) {
      InsertPermutes(sort, epoch, t[..|t| - 1], x);
      assert t == t[..|t| - 1] + [t[|t| - 1]];
    }
  }

  lemma {:induction false} InsertSorted(sort: SortState, epoch: string -> int, t: seq<Flight>, x: Flight)
    requires Sorted(sort, epoch, t)
    ensures Sorted(sort, epoch, Insert(sort, epoch, t, x))
  {
    var r := Insert(sort, epoch, t, x);
    if t == [] {
    } else if Compare(sort, epoch, t[|t| - 1], x) <= 0 {
      var last := t[|t| - 1];
      forall i, j | 0 <= i < j < |r| ensures Compare(sort, epoch, r[i], r[j]) <= 0 {
        if j == |t| && i < |t| - 1 {
          CompareLaws(sort, epoch, t[i], last, x);
        }
      }
    } else {
      var init, last := t[..|t| - 1], t[|t| - 1];
      var r0 := Insert(sort, epoch, init, x);
      assert Sorted(sort, epoch, init);
      InsertSorted(sort, epoch, init, x);
      InsertPermutes(sort, epoch, init, x);
      CompareLaws(sort, epoch, last, x, x);
      forall i, j | 0 <= i < j < |r| ensures Compare(sort, epoch, r[i], r[j]) <= 0 {
        if j == |r| - 1 {
          assert r[i] == r0[i] && r[i] in multiset(r0);
          if r[i] != x {
            assert r[i] in init;
          }
        }
      }
    }
  }

  lemma {:induction false} InsertWithKey(sort: SortState, epoch: string -> int, t: seq<Flight>, x: Flight, v: SortValue)
    ensures WithKey(sort, epoch, Insert(sort, epoch, t, x), v) ==
      WithKey(sort, epoch, t, v) + WithKey(sort, epoch, [x], v)
  {
    if t == [] || Compare(sort, epoch, t[|t| - 1], x) <= 0 {
      WithKeyAppend(sort, epoch, t, [x], v);
    } else {
      var init, last := t[..|t| - 1], t[|t| - 1];
      InsertWithKey(sort, epoch, init, x, v);
      InsertPastLast(sort, epoch, init, last, x, v);
      assert t == init + [last];
    }
  }

  /** The step of `InsertWithKey` where `x` moves in front of a last
      flight that sorts after it, so the two cannot share a key. */
  lemma InsertPastLast(sort: SortState, epoch: string -> int, init: seq<Flight>, last: Flight, x: Flight, v: SortValue)
    requires Compare(sort, epoch, last, x) > 0
    requires WithKey(sort, epoch, Insert(sort, epoch, init, x), v) ==
      WithKey(sort, epoch, init, v) + WithKey(sort, epoch, [x], v)
    ensures WithKey(sort, epoch, Insert(sort, epoch, init, x) + [last], v) ==
      WithKey(sort, epoch, init + [last], v) + WithKey(sort, epoch, [x], v)
  {
    WithKeyAppend(sort, epoch, Insert(sort, epoch, init, x), [last], v);
    WithKeyAppend(sort, epoch, init, [last], v);
    CompareLaws(sort, epoch, last, x, x);
    assert WithKey(sort, epoch, [x], v) == [] || WithKey(sort, epoch, [last], v) == [];
  }

  /** The specification sort is a permutation, ordered by the comparator,
      and stable: for every key value, the flights with that key keep
      their relative order. */
  lemma {:induction false} SortSpecCorrect(sort: SortState, epoch: string -> int, s: seq<Flight>)
    ensures multiset(SortSpec(sort, epoch, s)) == multiset(s)
    ensures Sorted(sort, epoch, SortSpec(sort, epoch, s))
    ensures forall v :: WithKey(sort, epoch, SortSpec(sort, epoch, s), v) == WithKey(sort, epoch, s, v)
  {
    if s != [] {
      var init, last := s[..|s| - 1], s[|s| - 1];
      assert s == init + [last];
      SortSpecCorrect(sort, epoch, init);
      InsertPermutes(sort, epoch, SortSpec(sort, epoch, init), last);
      InsertSorted(sort, epoch, SortSpec(sort, epoch, init), last);
      forall v ensures WithKey(sort, epoch, SortSpec(sort, epoch, s), v) == WithKey(sort, epoch, s, v) {
        InsertWithKey(sort, epoch, SortSpec(sort, epoch, init), last, v);
        WithKeyAppend(sort, epoch, init, [last], v);
      }
    }
  }

  /* ---------------- The in-place sort ---------------- */

  /** Moving `x` one place further left past an element that compares
      greater than it. */
  lemma InsertStepBack(sort: SortState, epoch: string -> int, t: seq<Flight>, j: nat, x: Flight)
    requires 0 < j <= |t| && Compare(sort, epoch, t[j - 1], x) > 0
    ensures Insert(sort, epoch, t[..j], x) + t[j..] == Insert(sort, epoch, t[..j - 1], x) + t[j - 1..]
  {
    assert t[..j][..j - 1] == t[..j - 1];
    assert t[j - 1..] == [t[j - 1]] + t[j..];
  }

  /** `x` stays where it is when the element before it does not exceed it. */
  lemma InsertStop(sort: SortState, epoch: string -> int, t: seq<Flight>, j: nat, x: Flight)
    requires j <= |t| && (j == 0 || Compare(sort, epoch, t[j - 1], x) <= 0)
    ensures Insert(sort, epoch, t[..j], x) == t[..j] + [x]
  {
  }

  /** Move `a[i]` left past every element of the prefix `a[..i]` that
      compares greater than it. */
  method InsertAt(a: array<Flight>, i: nat, sort: SortState, epoch: string -> int)
    requires i < a.Length
    modifies a
    ensures a[..i + 1] == Insert(sort, epoch, old(a[..i]), old(a[i]))
    ensures a[i + 1..] == old(a[i + 1..])
  {
    var x := a[i];
    ghost var t := a[..i];
    var j := OpenGap(a, i, x, sort, epoch);
    a[j] := x;
    InsertStop(sort, epoch, t, j, x);
    Placed(a[..], t, j, i, x);
  }

  /** Shift the elements of `a[..i]` that compare greater than `x` one place
      right, from the last one down, leaving a gap at `j` where `x`
      belongs. */
  method OpenGap(a: array<Flight>, i: nat, x: Flight, sort: SortState, epoch: string -> int) returns (j: nat)
    requires i < a.Length
    modifies a
    ensures j <= i
    ensures a[..j] == old(a[..i])[..j] && a[j + 1..i + 1] == old(a[..i])[j..]
    ensures a[i + 1..] == old(a[i + 1..])
    ensures Insert(sort, epoch, old(a[..i]), x) == Insert(sort, epoch, old(a[..i])[..j], x) + old(a[..i])[j..]
    ensures j == 0 || Compare(sort, epoch, old(a[..i])[j - 1], x) <= 0
  {
    ghost var t := a[..i];
    ghost var rest := a[i + 1..];
    j := i;
    while j > 0 && Compare(sort, epoch, a[j - 1], x) > 0
      invariant 0 <= j <= i
      invariant a[..j] == t[..j]
      invariant a[j + 1..i + 1] == t[j..]
      invariant a[i + 1..] == rest
      invariant Insert(sort, epoch, t, x) == Insert(sort, epoch, t[..j], x) + t[j..]
    {
      InsertStepBack(sort, epoch, t, j, x);
      ShiftStep(a[..], t, j, i);
      a[j] := a[j - 1];
      j := j - 1;
    }
    if j > 0 {
      assert a[j - 1] == a[..j][j - 1] == t[j - 1];
    }
  }

  /** Copying the element before the gap into it keeps the shifted part a
      copy of `t`, one place further left. */
  lemma ShiftStep<T>(s: seq<T>, t: seq<T>, j: nat, i: nat)
    requires 0 < j <= i < |s| && |t| == i
    requires s[..j] == t[..j] && s[j + 1..i + 1] == t[j..]
    ensures s[j := s[j - 1]][..j - 1] == t[..j - 1]
    ensures s[j := s[j - 1]][j..i + 1] == t[j - 1..]
    ensures s[j := s[j - 1]][i + 1..] == s[i + 1..]
  {
    var s' := s[j := s[j - 1]];
    assert s[j - 1] == t[..j][j - 1] == t[j - 1];
    assert s'[..j - 1] == s[..j][..j - 1];
    assert t[j - 1..] == [t[j - 1]] + t[j..];
    assert s'[j..i + 1] == [s'[j]] + s[j + 1..i + 1];
  }

  /** Writing `x` into the gap gives `t` with `x` inserted there. */
  lemma Placed<T>(s: seq<T>, t: seq<T>, j: nat, i: nat, x: T)
    requires j <= i < |s| && |t| == i && s[j] == x
    requires s[..j] == t[..j] && s[j + 1..i + 1] == t[j..]
    ensures s[..i + 1] == t[..j] + [x] + t[j..]
  {
    assert s[..i + 1] == s[..j] + [s[j]] + s[j + 1..i + 1];
  }

  /** Stable insertion sort of the array, in place. */
  method InsertionSort(a: array<Flight>, sort: SortState, epoch: string -> int)
    modifies a
    ensures a[..] == SortSpec(sort, epoch, old(a[..]))
  {
    ghost var input := a[..];
    var i := 0;
    while i < a.Length
      invariant 0 <= i <= a.Length
      invariant a[..i] == SortSpec(sort, epoch, input[..i])
      invariant a[i..] == input[i..]
    {
      assert input[..i + 1] == input[..i] + [input[i]];
      InsertAt(a, i, sort, epoch);
      i := i + 1;
    }
    assert input[..a.Length] == input;
  }

  /** `sortFlights`: copy the list, then sort the copy. The result is a
      permutation of the input, ordered by the selected key and direction,
      and stable for equal keys. */
  method SortFlights(flights: seq<Flight>, sort: SortState, epoch: string -> int) returns (sorted: seq<Flight>)
    ensures sorted == SortSpec(sort, epoch, flights)
    ensures multiset(sorted) == multiset(flights)
    ensures forall i, j :: 0 <= i < j < |sorted| ==> Compare(sort, epoch, sorted[i], sorted[j]) <= 0
    ensures forall v :: WithKey(sort, epoch, sorted, v) == WithKey(sort, epoch, flights, v)
  {
    var a := new Flight[|flights|](i requires 0 <= i < |flights| => flights[i]);
    assert a[..] == flights;
    InsertionSort(a, sort, epoch);
    sorted := a[..];
    SortSpecCorrect(sort, epoch, flights);
  }
}
