/** The two regular expressions the application applies to ISO 8601
    durations, written out as explicit searches:
    - `(\d+)X` (used with X = H and X = M): the leftmost run of digits that is
      immediately followed by the designator X;
    - `PT(?:(\d+)H)?(?:(\d+)M)?`: the first "PT", then an optional hours
      group anchored right after it, then an optional minutes group
      anchored right after that.
    `\d` is the ASCII digit class. */
module Patterns {
  import opened Strings
  import opened FlightTypes

  /** End of the run of digits that starts at `i`. */
  function DigitRunEnd(s: string, i: nat): (k: nat)
    requires i <= |s|
    ensures i <= k <= |s|
    ensures forall j :: i <= j < k ==> IsDigit(s[j])
    ensures k < |s| ==> !IsDigit(s[k])
    decreases |s| - i
  {
    if i < |s| && IsDigit(s[i]) then DigitRunEnd(s, i + 1) else i
  }

  /** The group `(\d+)X` matches at `i` and captures `s[i..k]`:
      one or more digits, then the designator at `k`. */
  predicate GroupAt(s: string, designator: char, i: nat, k: nat) {
    i < k < |s| && (forall j :: i <= j < k ==> IsDigit(s[j])) && s[k] == designator
  }

  /** A group can only end where the digit run ends. */
  lemma GroupEndsRun(s: string, designator: char, i: nat, k: nat)
    requires !IsDigit(designator) && GroupAt(s, designator, i, k)
    ensures k == DigitRunEnd(s, i)
  {
  }

  /** Where the group anchored at `i` ends, if it matches there. */
  function GroupEndAt(s: string, designator: char, i: nat): (e: Option<nat>)
    requires i <= |s| && !IsDigit(designator)
    ensures e.Some? ==> GroupAt(s, designator, i, e.value)
    ensures e.None? ==> forall k :: !GroupAt(s, designator, i, k)
  {
    var k := DigitRunEnd(s, i);
    if i < k < |s| && s[k] == designator then Some(k) else None
  }

  /** The leftmost match of `(\d+)X` at or after `from`, as (start, end). */
  function FindGroup(s: string, designator: char, from: nat): (g: Option<(nat, nat)>)
    requires from <= |s| && !IsDigit(designator)
    ensures g.Some? ==> from <= g.value.0 && GroupAt(s, designator, g.value.0, g.value.1)
    ensures g.Some? ==> forall i, k :: from <= i < g.value.0 ==> !GroupAt(s, designator, i, k)
    ensures g.None? ==> forall i, k :: from <= i ==> !GroupAt(s, designator, i, k)
    decreases |s| - from
  {
    if from == |s| then None
    else
      match GroupEndAt(s, designator, from)
      case Some(k) => Some((from, k))
      case None => FindGroup(s, designator, from + 1)
  }

  /** `s.match(/(\d+)X/)?.[1]`: the digits of the leftmost match. */
  function Capture(s: string, designator: char): (d: Option<string>)
    requires !IsDigit(designator)
    ensures d.Some? ==> |d.value| >= 1 && AllDigits(d.value)
  {
    match FindGroup(s, designator, 0)
    case None => None
    case Some((i, k)) => Some(s[i..k])
  }

  /** `Number(s.match(/(\d+)X/)?.[1] ?? 0)`. */
  function CaptureValue(s: string, designator: char): nat
    requires !IsDigit(designator)
  {
    match Capture(s, designator)
    case None => 0
    case Some(d) => DigitsValue(d)
  }

  /** The leftmost match is the first place where the group matches. */
  lemma {:induction false} CaptureIsLeftmost(s: string, designator: char, j: nat, k: nat)
    requires !IsDigit(designator) && GroupAt(s, designator, j, k)
    requires forall i, k' :: 0 <= i < j ==> !GroupAt(s, designator, i, k')
    ensures Capture(s, designator) == Some(s[j..k])
  {
    var g := FindGroup(s, designator, 0);
    assert g.Some?;
    var (i, e) := g.value;
    assert i == j;
    GroupEndsRun(s, designator, j, k);
    GroupEndsRun(s, designator, i, e);
  }

  lemma {:induction false} CaptureAbsent(s: string, designator: char)
    requires !IsDigit(designator)
    requires forall i, k :: !GroupAt(s, designator, i, k)
    ensures Capture(s, designator) == None
  {
  }

  predicate PTAt(s: string, i: nat) {
    i + 1 < |s| && s[i] == 'P' && s[i + 1] == 'T'
  }

  /** Position of the first "PT" at or after `from`. */
  function FindPT(s: string, from: nat): (p: Option<nat>)
    requires from <= |s|
    ensures p.Some? ==> from <= p.value && PTAt(s, p.value)
    ensures p.Some? ==> forall i :: from <= i < p.value ==> !PTAt(s, i)
    ensures p.None? ==> forall i :: from <= i ==> !PTAt(s, i)
    decreases |s| - from
  {
    if from + 1 >= |s| then None
    else if PTAt(s, from) then Some(from)
    else FindPT(s, from + 1)
  }

  datatype DurationMatch = NoMatch | Matched(hours: Option<string>, minutes: Option<string>)

  /** `s.match(/PT(?:(\d+)H)?(?:(\d+)M)?/)` with its two capture groups. */
  function MatchDuration(s: string): (r: DurationMatch)
    ensures r.NoMatch? <==> forall i :: !PTAt(s, i)
    ensures r.Matched? && r.hours.Some? ==> |r.hours.value| >= 1 && AllDigits(r.hours.value)
    ensures r.Matched? && r.minutes.Some? ==> |r.minutes.value| >= 1 && AllDigits(r.minutes.value)
  {
    match FindPT(s, 0)
    case None => NoMatch
    case Some(p) =>
      var h := GroupEndAt(s, 'H', p + 2);
      var q := if h.Some? then h.value + 1 else p + 2;
      var m := GroupEndAt(s, 'M', q);
      Matched(
        if h.Some? then Some(s[p + 2..h.value]) else None,
        if m.Some? then Some(s[q..m.value]) else None)
  }
}
