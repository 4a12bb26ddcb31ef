/** `formatDuration` (src/lib/formatters.ts): an ISO 8601 duration of the
    form PTnHnM (ISO 8601:2004, section 4.4.3.2, restricted to hours and
    minutes) shown as "29h 55m", "14h" or "45m". */
module Formatters {
  import opened Strings
  import opened FlightTypes
  import opened Patterns
  import FlightSort

  /** `match[i] ? Number(match[i]) : 0`: an unmatched group counts 0; a
      matched one is a non-empty (so truthy) run of digits. */
  function GroupNumber(g: Option<string>): nat
    requires g.Some? ==> AllDigits(g.value)
  {
    if g.Some? then DigitsValue(g.value) else 0
  }

  /** The label for a number of hours and minutes: the non-zero parts,
      hours first, one space between them, and "0m" when both are zero. */
  function DurationLabel(hours: nat, minutes: nat): (shown: string)
    ensures shown == "0m" <==> hours == 0 && minutes == 0
    ensures 'h' in shown <==> hours > 0
    ensures hours > 0 ==> NatToString(hours) + "h" <= shown
    ensures hours > 0 && minutes > 0 ==> shown == NatToString(hours) + "h " + NatToString(minutes) + "m"
    ensures hours > 0 && minutes == 0 ==> shown == NatToString(hours) + "h"
    ensures hours == 0 && minutes > 0 ==> shown == NatToString(minutes) + "m"
    ensures minutes > 0 ==>
      |NatToString(minutes)| + 1 <= |shown| && shown[|shown| - |NatToString(minutes)| - 1..] == NatToString(minutes) + "m"
  {
    var hs, ms := NatToString(hours), NatToString(minutes);
    DigitsHaveNoH(hs);
    DigitsHaveNoH(ms);
    if hours > 0 && minutes > 0 then
      BothPartsLabel(hs, ms);
      hs + "h " + ms + "m"
    else if hours > 0 then
      HoursOnlyLabel(hs);
      hs + "h"
    else if minutes > 0 then
      MinutesOnlyLabel(ms);
      ms + "m"
    else "0m"
  }

  lemma DigitsHaveNoH(s: string)
    requires AllDigits(s)
    ensures 'h' !in s
  {
    assert forall i :: 0 <= i < |s| ==> IsDigit(s[i]);
  }

  lemma BothPartsLabel(hs: string, ms: string)
    requires hs != [] && 'h' !in hs && 'h' !in ms
    ensures var r := hs + "h " + ms + "m";
      r != "0m" && 'h' in r && hs + "h" <= r && |ms| + 1 <= |r| && r[|r| - |ms| - 1..] == ms + "m"
  {
    var r := hs + "h " + ms + "m";
    assert r[|hs|] == 'h' && r[..|hs| + 1] == hs + "h";
    assert r[|r| - |ms| - 1..] == ms + "m";
  }

  lemma HoursOnlyLabel(hs: string)
    requires hs != [] && 'h' !in hs
    ensures var r := hs + "h"; r != "0m" && 'h' in r && hs + "h" <= r
  {
    var r := hs + "h";
    assert r[|hs|] == 'h';
  }

  lemma MinutesOnlyLabel(ms: string)
    requires ms != [] && ms[0] != '0' && 'h' !in ms
    ensures var r := ms + "m"; r != "0m" && 'h' !in r && r[|r| - |ms| - 1..] == ms + "m"
  {
    var r := ms + "m";
    assert r != "0m" by { if |r| == 2 { assert r[0] == ms[0]; } }
    assert r[|r| - |ms| - 1..] == r;
  }

  /** What `formatDuration` returns: the input itself when it holds no
      "PT", otherwise the label of the two captured numbers. */
  function FormatDurationSpec(isoDuration: string): (text: string)
    ensures (forall i :: !PTAt(isoDuration, i)) ==> text == isoDuration
  {
    match MatchDuration(isoDuration)
    case NoMatch => isoDuration
    case Matched(h, m) => DurationLabel(GroupNumber(h), GroupNumber(m))
  }

  /** `formatDuration`: collects the non-zero parts in a list and joins
      them with a space, falling back to "0m" for an empty join. */
  method FormatDuration(isoDuration: string) returns (text: string)
    ensures text == FormatDurationSpec(isoDuration)
  {
    var m := MatchDuration(isoDuration);
    if m.NoMatch? {
      return isoDuration;
    }
    var hours := if m.hours.Some? then DigitsValue(m.hours.value) else 0;
    var minutes := if m.minutes.Some? then DigitsValue(m.minutes.value) else 0;
    var parts: seq<string> := [];
    if hours > 0 {
      parts := parts + [NatToString(hours) + "h"];
    }
    if minutes > 0 {
      parts := parts + [NatToString(minutes) + "m"];
    }
    JoinShort(parts, " ");
    assert hours == GroupNumber(m.hours) && minutes == GroupNumber(m.minutes);
    assert |parts| == (if hours > 0 then 1 else 0) + (if minutes > 0 then 1 else 0);
    assert hours > 0 ==> parts[0] == NatToString(hours) + "h";
    assert minutes > 0 ==> parts[|parts| - 1] == NatToString(minutes) + "m";
    text := Join(parts, " ");
    if text == "" {
      text := "0m";
    }
    SameLabel(hours, minutes, parts, text);
  }

  /** The joined parts, with the "0m" fallback, are the label. */
  lemma SameLabel(hours: nat, minutes: nat, parts: seq<string>, text: string)
    requires |parts| == (if hours > 0 then 1 else 0) + (if minutes > 0 then 1 else 0)
    requires hours > 0 ==> parts[0] == NatToString(hours) + "h"
    requires minutes > 0 ==> parts[|parts| - 1] == NatToString(minutes) + "m"
    requires text == if Join(parts, " ") == "" then "0m" else Join(parts, " ")
    ensures text == DurationLabel(hours, minutes)
  {
    if hours > 0 && minutes > 0 {
      BothParts(NatToString(hours), NatToString(minutes), parts);
      LabelOfBoth(hours, minutes);
    } else if hours > 0 {
      OnePart(NatToString(hours) + "h", parts);
      LabelOfHours(hours);
    } else if minutes > 0 {
      OnePart(NatToString(minutes) + "m", parts);
      LabelOfMinutes(minutes);
    } else {
      JoinShort(parts, " ");
      LabelOfNone();
    }
  }

  lemma OnePart(p: string, parts: seq<string>)
    requires |parts| == 1 && parts[0] == p
    ensures Join(parts, " ") == p
  {
    JoinShort(parts, " ");
  }

  lemma LabelOfBoth(hours: nat, minutes: nat)
    requires hours > 0 && minutes > 0
    ensures DurationLabel(hours, minutes) == NatToString(hours) + "h " + NatToString(minutes) + "m"
  {
  }

  lemma LabelOfHours(hours: nat)
    requires hours > 0
    ensures DurationLabel(hours, 0) == NatToString(hours) + "h"
  {
  }

  lemma LabelOfMinutes(minutes: nat)
    requires minutes > 0
    ensures DurationLabel(0, minutes) == NatToString(minutes) + "m"
  {
  }

  lemma LabelOfNone()
    ensures DurationLabel(0, 0) == "0m"
  {
  }

  lemma BothParts(h: string, m: string, parts: seq<string>)
    requires |parts| == 2 && parts[0] == h + "h" && parts[1] == m + "m"
    ensures Join(parts, " ") == h + "h " + m + "m"
  {
    JoinShort(parts, " ");
    assert (h + "h") + " " + (m + "m") == h + "h " + m + "m";
  }

  lemma JoinShort(parts: seq<string>, sep: string)
    ensures |parts| == 0 ==> Join(parts, sep) == ""
    ensures |parts| == 1 ==> Join(parts, sep) == parts[0]
    ensures |parts| == 2 ==> Join(parts, sep) == parts[0] + sep + parts[1]
  {
    if |parts| == 2 {
      assert parts[1..] == [parts[1]];
    }
  }

  /* ---------------- The match on canonical texts ---------------- */

  /** On "PT<h>H<m>M" both groups capture their digits. */
  lemma MatchHoursMinutes(hd: string, md: string)
    requires |hd| >= 1 && AllDigits(hd) && |md| >= 1 && AllDigits(md)
    ensures MatchDuration("PT" + hd + "H" + md + "M") == Matched(Some(hd), Some(md))
  {
    var s := "PT" + hd + "H" + md + "M";
    var a := 2 + |hd|;
    FlightSort.HoursMinutesLayout(hd, md);
    BothGroupsAt(s, a, a + 1 + |md|);
  }

  /** A text starting with "PT" followed by an hours group ending at `a`
      and a minutes group ending at `b` captures both groups. */
  lemma BothGroupsAt(s: string, a: nat, b: nat)
    requires PTAt(s, 0) && GroupAt(s, 'H', 2, a) && GroupAt(s, 'M', a + 1, b)
    ensures MatchDuration(s) == Matched(Some(s[2..a]), Some(s[a + 1..b]))
  {
    GroupEndsRun(s, 'H', 2, a);
    GroupEndsRun(s, 'M', a + 1, b);
  }

  /** On "PT<h>H" only the hours group captures. */
  lemma MatchHoursOnly(hd: string)
    requires |hd| >= 1 && AllDigits(hd)
    ensures MatchDuration("PT" + hd + "H") == Matched(Some(hd), None)
  {
    var s := "PT" + hd + "H";
    var a := 2 + |hd|;
    assert |s| == a + 1 && s[0] == 'P' && s[1] == 'T' && s[a] == 'H';
    assert s[2..a] == hd;
    assert PTAt(s, 0);
    assert GroupAt(s, 'H', 2, a) by {
      forall j | 2 <= j < a ensures IsDigit(s[j]) { assert s[j] == hd[j - 2]; }
    }
    GroupEndsRun(s, 'H', 2, a);
  }

  /** On "PT<m>M" the hours group is skipped and the minutes group captures. */
  lemma MatchMinutesOnly(md: string)
    requires |md| >= 1 && AllDigits(md)
    ensures MatchDuration("PT" + md + "M") == Matched(None, Some(md))
  {
    var s := "PT" + md + "M";
    var b := 2 + |md|;
    assert |s| == b + 1 && s[0] == 'P' && s[1] == 'T' && s[b] == 'M';
    assert s[2..b] == md;
    assert PTAt(s, 0);
    assert GroupAt(s, 'M', 2, b) by {
      forall j | 2 <= j < b ensures IsDigit(s[j]) { assert s[j] == md[j - 2]; }
    }
    GroupEndsRun(s, 'M', 2, b);
  }

  /* ---------------- Properties of the output ---------------- */

  /** "PT<h>H<m>M" is labelled by the values of its digit texts. */
  lemma FormatHoursMinutes(hd: string, md: string)
    requires |hd| >= 1 && AllDigits(hd) && |md| >= 1 && AllDigits(md)
    ensures FormatDurationSpec("PT" + hd + "H" + md + "M") == DurationLabel(DigitsValue(hd), DigitsValue(md))
  {
    MatchHoursMinutes(hd, md);
  }

  lemma FormatHoursOnly(hd: string)
    requires |hd| >= 1 && AllDigits(hd)
    ensures FormatDurationSpec("PT" + hd + "H") == DurationLabel(DigitsValue(hd), 0)
  {
    MatchHoursOnly(hd);
  }

  lemma FormatMinutesOnly(md: string)
    requires |md| >= 1 && AllDigits(md)
    ensures FormatDurationSpec("PT" + md + "M") == DurationLabel(0, DigitsValue(md))
  {
    MatchMinutesOnly(md);
  }

  /** A leading zero in the minutes does not show: "PT05M" reads as "PT5M". */
  lemma MinutesLeadingZero(md: string)
    requires |md| >= 1 && AllDigits(md)
    ensures FormatDurationSpec("PT" + ("0" + md) + "M") == FormatDurationSpec("PT" + md + "M")
  {
    LeadingZeroIgnored(md);
    FormatMinutesOnly("0" + md);
    FormatMinutesOnly(md);
  }

  /** A zero number of hours is dropped, so a zero-hour duration reads
      like its minutes alone. */
  lemma ZeroHoursOmitted(md: string)
    requires |md| >= 1 && AllDigits(md)
    ensures FormatDurationSpec("PT0H" + md + "M") == FormatDurationSpec("PT" + md + "M")
  {
    assert "PT" + "0" + "H" + md + "M" == "PT0H" + md + "M";
    FormatHoursMinutes("0", md);
    FormatMinutesOnly(md);
  }

  lemma FormatExampleHoursMinutes()
    ensures FormatDurationSpec("PT29H55M") == "29h 55m"
  {
    FormatHoursMinutes("29", "55");
    ExampleTexts();
    ExampleNumbers();
  }

  lemma ExampleTexts()
    ensures "PT" + "29" + "H" + "55" + "M" == "PT29H55M"
    ensures "29" + "h " + "55" + "m" == "29h 55m"
  {
  }

  lemma ExampleNumbers()
    ensures DigitsValue("29") == 29 && DigitsValue("55") == 55
    ensures NatToString(29) == "29" && NatToString(55) == "55"
    ensures DurationLabel(29, 55) == "29" + "h " + "55" + "m"
  {
    assert NatToString(2) == "2" && NatToString(5) == "5";
  }

  lemma FormatExampleHours()
    ensures FormatDurationSpec("PT14H") == "14h"
  {
    FormatHoursOnly("14");
    HoursExampleParts();
  }

  lemma HoursExampleParts()
    ensures "PT" + "14" + "H" == "PT14H"
    ensures DurationLabel(DigitsValue("14"), 0) == "14h"
  {
    assert DigitsValue("14") == 14;
    assert NatToString(1) == "1";
  }

  lemma FormatExampleMinutes()
    ensures FormatDurationSpec("PT45M") == "45m"
  {
    FormatMinutesOnly("45");
    MinutesExampleParts();
  }

  lemma MinutesExampleParts()
    ensures "PT" + "45" + "M" == "PT45M"
    ensures DurationLabel(0, DigitsValue("45")) == "45m"
  {
    assert DigitsValue("45") == 45;
    assert NatToString(4) == "4";
  }

  lemma FormatExampleLeadingZero()
    ensures FormatDurationSpec("PT05M") == "5m"
  {
    FormatMinutesOnly("05");
    LeadingZeroExampleParts();
  }

  lemma LeadingZeroExampleParts()
    ensures "PT" + "05" + "M" == "PT05M"
    ensures DurationLabel(0, DigitsValue("05")) == "5m"
  {
    assert DigitsValue("05") == 5;
  }

  lemma FormatExampleZero()
    ensures FormatDurationSpec("PT0H0M") == "0m"
  {
    FormatHoursMinutes("0", "0");
    assert "PT" + "0" + "H" + "0" + "M" == "PT0H0M";
  }
}
