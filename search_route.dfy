/** The `GET` handler of src/app/api/flights/search/route.ts, up to the
    provider call: the three query parameters are read, the airport codes
    trimmed and upper-cased, presence and IATA form checked in that order;
    the provider's reply is then either the normalised list or, when it
    failed or carried no `data`, an empty list. Whitespace and letter case
    are those of ASCII. */
module SearchRoute {
  import opened FlightTypes
  import opened UrlParams
  import opened NormalizeFlights
  import opened Amadeus

  const MissingParameters := "Missing required parameters"
  const InvalidIata := "Invalid IATA airport code"

  /* ---------------- trim and toUpperCase ---------------- */

  /** The ASCII characters `String.prototype.trim` removes. */
  predicate IsSpace(c: char) {
    c == ' ' || c == '\t' || c == '\n' || c == '\r' || c == '\U{000B}' || c == '\U{000C}'
  }

  function LeadingSpaces(s: string): (n: nat)
    ensures n <= |s|
    ensures forall j :: 0 <= j < n ==> IsSpace(s[j])
    ensures n < |s| ==> !IsSpace(s[n])
  {
    if s != [] && IsSpace(s[0]) then 1 + LeadingSpaces(s[1..]) else 0
  }

  function TrailingSpaces(s: string): (n: nat)
    ensures n <= |s|
    ensures forall j :: |s| - n <= j < |s| ==> IsSpace(s[j])
    ensures n < |s| ==> !IsSpace(s[|s| - 1 - n])
  {
    if s != [] && IsSpace(s[|s| - 1]) then 1 + TrailingSpaces(s[..|s| - 1]) else 0
  }

  /** `trim()`: the slice of `s` left after dropping the white space at
      both ends. */
  function Trim(s: string): (r: string)
    ensures LeadingSpaces(s) + |r| <= |s|
    ensures r == s[LeadingSpaces(s)..LeadingSpaces(s) + |r|]
    ensures forall j :: LeadingSpaces(s) + |r| <= j < |s| ==> IsSpace(s[j])
    ensures r != [] ==> !IsSpace(r[0]) && !IsSpace(r[|r| - 1])
  {
    var t := s[LeadingSpaces(s)..];
    t[..|t| - TrailingSpaces(t)]
  }

  lemma TrimIdempotent(s: string)
    ensures Trim(Trim(s)) == Trim(s)
  {
    var r := Trim(s);
    if r != [] {
      assert LeadingSpaces(r) == 0;
      assert TrailingSpaces(r) == 0;
      assert r[0..][..|r|] == r;
    }
  }

  function UpperChar(c: char): (u: char)
    ensures !('a' <= u <= 'z')
    ensures !('a' <= c <= 'z') ==> u == c
  {
    if 'a' <= c <= 'z' then (c as int - 32) as char else c
  }

  /** `toUpperCase()` on ASCII text. */
  function ToUpper(s: string): (r: string)
    ensures |r| == |s|
    ensures forall i :: 0 <= i < |s| ==> r[i] == UpperChar(s[i])
  {
    seq(|s|, i requires 0 <= i < |s| => UpperChar(s[i]))
  }

  lemma ToUpperIdempotent(s: string)
    ensures ToUpper(ToUpper(s)) == ToUpper(s)
  {
  }

  /** `/^[A-Z]{3}$/.test(code)`. */
  predicate IsIata(code: string) {
    |code| == 3 && IsUpperLetter(code[0]) && IsUpperLetter(code[1]) && IsUpperLetter(code[2])
  }

  predicate IsUpperLetter(c: char) {
    'A' <= c <= 'Z'
  }

  /* ---------------- Validation ---------------- */

  /** `searchParams.get(name)?.trim().toUpperCase()`. */
  function AirportCode(q: Query, name: string): Option<string> {
    match Get(q, name)
    case None => None
    case Some(raw) => Some(ToUpper(Trim(raw)))
  }

  /** A parameter the query does not give, or gives as empty text (both are
      falsy in the source). */
  predicate Absent(v: Option<string>) {
    v.None? || v.value == ""
  }

  datatype Validation =
    | Rejected(status: int, message: string)
    | Accepted(origin: string, destination: string, date: string)

  /** The checks before the provider call: presence first (the date only has
      to be non-empty; its format is not checked), then the IATA form of the
      normalised codes. */
  function Validate(q: Query): (v: Validation)
    ensures v.Rejected? ==> v.status == 400
    ensures v == Rejected(400, MissingParameters) <==>
      || Get(q, "origin").None? || Trim(Get(q, "origin").value) == ""
      || Get(q, "destination").None? || Trim(Get(q, "destination").value) == ""
      || Absent(Get(q, "date"))
    ensures v == Rejected(400, InvalidIata) <==>
      && !Absent(AirportCode(q, "origin")) && !Absent(AirportCode(q, "destination"))
      && !Absent(Get(q, "date"))
      && !(IsIata(AirportCode(q, "origin").value) && IsIata(AirportCode(q, "destination").value))
    ensures v.Accepted? ==>
      && Get(q, "origin").Some? && v.origin == ToUpper(Trim(Get(q, "origin").value))
      && Get(q, "destination").Some? && v.destination == ToUpper(Trim(Get(q, "destination").value))
      && Get(q, "date") == Some(v.date) && v.date != ""
      && IsIata(v.origin) && IsIata(v.destination)
  {
    var origin := AirportCode(q, "origin");
    var destination := AirportCode(q, "destination");
    var date := Get(q, "date");
    if Absent(origin) || Absent(destination) || Absent(date) then Rejected(400, MissingParameters)
    else if !IsIata(origin.value) || !IsIata(destination.value) then Rejected(400, InvalidIata)
    else Accepted(origin.value, destination.value, date.value)
  }

  /** The date's content never matters: any two non-empty dates lead to the
      same verdict. */
  lemma DateNotValidated(q: Query, d1: string, d2: string)
    requires d1 != "" && d2 != ""
    ensures Validate(Set(q, "date", d1)).Accepted? == Validate(Set(q, "date", d2)).Accepted?
    ensures Validate(Set(q, "date", d1)).Rejected? ==> Validate(Set(q, "date", d1)) == Validate(Set(q, "date", d2))
  {
    var q1, q2 := Set(q, "date", d1), Set(q, "date", d2);
    assert "origin" != "date" && "destination" != "date";
    assert AirportCode(q1, "origin") == AirportCode(q2, "origin");
    assert AirportCode(q1, "destination") == AirportCode(q2, "destination");
    DateBlind(q1, q2);
  }

  /** Two queries with the same codes and a non-empty date get the same
      verdict, up to the date itself. */
  lemma DateBlind(q1: Query, q2: Query)
    requires AirportCode(q1, "origin") == AirportCode(q2, "origin")
    requires AirportCode(q1, "destination") == AirportCode(q2, "destination")
    requires !Absent(Get(q1, "date")) && !Absent(Get(q2, "date"))
    ensures Validate(q1).Accepted? == Validate(q2).Accepted?
    ensures Validate(q1).Rejected? ==> Validate(q1) == Validate(q2)
  {
  }

  lemma TrimExamples()
    ensures ToUpper(Trim(" eze ")) == "EZE" && ToUpper(Trim("jfk")) == "JFK"
  {
    assert LeadingSpaces(" eze ") == 1 && TrailingSpaces("eze ") == 1;
    assert Trim(" eze ") == "eze";
    assert ToUpper("eze") == "EZE";
    assert LeadingSpaces("jfk") == 0 && TrailingSpaces("jfk") == 0;
    assert Trim("jfk") == "jfk";
    assert ToUpper("jfk") == "JFK";
  }

  /** " eze " and "jfk" are accepted as EZE and JFK. */
  lemma ValidateAcceptsNormalised()
    ensures Validate([("origin", " eze "), ("destination", "jfk"), ("date", "2026-02-03")])
            == Accepted("EZE", "JFK", "2026-02-03")
  {
    var q: Query := [("origin", " eze "), ("destination", "jfk"), ("date", "2026-02-03")];
    ExampleGets(q);
    TrimExamples();
    NormalisedCodes(q, " eze ", "jfk", "EZE", "JFK");
    assert IsIata("EZE") && IsIata("JFK");
    ValidCodesAccepted(q, "EZE", "JFK", "2026-02-03");
  }

  lemma ExampleGets(q: Query)
    requires q == [("origin", " eze "), ("destination", "jfk"), ("date", "2026-02-03")]
    ensures Get(q, "origin") == Some(" eze ") && Get(q, "destination") == Some("jfk")
    ensures Get(q, "date") == Some("2026-02-03")
  {
  }

  lemma NormalisedCodes(q: Query, rawOrigin: string, rawDestination: string, origin: string, destination: string)
    requires Get(q, "origin") == Some(rawOrigin) && ToUpper(Trim(rawOrigin)) == origin
    requires Get(q, "destination") == Some(rawDestination) && ToUpper(Trim(rawDestination)) == destination
    ensures AirportCode(q, "origin") == Some(origin) && AirportCode(q, "destination") == Some(destination)
  {
  }

  /** Codes that normalise to IATA form and a non-empty date are accepted. */
  lemma ValidCodesAccepted(q: Query, origin: string, destination: string, date: string)
    requires AirportCode(q, "origin") == Some(origin) && AirportCode(q, "destination") == Some(destination)
    requires Get(q, "date") == Some(date) && date != ""
    requires IsIata(origin) && IsIata(destination)
    ensures Validate(q) == Accepted(origin, destination, date)
  {
  }

  /** An empty date is reported as missing even when a code is malformed. */
  lemma ValidatePresenceFirst()
    ensures Validate([("origin", "EZE"), ("destination", "JFKX"), ("date", "")])
            == Rejected(400, MissingParameters)
  {
    var q: Query := [("origin", "EZE"), ("destination", "JFKX"), ("date", "")];
    assert Get(q, "date") == Some("");
  }

  lemma TrimUnchanged()
    ensures ToUpper(Trim("EZE")) == "EZE" && |ToUpper(Trim("JFKX"))| == 4
  {
    assert LeadingSpaces("EZE") == 0 && TrailingSpaces("EZE") == 0 && Trim("EZE") == "EZE";
    assert LeadingSpaces("JFKX") == 0 && TrailingSpaces("JFKX") == 0 && Trim("JFKX") == "JFKX";
    assert ToUpper("EZE") == "EZE";
  }

  /** A four-letter code is not an IATA code. */
  lemma ValidateRejectsLongCode()
    ensures Validate([("origin", "EZE"), ("destination", "JFKX"), ("date", "2026-02-03")])
            == Rejected(400, InvalidIata)
  {
    var q: Query := [("origin", "EZE"), ("destination", "JFKX"), ("date", "2026-02-03")];
    assert Get(q, "origin") == Some("EZE") && Get(q, "destination") == Some("JFKX");
    assert Get(q, "date") == Some("2026-02-03");
    TrimUnchanged();
  }

  /* ---------------- The reply ---------------- */

  /** The body of the provider's reply: what `res.json()` parsed, or a body
      that is not JSON (`res.json()` rejects). */
  datatype UpstreamBody = Parsed(response: ProviderResponse) | Unreadable

  /** What the provider request came to: `fetch` rejected, or the provider
      replied with its `ok` flag and a body. */
  datatype Upstream = FetchRejected | Replied(ok: bool, body: UpstreamBody)

  datatype RouteResponse =
    | Json(status: int, flights: seq<Flight>)
    | ErrorJson(status: int, message: string)
    /** The handler threw; the framework answers for it. */
    | Unhandled

  /** A provider answer whose offers all name a validating airline. */
  predicate WellFormedUpstream(upstream: Upstream) {
    upstream.Replied? && upstream.body.Parsed? && upstream.body.response.data.Some? ==>
      HasAirlineCodes(upstream.body.response.data.value)
  }

  /** The handler's answer for a query, the outcome of `getAccessToken` and
      the provider's reply. A thrown token request, a rejected `fetch`, an
      unreadable body and a throwing `normalizeFlights` all end the handler
      with an exception; `res.json()` is awaited before `res.ok` is tested,
      so an unreadable body throws even when the provider failed. */
  function Respond(q: Query, token: TokenResult, upstream: Upstream): (r: RouteResponse)
    requires WellFormedUpstream(upstream)
    ensures Validate(q).Rejected? ==> r == ErrorJson(400, Validate(q).message)
    ensures Validate(q).Accepted? && token.AuthError? ==> r == Unhandled
    ensures Validate(q).Accepted? && token.Token? && (upstream.FetchRejected? || upstream.body.Unreadable?) ==>
      r == Unhandled
    ensures Validate(q).Accepted? && token.Token? && upstream.Replied? && upstream.body.Parsed?
            && (!upstream.ok || upstream.body.response.data.None?) ==>
      r == Json(200, [])
    ensures Validate(q).Accepted? && token.Token? && upstream.Replied? && upstream.ok
            && upstream.body.Parsed? && upstream.body.response.data.Some? ==>
      match Normalize(upstream.body.response)
      case Some(flights) => r == Json(200, flights)
      case None => r == Unhandled
    ensures r.Json? ==> r.status == 200 && Validate(q).Accepted? && token.Token? && upstream.Replied?
  {
    match Validate(q)
    case Rejected(status, message) => ErrorJson(status, message)
    case Accepted(_, _, _) =>
      if token.AuthError? || upstream.FetchRejected? || upstream.body.Unreadable? then Unhandled
      else if !upstream.ok || upstream.body.response.data.None? then Json(200, [])
      else
        match Normalize(upstream.body.response)
        case Some(flights) => Json(200, flights)
        case None => Unhandled
  }
}
