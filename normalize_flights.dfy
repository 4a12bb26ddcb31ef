/** `normalizeFlights` (src/lib/normalizeFlights.ts): each flight offer of a
    provider response becomes one `Flight`, built from the offer's first
    itinerary. A property access on a missing value, which throws a
    `TypeError` in the source, is the `None` result here. */
module NormalizeFlights {
  import opened FlightTypes

  datatype Segment = Segment(departureAt: string, arrivalAt: string)

  datatype Itinerary = Itinerary(duration: string, segments: seq<Segment>)

  /** An offer; `priceTotal` is the value `Number(offer.price.total)`
      yields, taken here as a whole number. */
  datatype Offer = Offer(
    id: string,
    itineraries: seq<Itinerary>,
    validatingAirlineCodes: seq<string>,
    priceTotal: int)

  /** The response body: its `data` list, when present, and its
      `dictionaries.carriers` table, when present. */
  datatype ProviderResponse = ProviderResponse(
    data: Option<seq<Offer>>,
    carriers: Option<map<string, string>>)

  /** Every offer names a validating airline (the model has no
      `undefined` airline). */
  predicate HasAirlineCodes(offers: seq<Offer>) {
    forall i :: 0 <= i < |offers| ==> |offers[i].validatingAirlineCodes| >= 1
  }

  /** Offers whose first itinerary exists and has a segment. */
  predicate Convertible(offer: Offer) {
    |offer.itineraries| >= 1 && |offer.itineraries[0].segments| >= 1
  }

  /** `dictionaries?.carriers ?? {}`. */
  function CarrierTable(response: ProviderResponse): map<string, string> {
    if response.carriers.Some? then response.carriers.value else map[]
  }

  /** `carriers[code] ?? code`. */
  function CarrierName(carriers: map<string, string>, code: string): (name: string)
    ensures code in carriers ==> name == carriers[code]
    ensures code !in carriers ==> name == code
  {
    if code in carriers then carriers[code] else code
  }

  /** The flight built from one convertible offer. */
  function ToFlight(carriers: map<string, string>, offer: Offer): Flight
    requires Convertible(offer) && |offer.validatingAirlineCodes| >= 1
  {
    var itinerary := offer.itineraries[0];
    var segments := itinerary.segments;
    Flight(
      offer.id,
      CarrierName(carriers, offer.validatingAirlineCodes[0]),
      offer.priceTotal,
      |segments| - 1,
      segments[0].departureAt,
      segments[|segments| - 1].arrivalAt,
      itinerary.duration)
  }

  /** `offers.map(...)`: `None` as soon as one offer is not convertible. */
  function MapOffers(carriers: map<string, string>, offers: seq<Offer>): (r: Option<seq<Flight>>)
    requires HasAirlineCodes(offers)
    ensures r.Some? <==> forall i :: 0 <= i < |offers| ==> Convertible(offers[i])
    ensures r.Some? ==> |r.value| == |offers|
  {
    if offers == [] then Some([])
    else if !Convertible(offers[0]) then None
    else
      match MapOffers(carriers, offers[1..])
      case None => None
      case Some(rest) => Some([ToFlight(carriers, offers[0])] + rest)
  }

  /** Each flight comes from the offer at the same position: its id, its
      first itinerary's duration, one stop fewer than that itinerary's
      segments, the first segment's departure, the last segment's arrival,
      the carrier name of the first validating airline, and the price. */
  lemma {:induction false} MapOffersFields(carriers: map<string, string>, offers: seq<Offer>)
    requires HasAirlineCodes(offers)
    ensures var r := MapOffers(carriers, offers);
      r.Some? ==> forall i :: 0 <= i < |offers| ==>
        var offer, flight := offers[i], r.value[i];
        && flight.id == offer.id
        && flight.duration == offer.itineraries[0].duration
        && flight.stops == |offer.itineraries[0].segments| - 1 >= 0
        && flight.departureTime == offer.itineraries[0].segments[0].departureAt
        && flight.arrivalTime == offer.itineraries[0].segments[|offer.itineraries[0].segments| - 1].arrivalAt
        && flight.airline == CarrierName(carriers, offer.validatingAirlineCodes[0])
        && flight.price == offer.priceTotal
  {
    MapOffersPointwise(carriers, offers);
  }

  /** The flight at each position is the one built from the offer there. */
  lemma {:induction false} MapOffersPointwise(carriers: map<string, string>, offers: seq<Offer>)
    requires HasAirlineCodes(offers)
    ensures var r := MapOffers(carriers, offers);
      r.Some? ==> forall i :: 0 <= i < |offers| ==> Convertible(offers[i]) && r.value[i] == ToFlight(carriers, offers[i])
  {
    if offers != [] && Convertible(offers[0]) {
      MapOffersPointwise(carriers, offers[1..]);
      var r := MapOffers(carriers, offers);
      if r.Some? {
        forall i | 1 <= i < |offers| ensures r.value[i] == MapOffers(carriers, offers[1..]).value[i - 1] && offers[i] == offers[1..][i - 1] {
        }
      }
    }
  }

  /** `normalizeFlights`: `None` when the response has no `data` or one of
      its offers has no first itinerary or no segment. */
  function Normalize(response: ProviderResponse): (r: Option<seq<Flight>>)
    requires response.data.Some? ==> HasAirlineCodes(response.data.value)
    ensures response.data.None? ==> r.None?
  {
    if response.data.None? then None
    else MapOffers(CarrierTable(response), response.data.value)
  }

  /* ---------------- Properties ---------------- */

  /** A response without a carrier table behaves as one with an empty table. */
  lemma MissingCarriersAsEmpty(data: seq<Offer>)
    requires HasAirlineCodes(data)
    ensures Normalize(ProviderResponse(Some(data), None)) == Normalize(ProviderResponse(Some(data), Some(map[])))
  {
  }

  /** The mapping works offer by offer: normalising two lists one after the
      other is normalising their concatenation. */
  lemma {:induction false} MapOffersAppend(carriers: map<string, string>, a: seq<Offer>, b: seq<Offer>)
    requires HasAirlineCodes(a) && HasAirlineCodes(b)
    ensures HasAirlineCodes(a + b)
    ensures MapOffers(carriers, a + b) ==
      if MapOffers(carriers, a).Some? && MapOffers(carriers, b).Some?
      then Some(MapOffers(carriers, a).value + MapOffers(carriers, b).value)
      else None
  {
    AirlineCodesAppend(a, b);
    if a != [] {
      var x, rest := a[0], a[1..];
      assert a + b == [x] + (rest + b) && a == [x] + rest;
      AirlineCodesAppend(rest, b);
      MapOffersAppend(carriers, rest, b);
      MapOffersCons(carriers, x, rest + b);
      MapOffersCons(carriers, x, rest);
      var ra, rb := MapOffers(carriers, rest), MapOffers(carriers, b);
      if Convertible(x) && ra.Some? && rb.Some? {
        ConsAssoc(ToFlight(carriers, x), ra.value, rb.value);
      }
    } else {
      assert a + b == b;
      var rb := MapOffers(carriers, b);
      if rb.Some? { assert [] + rb.value == rb.value; }
    }
  }

  lemma ConsAssoc<T>(f: T, u: seq<T>, v: seq<T>)
    ensures [f] + (u + v) == ([f] + u) + v
  {
  }

  /** The mapping of an offer put in front of a list. */
  lemma MapOffersCons(carriers: map<string, string>, x: Offer, rest: seq<Offer>)
    requires |x.validatingAirlineCodes| >= 1 && HasAirlineCodes(rest)
    ensures HasAirlineCodes([x] + rest)
    ensures MapOffers(carriers, [x] + rest) ==
      if Convertible(x) && MapOffers(carriers, rest).Some?
      then Some([ToFlight(carriers, x)] + MapOffers(carriers, rest).value)
      else None
  {
    var s := [x] + rest;
    assert s[0] == x && s[1..] == rest;
    assert HasAirlineCodes(s) by {
      forall i | 0 <= i < |s| ensures |s[i].validatingAirlineCodes| >= 1 {
        if i > 0 { assert s[i] == rest[i - 1]; }
      }
    }
  }

  lemma AirlineCodesAppend(a: seq<Offer>, b: seq<Offer>)
    requires HasAirlineCodes(a) && HasAirlineCodes(b)
    ensures HasAirlineCodes(a + b)
  {
    forall i | 0 <= i < |a + b| ensures |(a + b)[i].validatingAirlineCodes| >= 1 {
      if i >= |a| { assert (a + b)[i] == b[i - |a|]; }
    }
  }

  /** Only the first itinerary is read: replacing the later ones changes
      nothing. */
  lemma {:induction false} LaterItinerariesIgnored(carriers: map<string, string>, offers: seq<Offer>, others: seq<seq<Itinerary>>)
    requires HasAirlineCodes(offers) && |others| == |offers|
    requires forall i :: 0 <= i < |offers| ==> |offers[i].itineraries| >= 1
    ensures var altered := seq(|offers|, i requires 0 <= i < |offers| =>
               offers[i].(itineraries := [offers[i].itineraries[0]] + others[i]));
      HasAirlineCodes(altered) && MapOffers(carriers, altered) == MapOffers(carriers, offers)
  {
    var altered := seq(|offers|, i requires 0 <= i < |offers| =>
               offers[i].(itineraries := [offers[i].itineraries[0]] + others[i]));
    assert HasAirlineCodes(altered);
    if offers != [] {
      var tail := seq(|offers| - 1, i requires 0 <= i < |offers| - 1 =>
               offers[1..][i].(itineraries := [offers[1..][i].itineraries[0]] + others[1..][i]));
      assert altered[1..] == tail;
      LaterItinerariesIgnored(carriers, offers[1..], others[1..]);
      assert Convertible(altered[0]) == Convertible(offers[0]);
    }
  }

  lemma NormalizeExample()
    ensures Normalize(ProviderResponse(
      Some([Offer("7", [Itinerary("PT14H", [Segment("2026-02-03T08:00:00", "2026-02-03T12:00:00"),
                                           Segment("2026-02-03T13:00:00", "2026-02-03T22:00:00")])],
                  ["AR"], 512)]),
      Some(map["AR" := "AEROLINEAS ARGENTINAS"])))
      == Some([Flight("7", "AEROLINEAS ARGENTINAS", 512, 1, "2026-02-03T08:00:00", "2026-02-03T22:00:00", "PT14H")])
  {
    var offers := [Offer("7", [Itinerary("PT14H", [Segment("2026-02-03T08:00:00", "2026-02-03T12:00:00"),
                                                  Segment("2026-02-03T13:00:00", "2026-02-03T22:00:00")])],
                         ["AR"], 512)];
    var carriers := map["AR" := "AEROLINEAS ARGENTINAS"];
    assert offers[1..] == [];
    assert MapOffers(carriers, []) == Some([]);
    assert [ToFlight(carriers, offers[0])] + [] == [ToFlight(carriers, offers[0])];
    assert MapOffers(carriers, offers) == Some([ToFlight(carriers, offers[0])]);
  }
}
