/** The page component of src/app/HomeClient.tsx, without its markup: the
    search key handed to the filter engine, the one-shot hydration of a
    search from the URL, the URL written back after a successful search,
    and the values derived for rendering. `lastSearch` and `isSuccess` are
    inputs here. */
module HomeClient {
  import opened Strings
  import opened FlightTypes
  import opened Seqs
  import opened UrlParams
  import PriceChart
  import FilteredFlights

  /* ---------------- searchKey ---------------- */

  /** `${origin}-${destination}-${date}` of the last search, if any. */
  function SearchKey(lastSearch: Option<SearchParams>): (key: Option<string>)
    ensures lastSearch.None? <==> key.None?
    ensures key.Some? ==> |key.value| >= 2
  {
    match lastSearch
    case None => None
    case Some(p) => Some(p.origin + "-" + p.destination + "-" + p.date)
  }

  /** With three-letter airport codes the key names the search: two
      different searches never share a key. */
  lemma SearchKeyInjective(a: SearchParams, b: SearchParams)
    requires |a.origin| == 3 && |a.destination| == 3 && |b.origin| == 3 && |b.destination| == 3
    requires SearchKey(Some(a)) == SearchKey(Some(b))
    ensures a == b
  {
    var ka, kb := SearchKey(Some(a)).value, SearchKey(Some(b)).value;
    assert ka[..3] == a.origin && kb[..3] == b.origin;
    assert ka[4..7] == a.destination && kb[4..7] == b.destination;
    assert ka[8..] == a.date && kb[8..] == b.date;
  }

  /* ---------------- URL -> search ---------------- */

  /** The search the URL names: all three parameters present and
      non-empty, copied verbatim. `searchFormValues` is this value too. */
  function UrlSearch(q: Query): (search: Option<SearchParams>)
    ensures search.Some? <==>
      && Get(q, "origin").Some? && Get(q, "origin").value != ""
      && Get(q, "destination").Some? && Get(q, "destination").value != ""
      && Get(q, "date").Some? && Get(q, "date").value != ""
    ensures search.Some? ==>
      && Get(q, "origin") == Some(search.value.origin)
      && Get(q, "destination") == Some(search.value.destination)
      && Get(q, "date") == Some(search.value.date)
  {
    var origin, destination, date := Get(q, "origin"), Get(q, "destination"), Get(q, "date");
    if origin.None? || origin.value == "" || destination.None? || destination.value == ""
       || date.None? || date.value == ""
    then None
    else Some(SearchParams(origin.value, destination.value, date.value))
  }

  /** The hydration effect with its ref. `searchesIssued` counts the
      searches it has started. */
  class UrlHydration {
    var hasHydratedFromUrl: bool
    ghost var searchesIssued: nat

    ghost predicate Valid()
      reads this
    {
      searchesIssued <= 1 && (!hasHydratedFromUrl ==> searchesIssued == 0)
    }

    constructor ()
      ensures Valid() && !hasHydratedFromUrl && searchesIssued == 0
    {
      hasHydratedFromUrl := false;
      searchesIssued := 0;
    }

    /** One run of the effect with the current query: the first run starts
        the URL's search, if it names one, and sets the ref whatever the
        outcome; every later run does nothing. */
    method Run(q: Query) returns (issued: Option<SearchParams>)
      requires Valid()
      modifies this
      ensures Valid() && hasHydratedFromUrl
      ensures old(hasHydratedFromUrl) ==> issued.None? && searchesIssued == old(searchesIssued)
      ensures !old(hasHydratedFromUrl) ==> issued == UrlSearch(q)
      ensures searchesIssued == old(searchesIssued) + (if issued.Some? then 1 else 0)
    {
      if hasHydratedFromUrl {
        return None;
      }
      issued := UrlSearch(q);
      if issued.Some? {
        searchesIssued := searchesIssued + 1;
      }
      hasHydratedFromUrl := true;
    }
  }

  /** `?origin=EZE&destination=JFK&date=2026-02-03` starts exactly that
      search once; later renders start nothing, whatever the URL says. */
  method HydrationExample(later: Query) returns (first: Option<SearchParams>, second: Option<SearchParams>)
    ensures first == Some(SearchParams("EZE", "JFK", "2026-02-03"))
    ensures second == None
  {
    var h := new UrlHydration();
    first := h.Run([("origin", "EZE"), ("destination", "JFK"), ("date", "2026-02-03")]);
    second := h.Run(later);
    assert h.searchesIssued == 1;
  }

  /* ---------------- state -> URL ---------------- */

  /** `String(filters.stops)` for a stop count. */
  function StopsText(count: StopCount): string {
    NatToString(count)
  }

  /** The pairs the URL receives, in order: the search, then `stops` unless
      'any', then `airlines` unless none is selected, then both prices. */
  function UrlPairs(search: SearchParams, filters: FlightFilters): Query {
    SearchPairs(search) + StopsPairs(filters) + AirlinesPairs(filters) + PricePairs(filters)
  }

  function SearchPairs(search: SearchParams): Query {
    [("origin", search.origin), ("destination", search.destination), ("date", search.date)]
  }

  function StopsPairs(filters: FlightFilters): Query {
    if filters.stops.Stops? then [("stops", StopsText(filters.stops.count))] else []
  }

  function AirlinesPairs(filters: FlightFilters): Query {
    if |filters.airlines| > 0 then [("airlines", Join(filters.airlines, ","))] else []
  }

  function PricePairs(filters: FlightFilters): Query {
    [("minPrice", IntToString(filters.priceRange.min)), ("maxPrice", IntToString(filters.priceRange.max))]
  }

  /** The names the URL receives, in order. */
  function UrlKeys(filters: FlightFilters): seq<string> {
    ["origin", "destination", "date"]
    + (if filters.stops.Stops? then ["stops"] else [])
    + (if |filters.airlines| > 0 then ["airlines"] else [])
    + ["minPrice", "maxPrice"]
  }

  /** Every name the sync effect can write, in the order it writes them. */
  const UrlNames := ["origin", "destination", "date", "stops", "airlines", "minPrice", "maxPrice"]

  /** The seven names differ pairwise: by length, or else by their first or
      second letter. */
  lemma NamesDistinct()
    ensures NoDups(UrlNames)
  {
    var names := UrlNames;
    assert |names[0]| == 6 && |names[1]| == 11 && |names[2]| == 4 && |names[3]| == 5;
    assert |names[4]| == 8 && |names[5]| == 8 && |names[6]| == 8;
    assert names[4][0] == 'a' && names[5][0] == 'm' && names[6][0] == 'm';
    assert names[5][1] == 'i' && names[6][1] == 'a';
  }

  /** Which of the seven names a URL receives, by position. */
  function Picked(filters: FlightFilters): seq<nat> {
    [0, 1, 2]
    + (if filters.stops.Stops? then [3] else [])
    + (if |filters.airlines| > 0 then [4] else [])
    + [5, 6]
  }

  lemma PickedNames(filters: FlightFilters)
    ensures |Picked(filters)| == |UrlKeys(filters)|
    ensures forall i :: 0 <= i < |UrlKeys(filters)| ==>
      Picked(filters)[i] < 7 && UrlKeys(filters)[i] == UrlNames[Picked(filters)[i]]
  {
  }

  lemma PickedInOrder(filters: FlightFilters)
    ensures forall i, j :: 0 <= i < j < |Picked(filters)| ==> Picked(filters)[i] < Picked(filters)[j]
    ensures !filters.stops.Stops? ==> 3 !in Picked(filters)
    ensures |filters.airlines| == 0 ==> 4 !in Picked(filters)
  {
  }

  lemma UrlPairsKeys(search: SearchParams, filters: FlightFilters)
    ensures Keys(UrlPairs(search, filters)) == UrlKeys(filters)
    ensures NoDups(UrlKeys(filters))
  {
    var a, b, c, d := SearchPairs(search), StopsPairs(filters), AirlinesPairs(filters), PricePairs(filters);
    KeysAppend(a, b);
    KeysAppend(a + b, c);
    KeysAppend(a + b + c, d);
    assert Keys(a) == ["origin", "destination", "date"];
    assert Keys(b) == (if filters.stops.Stops? then ["stops"] else []);
    assert Keys(c) == (if |filters.airlines| > 0 then ["airlines"] else []);
    assert Keys(d) == ["minPrice", "maxPrice"];
    UrlKeysDistinct(filters);
  }

  lemma UrlPairsDistinct(search: SearchParams, filters: FlightFilters)
    ensures NoDups(Keys(UrlPairs(search, filters)))
  {
    UrlPairsKeys(search, filters);
  }

  /** The names are picked from the seven in their order, so they are
      distinct, and a filter left at its default writes no name. */
  lemma UrlKeysDistinct(filters: FlightFilters)
    ensures NoDups(UrlKeys(filters))
  {
    NamesDistinct();
    PickedNames(filters);
    PickedInOrder(filters);
  }

  lemma UrlKeysOmit(filters: FlightFilters)
    ensures !filters.stops.Stops? ==> "stops" !in UrlKeys(filters)
    ensures |filters.airlines| == 0 ==> "airlines" !in UrlKeys(filters)
  {
    NamesDistinct();
    PickedNames(filters);
    PickedInOrder(filters);
    var keys, picked := UrlKeys(filters), Picked(filters);
    assert UrlNames[3] == "stops" && UrlNames[4] == "airlines";
    forall i | 0 <= i < |keys| ensures keys[i] == UrlNames[picked[i]] && picked[i] < 7 {
    }
  }

  /** The sync effect: nothing unless the last search succeeded; otherwise
      the parameters are built by successive `set` calls and replace the
      URL. */
  method SyncUrl(isSuccess: bool, lastSearch: Option<SearchParams>, filters: FlightFilters)
    returns (written: Option<Query>)
    ensures written.Some? <==> isSuccess && lastSearch.Some?
    ensures written.Some? ==> written.value == UrlPairs(lastSearch.value, filters)
  {
    if !isSuccess || lastSearch.None? {
      return None;
    }
    var search := lastSearch.value;
    var params: Query := [("origin", search.origin), ("destination", search.destination), ("date", search.date)];
    ghost var base := params;
    if filters.stops.Stops? {
      params := Set(params, "stops", StopsText(filters.stops.count));
    }
    ghost var withStops := params;
    if |filters.airlines| > 0 {
      params := Set(params, "airlines", Join(filters.airlines, ","));
    }
    ghost var withAirlines := params;
    params := Set(params, "minPrice", IntToString(filters.priceRange.min));
    params := Set(params, "maxPrice", IntToString(filters.priceRange.max));
    SetsBuildPairs(search, filters, base, withStops, withAirlines);
    written := Some(params);
  }

  /** Each `set` of the sync effect adds a name not yet present, so the
      calls append the pairs in order. */
  lemma SetsBuildPairs(search: SearchParams, filters: FlightFilters, base: Query, withStops: Query, withAirlines: Query)
    requires base == [("origin", search.origin), ("destination", search.destination), ("date", search.date)]
    requires withStops == if filters.stops.Stops? then Set(base, "stops", StopsText(filters.stops.count)) else base
    requires withAirlines ==
      if |filters.airlines| > 0 then Set(withStops, "airlines", Join(filters.airlines, ",")) else withStops
    ensures Set(Set(withAirlines, "minPrice", IntToString(filters.priceRange.min)),
                "maxPrice", IntToString(filters.priceRange.max)) == UrlPairs(search, filters)
  {
    var pairs := UrlPairs(search, filters);
    var n := if filters.stops.Stops? then 4 else 3;
    var m := |pairs| - 2;
    UrlPairsAt(search, filters);
    UrlPairsFresh(search, filters, n, m);
    BaseIsPrefix(pairs, base);
    StopsStep(pairs, filters, base, withStops);
    AirlinesStep(pairs, filters, n, m, withStops, withAirlines);
    PricesStep(pairs, m, withAirlines, IntToString(filters.priceRange.min), IntToString(filters.priceRange.max));
  }

  /** No name the sync effect sets is among the pairs before it. */
  lemma UrlPairsFresh(search: SearchParams, filters: FlightFilters, n: nat, m: nat)
    requires n == (if filters.stops.Stops? then 4 else 3) && m == |UrlPairs(search, filters)| - 2
    ensures var pairs := UrlPairs(search, filters);
      && n <= m
      && (filters.stops.Stops? ==> "stops" !in Keys(pairs[..3]))
      && (|filters.airlines| > 0 ==> "airlines" !in Keys(pairs[..n]))
      && "minPrice" !in Keys(pairs[..m])
      && "maxPrice" !in Keys(pairs[..m + 1])
  {
    var pairs := UrlPairs(search, filters);
    UrlPairsDistinct(search, filters);
    UrlPairsAt(search, filters);
    if filters.stops.Stops? {
      DistinctFresh(pairs, 3);
    }
    if |filters.airlines| > 0 {
      DistinctFresh(pairs, n);
    }
    DistinctFresh(pairs, m);
    DistinctFresh(pairs, m + 1);
  }

  lemma DistinctFresh(pairs: Query, n: nat)
    requires n < |pairs| && NoDups(Keys(pairs))
    ensures pairs[n].0 !in Keys(pairs[..n])
  {
    KeysPrefix(pairs, n);
    assert pairs[n].0 == Keys(pairs)[n];
  }

  lemma BaseIsPrefix(pairs: Query, base: Query)
    requires |pairs| >= 3 && base == [pairs[0], pairs[1], pairs[2]]
    ensures base == pairs[..3]
  {
  }

  lemma StopsStep(pairs: Query, filters: FlightFilters, base: Query, withStops: Query)
    requires |pairs| >= 5 && base == pairs[..3]
    requires filters.stops.Stops? ==> pairs[3] == ("stops", StopsText(filters.stops.count)) && "stops" !in Keys(base)
    requires withStops == if filters.stops.Stops? then Set(base, "stops", StopsText(filters.stops.count)) else base
    ensures withStops == pairs[..if filters.stops.Stops? then 4 else 3]
  {
    if filters.stops.Stops? {
      AppendNext(pairs, 3, base, "stops", StopsText(filters.stops.count));
    }
  }

  lemma AirlinesStep(pairs: Query, filters: FlightFilters, n: nat, m: nat, withStops: Query, withAirlines: Query)
    requires n <= m < |pairs| && withStops == pairs[..n]
    requires |filters.airlines| > 0 ==>
      n + 1 == m && pairs[n] == ("airlines", Join(filters.airlines, ",")) && "airlines" !in Keys(withStops)
    requires |filters.airlines| == 0 ==> n == m
    requires withAirlines ==
      if |filters.airlines| > 0 then Set(withStops, "airlines", Join(filters.airlines, ",")) else withStops
    ensures withAirlines == pairs[..m]
  {
    if |filters.airlines| > 0 {
      AppendNext(pairs, n, withStops, "airlines", Join(filters.airlines, ","));
    }
  }

  lemma PricesStep(pairs: Query, m: nat, withAirlines: Query, low: string, high: string)
    requires m + 2 == |pairs| && withAirlines == pairs[..m]
    requires pairs[m] == ("minPrice", low) && pairs[m + 1] == ("maxPrice", high)
    requires "minPrice" !in Keys(pairs[..m]) && "maxPrice" !in Keys(pairs[..m + 1])
    ensures Set(Set(withAirlines, "minPrice", low), "maxPrice", high) == pairs
  {
    AppendNext(pairs, m, withAirlines, "minPrice", low);
    AppendNext(pairs, m + 1, pairs[..m + 1], "maxPrice", high);
    WholePrefix(pairs, m + 1 + 1);
  }

  lemma WholePrefix<T>(s: seq<T>, n: nat)
    requires n == |s|
    ensures s[..n] == s
  {
  }

  /** Setting a name not yet present appends its pair. */
  lemma AppendNext(pairs: Query, n: nat, q: Query, key: string, value: string)
    requires n < |pairs| && q == pairs[..n] && pairs[n] == (key, value) && key !in Keys(q)
    ensures Set(q, key, value) == pairs[..n + 1]
  {
    PrefixStep(pairs, n);
  }

  lemma KeysPrefix(q: Query, n: nat)
    requires n <= |q|
    ensures Keys(q[..n]) == Keys(q)[..n]
  {
  }

  lemma PrefixStep<T>(s: seq<T>, n: nat)
    requires n < |s|
    ensures s[..n] + [s[n]] == s[..n + 1]
  {
  }

  /** With distinct names, `get` finds each pair. */
  lemma GetAt(q: Query, i: nat)
    requires i < |q| && NoDups(Keys(q))
    ensures Get(q, q[i].0) == Some(q[i].1)
  {
    assert Keys(q)[i] == q[i].0;
    var j := FirstIndex(Keys(q), q[i].0);
    assert j == i;
  }

  /** Every value the URL receives reads back with `get`, and a filter left
      at its default reads back as absent. */
  lemma UrlPairsReadBack(search: SearchParams, filters: FlightFilters)
    ensures var pairs := UrlPairs(search, filters);
      && Get(pairs, "origin") == Some(search.origin)
      && Get(pairs, "destination") == Some(search.destination)
      && Get(pairs, "date") == Some(search.date)
      && Get(pairs, "stops") == (if filters.stops.Stops? then Some(StopsText(filters.stops.count)) else None)
      && Get(pairs, "airlines") == (if |filters.airlines| > 0 then Some(Join(filters.airlines, ",")) else None)
      && Get(pairs, "minPrice") == Some(IntToString(filters.priceRange.min))
      && Get(pairs, "maxPrice") == Some(IntToString(filters.priceRange.max))
  {
    ReadBackWritten(search, filters);
    UrlPairsKeys(search, filters);
    UrlKeysOmit(filters);
  }

  lemma ReadBackWritten(search: SearchParams, filters: FlightFilters)
    ensures var pairs := UrlPairs(search, filters);
      && Get(pairs, "origin") == Some(search.origin)
      && Get(pairs, "destination") == Some(search.destination)
      && Get(pairs, "date") == Some(search.date)
      && (filters.stops.Stops? ==> Get(pairs, "stops") == Some(StopsText(filters.stops.count)))
      && (|filters.airlines| > 0 ==> Get(pairs, "airlines") == Some(Join(filters.airlines, ",")))
      && Get(pairs, "minPrice") == Some(IntToString(filters.priceRange.min))
      && Get(pairs, "maxPrice") == Some(IntToString(filters.priceRange.max))
  {
    var pairs := UrlPairs(search, filters);
    UrlPairsAt(search, filters);
    UrlPairsDistinct(search, filters);
    var last := |pairs| - 1;
    GetAt(pairs, 0);
    GetAt(pairs, 1);
    GetAt(pairs, 2);
    GetAt(pairs, last - 1);
    GetAt(pairs, last);
    if filters.stops.Stops? {
      GetAt(pairs, 3);
    }
    if |filters.airlines| > 0 {
      GetAt(pairs, last - 2);
    }
  }

  /** Where each pair sits. */
  lemma UrlPairsAt(search: SearchParams, filters: FlightFilters)
    ensures var pairs := UrlPairs(search, filters);
      && |pairs| == |UrlKeys(filters)| >= 5
      && pairs[0] == ("origin", search.origin)
      && pairs[1] == ("destination", search.destination)
      && pairs[2] == ("date", search.date)
      && (filters.stops.Stops? ==> pairs[3] == ("stops", StopsText(filters.stops.count)))
      && (|filters.airlines| > 0 ==> pairs[|pairs| - 3] == ("airlines", Join(filters.airlines, ",")))
      && pairs[|pairs| - 2] == ("minPrice", IntToString(filters.priceRange.min))
      && pairs[|pairs| - 1] == ("maxPrice", IntToString(filters.priceRange.max))
  {
    UrlPairsHead(search, filters);
    UrlPairsTail(search, filters);
  }

  lemma UrlPairsHead(search: SearchParams, filters: FlightFilters)
    ensures var pairs := UrlPairs(search, filters);
      && |pairs| == |UrlKeys(filters)| >= 5
      && pairs[0] == ("origin", search.origin)
      && pairs[1] == ("destination", search.destination)
      && pairs[2] == ("date", search.date)
      && (filters.stops.Stops? ==> pairs[3] == ("stops", StopsText(filters.stops.count)))
  {
    UrlPairsLength(search, filters);
    var front, back := SearchPairs(search) + StopsPairs(filters), AirlinesPairs(filters) + PricePairs(filters);
    assert UrlPairs(search, filters) == front + back;
    IndexAppend(front, back);
    IndexAppend(SearchPairs(search), StopsPairs(filters));
  }

  lemma UrlPairsLength(search: SearchParams, filters: FlightFilters)
    ensures |UrlPairs(search, filters)| == |UrlKeys(filters)| >= 5
  {
  }

  lemma UrlPairsTail(search: SearchParams, filters: FlightFilters)
    ensures var pairs := UrlPairs(search, filters);
      && (|filters.airlines| > 0 ==> pairs[|pairs| - 3] == ("airlines", Join(filters.airlines, ",")))
      && pairs[|pairs| - 2] == ("minPrice", IntToString(filters.priceRange.min))
      && pairs[|pairs| - 1] == ("maxPrice", IntToString(filters.priceRange.max))
  {
    var front, back := SearchPairs(search) + StopsPairs(filters), AirlinesPairs(filters) + PricePairs(filters);
    assert UrlPairs(search, filters) == front + back;
    IndexAppend(front, back);
    IndexAppend(AirlinesPairs(filters), PricePairs(filters));
  }

  lemma IndexAppend<T>(front: seq<T>, back: seq<T>)
    ensures forall i :: 0 <= i < |front| ==> (front + back)[i] == front[i]
    ensures forall i :: 0 <= i < |back| ==> (front + back)[|front| + i] == back[i]
  {
  }

  /* ---------------- Derived values ---------------- */

  /** `availableAirlines`: the distinct airlines of all flights in order of
      first appearance, and none unless the search succeeded. */
  function AvailableAirlines(isSuccess: bool, flights: seq<Flight>): (names: seq<string>)
    ensures !isSuccess ==> names == []
    ensures NoDups(names)
    ensures isSuccess ==> forall a :: a in names <==> exists i :: 0 <= i < |flights| && flights[i].airline == a
  {
    if isSuccess then
      var all := PriceChart.Airlines(flights);
      assert forall a :: a in all <==> exists i :: 0 <= i < |flights| && flights[i].airline == a by {
        forall a | a in all ensures exists i :: 0 <= i < |flights| && flights[i].airline == a {
          var i :| 0 <= i < |all| && all[i] == a;
          assert flights[i].airline == a;
        }
      }
      Dedup(all)
    else []
  }

  lemma AvailableAirlinesOrder(flights: seq<Flight>)
    ensures forall i, j :: 0 <= i < j < |AvailableAirlines(true, flights)| ==>
      FirstIndex(PriceChart.Airlines(flights), AvailableAirlines(true, flights)[i])
        < FirstIndex(PriceChart.Airlines(flights), AvailableAirlines(true, flights)[j])
  {
    DedupFirstAppearance(PriceChart.Airlines(flights));
  }

  function HasResults(isSuccess: bool, filtered: seq<Flight>): bool {
    isSuccess && |filtered| > 0
  }

  function HasNoResults(isSuccess: bool, filtered: seq<Flight>): bool {
    isSuccess && |filtered| == 0
  }

  /** At most one of the two holds, neither before a success, and exactly
      one after it. */
  lemma ResultsExclusive(isSuccess: bool, filtered: seq<Flight>)
    ensures !(HasResults(isSuccess, filtered) && HasNoResults(isSuccess, filtered))
    ensures !isSuccess ==> !HasResults(isSuccess, filtered) && !HasNoResults(isSuccess, filtered)
    ensures isSuccess ==> HasResults(isSuccess, filtered) != HasNoResults(isSuccess, filtered)
  {
  }

  /** The price filter is mounted only with results and a proper range, so
      it always gets bounds it can edit. */
  function ShowPriceFilter(hasResults: bool, bounds: NumericRange): (shown: bool)
    ensures shown ==> hasResults && bounds.min < bounds.max
  {
    hasResults && bounds.min < bounds.max
  }

  /** With results shown, the bounds come from a non-empty list, and they
      differ exactly when two flights have different prices. */
  lemma PriceFilterShownIffPricesDiffer(isSuccess: bool, flights: seq<Flight>, filtered: seq<Flight>)
    requires HasResults(isSuccess, filtered) && |flights| > 0
    ensures ShowPriceFilter(HasResults(isSuccess, filtered), FilteredFlights.PriceBounds(flights))
        <==> exists i, j :: 0 <= i < |flights| && 0 <= j < |flights| && flights[i].price != flights[j].price
  {
    var b := FilteredFlights.PriceBounds(flights);
    var ps := FilteredFlights.Prices(flights);
    if b.min < b.max {
      var i :| 0 <= i < |ps| && ps[i] == b.min;
      var j :| 0 <= j < |ps| && ps[j] == b.max;
      assert flights[i].price != flights[j].price;
    }
  }

  /** `chartData`: the chart of the filtered flights when there are
      results, otherwise empty. */
  method ChartData(hasResults: bool, filtered: seq<Flight>) returns (items: seq<PriceChart.ChartItem>)
    ensures hasResults ==> items == PriceChart.ChartSpec(filtered)
    ensures !hasResults ==> items == []
  {
    if hasResults {
      items := PriceChart.BuildPriceChartData(filtered);
    } else {
      items := [];
    }
  }
}
