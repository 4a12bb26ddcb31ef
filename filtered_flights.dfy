/** The filter and sort engine of src/hooks/useFilteredFlights.ts: price
    bounds derived from the result set, the AND-ed filter predicate, the
    airline toggle, and the hook's `filters`/`sort` state with its setters
    and its "reset on new search" effect. */
module FilteredFlights {
  import opened FlightTypes
  import opened Seqs
  import opened FlightSort

  /* ---------------- Derived bounds ---------------- */

  /** `flights.map((f) => f.price)`. */
  function Prices(flights: seq<Flight>): (ps: seq<int>)
    ensures |ps| == |flights|
    ensures forall i :: 0 <= i < |flights| ==> ps[i] == flights[i].price
  {
    if flights == [] then [] else [flights[0].price] + Prices(flights[1..])
  }

  /** `Math.min(...xs)` for a non-empty list. */
  function MinOf(xs: seq<int>): (m: int)
    requires |xs| > 0
    ensures m in xs && forall x :: x in xs ==> m <= x
  {
    if |xs| == 1 then xs[0]
    else
      var rest := MinOf(xs[1..]);
      assert xs == [xs[0]] + xs[1..];
      if xs[0] <= rest then xs[0] else rest
  }

  /** `Math.max(...xs)` for a non-empty list. */
  function MaxOf(xs: seq<int>): (m: int)
    requires |xs| > 0
    ensures m in xs && forall x :: x in xs ==> x <= m
  {
    if |xs| == 1 then xs[0]
    else
      var rest := MaxOf(xs[1..]);
      assert xs == [xs[0]] + xs[1..];
      if xs[0] >= rest then xs[0] else rest
  }

  /** `getPriceBounds`: {0, 0} for no flights, otherwise the lowest and the
      highest price of the list. */
  function PriceBounds(flights: seq<Flight>): (b: NumericRange)
    ensures |flights| == 0 ==> b == NumericRange(0, 0)
    ensures |flights| > 0 ==> b.min in Prices(flights) && b.max in Prices(flights)
    ensures forall i :: 0 <= i < |flights| ==> b.min <= flights[i].price <= b.max
    ensures b.min <= b.max
  {
    if |flights| == 0 then NumericRange(0, 0)
    else
      var prices := Prices(flights);
      assert prices[0] in prices;
      assert forall i :: 0 <= i < |flights| ==> prices[i] in prices;
      NumericRange(MinOf(prices), MaxOf(prices))
  }

  /* ---------------- Filter predicate ---------------- */

  /** The stops test: 'any' keeps everything, 2 means "two or more", and 0
      and 1 ask for exactly that many stops. */
  function StopsTest(stops: StopsFilter, flightStops: int): (keep: bool)
    ensures keep <==>
      || stops.AnyStops?
      || (stops.Stops? && stops.count == 2 && flightStops >= 2)
      || (stops.Stops? && stops.count < 2 && flightStops == stops.count)
  {
    if stops.AnyStops? then true
    else if stops.count == 2 && flightStops < 2 then false
    else if stops.count != 2 && flightStops != stops.count then false
    else true
  }

  /** The price test, inclusive at both ends. */
  function PriceTest(range: NumericRange, price: int): (keep: bool)
    ensures keep <==> range.min <= price <= range.max
  {
    !(price < range.min || price > range.max)
  }

  /** The airline test: an empty selection restricts nothing. */
  function AirlineTest(airlines: seq<string>, airline: string): (keep: bool)
    ensures keep <==> airlines == [] || airline in airlines
  {
    !(|airlines| > 0 && airline !in airlines)
  }

  /** The callback given to `flights.filter`: all three tests must pass. */
  predicate KeepsFlight(filters: FlightFilters, flight: Flight) {
    && StopsTest(filters.stops, flight.stops)
    && PriceTest(filters.priceRange, flight.price)
    && AirlineTest(filters.airlines, flight.airline)
  }

  /** `filteredFlights`: an order-preserving sub-list of `flights` whose
      members all pass the filter (FilterCounts adds that none is lost). */
  function FilterFlights(flights: seq<Flight>, filters: FlightFilters): (kept: seq<Flight>)
    ensures IsSubsequence(kept, flights)
    ensures forall f :: f in kept ==> KeepsFlight(filters, f)
  {
    if flights == [] then []
    else
      var rest := FilterFlights(flights[1..], filters);
      assert flights == [flights[0]] + flights[1..];
      if KeepsFlight(filters, flights[0]) then
        var kept := [flights[0]] + rest;
        assert kept[1..] == rest;
        kept
      else
        assert rest != [] ==> rest[0] in rest;
        rest
  }

  /** Every flight that passes the filter is kept as often as it occurs in
      the input, and every other flight is dropped. */
  lemma {:induction false} FilterCounts(flights: seq<Flight>, filters: FlightFilters, f: Flight)
    ensures multiset(FilterFlights(flights, filters))[f] ==
      if KeepsFlight(filters, f) then multiset(flights)[f] else 0
  {
    if flights != [] {
      assert flights == [flights[0]] + flights[1..];
      FilterCounts(flights[1..], filters, f);
    }
  }

  /* ---------------- Airline toggle ---------------- */

  /** `airlines.filter((a) => a !== airline)`. */
  function Without(airlines: seq<string>, airline: string): (r: seq<string>)
    ensures airline !in r
    ensures forall b :: b != airline ==> (b in r <==> b in airlines)
    ensures NoDups(airlines) ==> NoDups(r)
    ensures IsSubsequence(r, airlines)
    ensures forall b :: b != airline ==> multiset(r)[b] == multiset(airlines)[b]
  {
    if airlines == [] then []
    else
      var rest := Without(airlines[1..], airline);
      assert airlines == [airlines[0]] + airlines[1..];
      if airlines[0] == airline then
        assert rest != [] ==> rest[0] != airlines[0];
        rest
      else
        assert NoDups(airlines) ==> airlines[0] !in airlines[1..];
        assert ([airlines[0]] + rest)[1..] == rest;
        [airlines[0]] + rest
  }

  lemma {:induction false} WithoutAbsent(airlines: seq<string>, airline: string)
    requires airline !in airlines
    ensures Without(airlines, airline) == airlines
  {
    if airlines != [] {
      WithoutAbsent(airlines[1..], airline);
    }
  }

  lemma {:induction false} WithoutAppended(airlines: seq<string>, airline: string)
    ensures Without(airlines + [airline], airline) == Without(airlines, airline)
  {
    if airlines == [] {
      assert airlines + [airline] == [airline];
    } else {
      assert (airlines + [airline])[1..] == airlines[1..] + [airline];
      WithoutAppended(airlines[1..], airline);
    }
  }

  /** `toggleAirline`'s update: append the airline when it is not selected,
      otherwise remove every occurrence of it. */
  function Toggled(airlines: seq<string>, airline: string): (r: seq<string>)
    ensures airline in r <==> airline !in airlines
    ensures airline !in airlines ==> r == airlines + [airline]
    ensures airline in airlines ==> IsSubsequence(r, airlines)
    ensures forall b :: b != airline ==> (b in r <==> b in airlines)
    ensures NoDups(airlines) ==> NoDups(r)
  {
    if airline in airlines then Without(airlines, airline) else airlines + [airline]
  }

  /** Toggling twice restores the airline's membership; starting from an
      unselected airline it restores the list itself. */
  lemma ToggleTwice(airlines: seq<string>, airline: string)
    ensures airline in Toggled(Toggled(airlines, airline), airline) <==> airline in airlines
    ensures airline !in airlines ==> Toggled(Toggled(airlines, airline), airline) == airlines
  {
    if airline !in airlines {
      WithoutAppended(airlines, airline);
      WithoutAbsent(airlines, airline);
    }
  }

  /* ---------------- Reset rule ---------------- */

  /** The reset effect acts only for a truthy `searchKey` and a non-empty
      result set. */
  predicate ResetApplies(searchKey: Option<string>, flights: seq<Flight>) {
    searchKey.Some? && searchKey.value != "" && |flights| > 0
  }

  /** The effect's dependency list `[searchKey, priceBounds.min,
      priceBounds.max, flights.length]` differs between two renders. */
  predicate ResetDepsChanged(oldKey: Option<string>, oldFlights: seq<Flight>,
                             newKey: Option<string>, newFlights: seq<Flight>)
  {
    || oldKey != newKey
    || PriceBounds(oldFlights) != PriceBounds(newFlights)
    || |oldFlights| != |newFlights|
  }

  /** The clamp effect's update: the range narrowed to lie within the
      bounds, and left as it is when it already does. */
  function Clamped(range: NumericRange, bounds: NumericRange): (r: NumericRange)
    ensures bounds.min <= r.min && r.max <= bounds.max
    ensures r.min == range.min || r.min == bounds.min
    ensures r.max == range.max || r.max == bounds.max
    ensures bounds.min <= range.min && range.max <= bounds.max ==> r == range
  {
    NumericRange(if range.min >= bounds.min then range.min else bounds.min,
                 if range.max <= bounds.max then range.max else bounds.max)
  }

  /** The filters after the reset effect of one render. */
  function FiltersAfterReset(oldKey: Option<string>, oldFlights: seq<Flight>, oldFilters: FlightFilters,
                             newKey: Option<string>, newFlights: seq<Flight>): FlightFilters
  {
    if ResetDepsChanged(oldKey, oldFlights, newKey, newFlights) && ResetApplies(newKey, newFlights)
    then DefaultFilters(PriceBounds(newFlights))
    else oldFilters
  }

  /** The hook's state. `flights` and `searchKey` are the arguments of the
      latest render; `filters` and `sort` are its two state cells;
      `hasHydratedFromUrl` is its ref, which nothing in the hook sets. */
  class FilterEngine {
    var flights: seq<Flight>
    var searchKey: Option<string>
    var filters: FlightFilters
    var sort: SortState
    var hasHydratedFromUrl: bool

    /** The first render: both state cells take their initial values (the
        mount run of the reset effect writes the same values again, and the
        mount run of the clamp effect returns at once). */
    constructor (flights: seq<Flight>, searchKey: Option<string>)
      ensures this.flights == flights && this.searchKey == searchKey
      ensures filters == DefaultFilters(PriceBounds(flights))
      ensures sort == DefaultSort
      ensures !hasHydratedFromUrl
    {
      this.flights := flights;
      this.searchKey := searchKey;
      filters := DefaultFilters(PriceBounds(flights));
      sort := DefaultSort;
      hasHydratedFromUrl := false;
    }

    function Bounds(): NumericRange
      reads this
    {
      PriceBounds(flights)
    }

    function Filtered(): seq<Flight>
      reads this
    {
      FilterFlights(flights, filters)
    }

    /** `sortedFlights`: the filtered list in the selected order. */
    method Sorted(epoch: string -> int) returns (sorted: seq<Flight>)
      ensures sorted == SortSpec(sort, epoch, Filtered())
      ensures multiset(sorted) == multiset(Filtered())
      ensures forall f :: f in sorted ==> f in flights && KeepsFlight(filters, f)
    {
      sorted := SortFlights(Filtered(), sort, epoch);
      forall f | f in sorted ensures f in flights && KeepsFlight(filters, f) {
        assert f in multiset(Filtered());
        SubsequenceMembers(Filtered(), flights, f);
      }
    }

    /** The body of the reset effect. */
    method ResetOnNewSearch()
      modifies this
      ensures flights == old(flights) && searchKey == old(searchKey)
      ensures hasHydratedFromUrl == old(hasHydratedFromUrl)
      ensures ResetApplies(searchKey, flights) ==>
        filters == DefaultFilters(PriceBounds(flights)) && sort == DefaultSort
      ensures !ResetApplies(searchKey, flights) ==> filters == old(filters) && sort == old(sort)
    {
      if searchKey.None? || searchKey.value == "" { return; }
      if |flights| == 0 { return; }
      filters := DefaultFilters(PriceBounds(flights));
      sort := DefaultSort;
    }

    /** The body of the clamp effect: nothing unless the ref is set. */
    method ClampOnBoundsChange()
      modifies this
      ensures flights == old(flights) && searchKey == old(searchKey) && sort == old(sort)
      ensures hasHydratedFromUrl == old(hasHydratedFromUrl)
      ensures hasHydratedFromUrl ==>
        filters == old(filters).(priceRange := Clamped(old(filters.priceRange), PriceBounds(flights)))
      ensures !hasHydratedFromUrl ==> filters == old(filters)
    {
      if !hasHydratedFromUrl { return; }
      var bounds := PriceBounds(flights);
      filters := filters.(priceRange := NumericRange(
        if filters.priceRange.min >= bounds.min then filters.priceRange.min else bounds.min,
        if filters.priceRange.max <= bounds.max then filters.priceRange.max else bounds.max));
    }

    /** A later render with new arguments. The reset effect runs when one of
        its dependencies changed, then the clamp effect when the bounds
        changed; with the ref unset (as the hook leaves it) the filters are
        those after the reset. */
    method Rerender(newFlights: seq<Flight>, newKey: Option<string>)
      modifies this
      ensures flights == newFlights && searchKey == newKey
      ensures hasHydratedFromUrl == old(hasHydratedFromUrl)
      ensures sort == if ResetDepsChanged(old(searchKey), old(flights), newKey, newFlights)
                         && ResetApplies(newKey, newFlights)
                      then DefaultSort else old(sort)
      ensures !hasHydratedFromUrl ==>
        filters == FiltersAfterReset(old(searchKey), old(flights), old(filters), newKey, newFlights)
      ensures hasHydratedFromUrl && PriceBounds(old(flights)) != PriceBounds(newFlights) ==>
        var reset := FiltersAfterReset(old(searchKey), old(flights), old(filters), newKey, newFlights);
        filters == reset.(priceRange := Clamped(reset.priceRange, PriceBounds(newFlights)))
    {
      var resetDeps := ResetDepsChanged(searchKey, flights, newKey, newFlights);
      var boundsChanged := PriceBounds(flights) != PriceBounds(newFlights);
      flights, searchKey := newFlights, newKey;
      if resetDeps {
        ResetOnNewSearch();
      }
      if boundsChanged {
        ClampOnBoundsChange();
      }
    }

    method SetStops(stops: StopsFilter)
      modifies this
      ensures filters == old(filters).(stops := stops)
      ensures sort == old(sort) && flights == old(flights) && searchKey == old(searchKey)
      ensures hasHydratedFromUrl == old(hasHydratedFromUrl)
    {
      filters := filters.(stops := stops);
    }

    method SetPriceRange(min: int, max: int)
      modifies this
      ensures filters == old(filters).(priceRange := NumericRange(min, max))
      ensures sort == old(sort) && flights == old(flights) && searchKey == old(searchKey)
      ensures hasHydratedFromUrl == old(hasHydratedFromUrl)
    {
      filters := filters.(priceRange := NumericRange(min, max));
    }

    method ToggleAirline(airline: string)
      modifies this
      ensures filters == old(filters).(airlines := Toggled(old(filters.airlines), airline))
      ensures sort == old(sort) && flights == old(flights) && searchKey == old(searchKey)
      ensures hasHydratedFromUrl == old(hasHydratedFromUrl)
      ensures NoDups(old(filters.airlines)) ==> NoDups(filters.airlines)
    {
      var selected := airline in filters.airlines;
      filters := filters.(airlines := if selected then Without(filters.airlines, airline)
                                      else filters.airlines + [airline]);
    }

    /** Filters back to the defaults for the current bounds; `sort` is kept.
        The new state does not depend on the old filters, so a second call
        changes nothing. */
    method ResetFilters()
      modifies this
      ensures filters == DefaultFilters(PriceBounds(flights))
      ensures sort == old(sort) && flights == old(flights) && searchKey == old(searchKey)
      ensures hasHydratedFromUrl == old(hasHydratedFromUrl)
    {
      filters := DefaultFilters(PriceBounds(flights));
    }

    method SetSort(next: SortState)
      modifies this
      ensures sort == next
      ensures filters == old(filters) && flights == old(flights) && searchKey == old(searchKey)
      ensures hasHydratedFromUrl == old(hasHydratedFromUrl)
    {
      sort := next;
    }
  }

  /* ---------------- A worked example ---------------- */

  const ExampleA := Flight("1", "Aero", 100, 0, "2026-02-03T08:00:00", "2026-02-03T16:00:00", "PT8H")
  const ExampleB := Flight("2", "Blue", 200, 1, "2026-02-03T09:00:00", "2026-02-03T19:00:00", "PT10H")
  const ExampleC := Flight("3", "Aero", 300, 2, "2026-02-03T10:00:00", "2026-02-03T22:00:00", "PT12H")

  lemma ExampleBounds()
    ensures PriceBounds([ExampleA, ExampleB, ExampleC]) == NumericRange(100, 300)
  {
    var fs := [ExampleA, ExampleB, ExampleC];
    assert fs[1..] == [ExampleB, ExampleC] && fs[1..][1..] == [ExampleC];
    assert Prices([ExampleC]) == [300];
    assert Prices(fs) == [100, 200, 300];
    var ps := [100, 200, 300];
    assert ps[1..] == [200, 300] && ps[1..][1..] == [300];
    assert MinOf([200, 300]) == 200 && MaxOf([200, 300]) == 300;
  }

  lemma FilterStep(flights: seq<Flight>, filters: FlightFilters)
    requires flights != []
    ensures FilterFlights(flights, filters) ==
      (if KeepsFlight(filters, flights[0]) then [flights[0]] else []) + FilterFlights(flights[1..], filters)
  {
  }

  lemma ExampleFilter(filters: FlightFilters)
    requires filters.stops == AnyStops && filters.airlines == []
    ensures FilterFlights([ExampleA, ExampleB, ExampleC], filters) ==
      (if PriceTest(filters.priceRange, 100) then [ExampleA] else []) +
      (if PriceTest(filters.priceRange, 200) then [ExampleB] else []) +
      (if PriceTest(filters.priceRange, 300) then [ExampleC] else [])
  {
    var fs := [ExampleA, ExampleB, ExampleC];
    assert fs[1..] == [ExampleB, ExampleC] && fs[1..][1..] == [ExampleC] && [ExampleC][1..] == [];
    FilterStep(fs, filters);
    FilterStep([ExampleB, ExampleC], filters);
    FilterStep([ExampleC], filters);
    assert FilterFlights([], filters) == [];
    Assoc3(if KeepsFlight(filters, ExampleA) then [ExampleA] else [],
           if KeepsFlight(filters, ExampleB) then [ExampleB] else [],
           if KeepsFlight(filters, ExampleC) then [ExampleC] else []);
  }

  lemma Assoc3<T>(x: seq<T>, y: seq<T>, z: seq<T>)
    ensures x + (y + (z + [])) == x + y + z
  {
  }

  /** Three flights priced 100, 200 and 300: the range [150, 250] keeps
      only the 200 one, and the default filters keep all three. */
  lemma PriceRangeExample()
    ensures FilterFlights([ExampleA, ExampleB, ExampleC],
                          FlightFilters(AnyStops, NumericRange(150, 250), [])) == [ExampleB]
    ensures FilterFlights([ExampleA, ExampleB, ExampleC],
                          DefaultFilters(PriceBounds([ExampleA, ExampleB, ExampleC])))
            == [ExampleA, ExampleB, ExampleC]
  {
    ExampleBounds();
    ExampleFilter(FlightFilters(AnyStops, NumericRange(150, 250), []));
    ExampleFilter(FlightFilters(AnyStops, NumericRange(100, 300), []));
  }

  /** The same example driven through the hook: narrowing the range keeps
      one flight, `resetFilters` brings back all three, and a re-render
      with the same arguments leaves the filters alone. */
  method PriceRangeScenario() returns (narrowed: seq<Flight>, restored: seq<Flight>, rerendered: seq<Flight>)
    ensures narrowed == [ExampleB]
    ensures restored == [ExampleA, ExampleB, ExampleC]
    ensures rerendered == [ExampleB]
  {
    var fs := [ExampleA, ExampleB, ExampleC];
    PriceRangeExample();
    ExampleBounds();
    var engine := new FilterEngine(fs, Some("EZE-JFK-2026-02-03"));
    engine.SetPriceRange(150, 250);
    narrowed := engine.Filtered();
    engine.Rerender(fs, Some("EZE-JFK-2026-02-03"));
    rerendered := engine.Filtered();
    engine.ResetFilters();
    restored := engine.Filtered();
  }
}
