/** `buildPriceChartData` (src/lib/priceChart.ts): the flights grouped by
    airline in a `Map` (whose entries keep the order in which their keys
    were first set), then one item per group with the average price. */
module PriceChart {
  import opened FlightTypes
  import opened Seqs

  datatype ChartItem = ChartItem(airline: string, averagePrice: real)

  /** The airline of every flight, in order. */
  function Airlines(flights: seq<Flight>): (names: seq<string>)
    ensures |names| == |flights|
    ensures forall i :: 0 <= i < |flights| ==> names[i] == flights[i].airline
  {
    seq(|flights|, i requires 0 <= i < |flights| => flights[i].airline)
  }

  /** The prices of the flights of one airline, in input order. */
  function PricesOf(flights: seq<Flight>, airline: string): (prices: seq<int>)
    ensures |prices| <= |flights|
    ensures airline in Airlines(flights) ==> |prices| >= 1
    ensures airline !in Airlines(flights) ==> prices == []
  {
    if flights == [] then []
    else
      var init := flights[..|flights| - 1];
      var last := flights[|flights| - 1];
      var before := PricesOf(init, airline);
      assert Airlines(flights) == Airlines(init) + [last.airline];
      assert forall i :: 0 <= i < |init| ==> flights[i] == init[i];
      before + if last.airline == airline then [last.price] else []
  }

  function Sum(xs: seq<int>): int {
    if xs == [] then 0 else Sum(xs[..|xs| - 1]) + xs[|xs| - 1]
  }

  /** `prices.reduce((sum, price) => sum + price, 0) / prices.length`,
      over the reals. */
  function Average(prices: seq<int>): real
    requires |prices| >= 1
  {
    (Sum(prices) as real) / (|prices| as real)
  }

  /** The chart as the grouping defines it: one item for each distinct
      airline, in order of first appearance, carrying the average of that
      airline's prices. */
  function ChartSpec(flights: seq<Flight>): seq<ChartItem> {
    var names := Dedup(Airlines(flights));
    seq(|names|, j requires 0 <= j < |names| => ChartItem(names[j], Average(PricesOf(flights, names[j]))))
  }

  /** Each airline of the input appears once, no other name appears, the
      order is that of first appearance, and an empty input gives an empty
      chart. */
  lemma ChartSpecAirlines(flights: seq<Flight>)
    ensures var items := ChartSpec(flights);
      && (forall i :: 0 <= i < |flights| ==> exists j :: 0 <= j < |items| && items[j].airline == flights[i].airline)
      && (forall j :: 0 <= j < |items| ==> items[j].airline in Airlines(flights))
      && (forall j, k :: 0 <= j < k < |items| ==> items[j].airline != items[k].airline)
      && (forall j, k :: 0 <= j < k < |items| ==>
            FirstIndex(Airlines(flights), items[j].airline) < FirstIndex(Airlines(flights), items[k].airline))
      && (flights == [] ==> items == [])
  {
    ChartCovers(flights);
    ChartDistinctOrdered(flights);
    var items := ChartSpec(flights);
    assert forall i :: 0 <= i < |flights| ==>
      exists j :: 0 <= j < |items| && items[j].airline == flights[i].airline;
  }

  /** The chart's airlines are the distinct airlines, position by position. */
  lemma ChartNames(flights: seq<Flight>)
    ensures |ChartSpec(flights)| == |Dedup(Airlines(flights))|
    ensures forall j :: 0 <= j < |ChartSpec(flights)| ==> ChartSpec(flights)[j].airline == Dedup(Airlines(flights))[j]
  {
  }

  lemma ChartDistinctOrdered(flights: seq<Flight>)
    ensures var items := ChartSpec(flights);
      && (forall j :: 0 <= j < |items| ==> items[j].airline in Airlines(flights))
      && (forall j, k :: 0 <= j < k < |items| ==> items[j].airline != items[k].airline)
      && (forall j, k :: 0 <= j < k < |items| ==>
            FirstIndex(Airlines(flights), items[j].airline) < FirstIndex(Airlines(flights), items[k].airline))
      && (flights == [] ==> items == [])
  {
    ChartNames(flights);
    DedupFirstAppearance(Airlines(flights));
  }

  lemma ChartCovers(flights: seq<Flight>)
    ensures forall i :: 0 <= i < |flights| ==>
      exists j :: 0 <= j < |ChartSpec(flights)| && ChartSpec(flights)[j].airline == flights[i].airline
  {
    var names := Dedup(Airlines(flights));
    var items := ChartSpec(flights);
    ChartNames(flights);
    forall i | 0 <= i < |flights|
      ensures exists j :: 0 <= j < |items| && items[j].airline == flights[i].airline
    {
      assert Airlines(flights)[i] == flights[i].airline;
      var j := FirstIndex(names, flights[i].airline);
      assert items[j].airline == names[j];
    }
  }

  /** Every average is the sum of that airline's prices divided by their
      number, and that number is at least one. */
  lemma ChartSpecAverages(flights: seq<Flight>)
    ensures forall j :: 0 <= j < |ChartSpec(flights)| ==>
      && |PricesOf(flights, ChartSpec(flights)[j].airline)| >= 1
      && ChartSpec(flights)[j].averagePrice
         == (Sum(PricesOf(flights, ChartSpec(flights)[j].airline)) as real)
            / (|PricesOf(flights, ChartSpec(flights)[j].airline)| as real)
  {
    var names := Dedup(Airlines(flights));
    var items := ChartSpec(flights);
    forall j | 0 <= j < |items|
      ensures |PricesOf(flights, items[j].airline)| >= 1
      ensures items[j].averagePrice
         == (Sum(PricesOf(flights, items[j].airline)) as real) / (|PricesOf(flights, items[j].airline)| as real)
    {
      var a := names[j];
      assert a in names;
      assert items[j] == ChartItem(a, Average(PricesOf(flights, a)));
    }
  }

  /** Every airline of `done` with its prices. */
  function GroupMap(done: seq<Flight>): (m: map<string, seq<int>>)
    ensures forall a :: a in m <==> a in Airlines(done)
  {
    map a | a in Airlines(done) :: PricesOf(done, a)
  }

  /** The loop invariant of `BuildPriceChartData`: the grouping holds the
      distinct airlines of `done` in insertion order and their prices. */
  ghost predicate Grouping(done: seq<Flight>, keys: seq<string>, grouped: map<string, seq<int>>) {
    keys == Dedup(Airlines(done)) && grouped == GroupMap(done)
  }

  /** One more flight: its airline's price list grows by its price, the
      airline is appended to the keys when it is new, and every other
      airline's prices stay as they were. */
  lemma GroupStep(done: seq<Flight>, f: Flight, keys: seq<string>, grouped: map<string, seq<int>>)
    requires Grouping(done, keys, grouped)
    ensures Grouping(done + [f],
               if f.airline in grouped then keys else keys + [f.airline],
               grouped[f.airline := (if f.airline in grouped then grouped[f.airline] else []) + [f.price]])
  {
    var a := f.airline;
    assert a in grouped <==> a in keys;
    GroupKeysStep(done, f, keys, a in grouped);
    GroupMapAppend(done, f);
    if a in grouped {
      assert grouped[a] == PricesOf(done, a);
    } else {
      assert PricesOf(done, a) == [];
    }
  }

  lemma GroupKeysStep(done: seq<Flight>, f: Flight, keys: seq<string>, known: bool)
    requires keys == Dedup(Airlines(done)) && (known <==> f.airline in keys)
    ensures Dedup(Airlines(done + [f])) == if known then keys else keys + [f.airline]
  {
    AirlinesAppend(done, f);
    DedupAppend(Airlines(done), f.airline);
  }

  lemma GroupMapAppend(done: seq<Flight>, f: Flight)
    ensures GroupMap(done + [f]) == GroupMap(done)[f.airline := PricesOf(done, f.airline) + [f.price]]
  {
    var l := GroupMap(done + [f]);
    var r := GroupMap(done)[f.airline := PricesOf(done, f.airline) + [f.price]];
    AirlinesAppend(done, f);
    PricesAppend(done, f);
    forall b ensures b in l <==> b in r {
      assert b in Airlines(done) + [f.airline] <==> b in Airlines(done) || b == f.airline;
    }
    forall b | b in l ensures l[b] == r[b] {
    }
  }

  lemma AirlinesAppend(done: seq<Flight>, f: Flight)
    ensures Airlines(done + [f]) == Airlines(done) + [f.airline]
  {
  }

  /** A flight added at the end adds its price to its own airline only. */
  lemma PricesAppend(done: seq<Flight>, f: Flight)
    ensures forall b :: PricesOf(done + [f], b) == PricesOf(done, b) + (if f.airline == b then [f.price] else [])
  {
    var next := done + [f];
    assert next[..|next| - 1] == done;
  }

  /** The finished grouping maps to the specification chart `ChartSpec`. */
  lemma GroupedChart(flights: seq<Flight>, keys: seq<string>, grouped: map<string, seq<int>>)
    requires Grouping(flights, keys, grouped)
    ensures forall j :: 0 <= j < |keys| ==> keys[j] in grouped && |grouped[keys[j]]| >= 1
    ensures seq(|keys|, j requires 0 <= j < |keys| && keys[j] in grouped && |grouped[keys[j]]| >= 1 =>
                  ChartItem(keys[j], Average(grouped[keys[j]]))) == ChartSpec(flights)
  {
    forall j | 0 <= j < |keys| ensures keys[j] in grouped && grouped[keys[j]] == PricesOf(flights, keys[j]) {
      assert keys[j] in keys;
    }
  }

  /** `buildPriceChartData`: one pass over the flights fills the grouping
      (its keys in insertion order, and the prices per key), then the
      entries are mapped to chart items. */
  method BuildPriceChartData(flights: seq<Flight>) returns (items: seq<ChartItem>)
    ensures items == ChartSpec(flights)
  {
    var keys: seq<string> := [];
    var grouped: map<string, seq<int>> := map[];
    for i := 0 to |flights|
      invariant Grouping(flights[..i], keys, grouped)
    {
      assert flights[..i + 1] == flights[..i] + [flights[i]];
      GroupStep(flights[..i], flights[i], keys, grouped);
      var flight := flights[i];
      var prices := if flight.airline in grouped then grouped[flight.airline] else [];
      prices := prices + [flight.price];
      if flight.airline !in grouped {
        keys := keys + [flight.airline];
      }
      grouped := grouped[flight.airline := prices];
    }
    assert flights[..|flights|] == flights;
    GroupedChart(flights, keys, grouped);
    items := seq(|keys|, j requires 0 <= j < |keys| && keys[j] in grouped && |grouped[keys[j]]| >= 1 =>
                   ChartItem(keys[j], Average(grouped[keys[j]])));
  }

  const ExampleFlights := [
    Flight("1", "Aero", 100, 0, "", "", "PT1H"),
    Flight("2", "Blue", 300, 0, "", "", "PT1H"),
    Flight("3", "Aero", 200, 0, "", "", "PT1H")]

  lemma ExampleGroups()
    ensures Dedup(Airlines(ExampleFlights)) == ["Aero", "Blue"]
  {
    var fs := ExampleFlights;
    assert Airlines(fs) == ["Aero", "Blue", "Aero"];
    assert Airlines(fs)[..2] == ["Aero", "Blue"] && ["Aero", "Blue"][..1] == ["Aero"];
  }

  lemma ExamplePrices()
    ensures PricesOf(ExampleFlights, "Aero") == [100, 200]
    ensures PricesOf(ExampleFlights, "Blue") == [300]
  {
    var fs := ExampleFlights;
    assert fs[..2][..1] == fs[..1];
  }

  /** Aero at 100 and 200 and Blue at 300 chart as Aero 150, Blue 300. */
  lemma ChartExample()
    ensures ChartSpec(ExampleFlights) == [ChartItem("Aero", 150.0), ChartItem("Blue", 300.0)]
  {
    ExampleGroups();
    ExamplePrices();
    var items := ChartSpec(ExampleFlights);
    assert |items| == 2;
    assert items[0] == ChartItem("Aero", Average([100, 200]));
    assert items[1] == ChartItem("Blue", Average([300]));
    assert Sum([100, 200]) == 300 && Sum([300]) == 300;
  }
}
