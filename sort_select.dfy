/** The sort selector of src/components/SortSelect/SortSelect.tsx: a fixed
    table of eight options, each identified by the text "<key>:<order>",
    and the change handler that splits that text back at ':'. */
module SortSelect {
  import opened Strings
  import opened FlightTypes
  import Seqs

  datatype SortOption = SortOption(caption: string, key: SortKey, order: SortOrder)

  /** `OPTIONS`. */
  const Options: seq<SortOption> := [
    SortOption("Price: low to high", Price, Asc),
    SortOption("Price: high to low", Price, Desc),
    SortOption("Duration: shortest", Duration, Asc),
    SortOption("Duration: longest", Duration, Desc),
    SortOption("Departure: earliest", Departure, Asc),
    SortOption("Departure: latest", Departure, Desc),
    SortOption("Airline: A\U{2013}Z", Airline, Asc),
    SortOption("Airline: Z\U{2013}A", Airline, Desc)]

  function KeyText(key: SortKey): string {
    match key
    case Price => "price"
    case Duration => "duration"
    case Departure => "departure"
    case Airline => "airline"
  }

  function OrderText(order: SortOrder): string {
    match order
    case Asc => "asc"
    case Desc => "desc"
  }

  function ParseKey(text: string): (key: Option<SortKey>)
    ensures key.Some? ==> KeyText(key.value) == text
  {
    if text == "price" then Some(Price)
    else if text == "duration" then Some(Duration)
    else if text == "departure" then Some(Departure)
    else if text == "airline" then Some(Airline)
    else None
  }

  function ParseOrder(text: string): (order: Option<SortOrder>)
    ensures order.Some? ==> OrderText(order.value) == text
  {
    if text == "asc" then Some(Asc) else if text == "desc" then Some(Desc) else None
  }

  /** `${key}:${order}`, the value of the select and of each option. */
  function Encode(sort: SortState): string {
    KeyText(sort.key) + ":" + OrderText(sort.order)
  }

  /** `handleChange`: `value.split(':')`, its first two parts read as key
      and order. The source casts them unchecked; here a text that is not
      a known key or order gives `None`. */
  function Decode(value: string): (sort: Option<SortState>)
    ensures sort.Some? ==> Encode(sort.value) == value || |Split(value, ':')| > 2
  {
    var parts := Split(value, ':');
    if |parts| < 2 then None
    else
      match (ParseKey(parts[0]), ParseOrder(parts[1]))
      case (Some(key), Some(order)) =>
        if |parts| == 2 then
          assert parts == [parts[0], parts[1]];
          SplitJoin(value);
          Some(SortState(key, order))
        else Some(SortState(key, order))
      case _ => None
  }

  /** Splitting at the first ':' and joining again gives the text back when
      there is exactly one ':'. */
  lemma SplitJoin(value: string)
    requires |Split(value, ':')| == 2
    ensures value == Split(value, ':')[0] + ":" + Split(value, ':')[1]
  {
    var i := IndexOf(value, ':');
    assert i < |value|;
    var rest := value[i + 1..];
    assert IndexOf(rest, ':') == |rest|;
    assert value == value[..i] + [':'] + rest;
  }

  /** Decoding the value of any sort state gives that state back. */
  lemma DecodeEncode(sort: SortState)
    ensures Decode(Encode(sort)) == Some(sort)
  {
    TextsHaveNoColon(sort);
    SplitPair(KeyText(sort.key), OrderText(sort.order), ':');
    assert Encode(sort) == KeyText(sort.key) + [':'] + OrderText(sort.order);
    ParseTexts(sort);
  }

  lemma TextsHaveNoColon(sort: SortState)
    ensures ':' !in KeyText(sort.key) && ':' !in OrderText(sort.order)
  {
  }

  lemma ParseTexts(sort: SortState)
    ensures ParseKey(KeyText(sort.key)) == Some(sort.key)
    ensures ParseOrder(OrderText(sort.order)) == Some(sort.order)
  {
  }

  function OptionValues(): (values: seq<string>)
    ensures |values| == |Options|
    ensures forall i :: 0 <= i < |Options| ==> values[i] == Encode(SortState(Options[i].key, Options[i].order))
  {
    seq(|Options|, i requires 0 <= i < |Options| => Encode(SortState(Options[i].key, Options[i].order)))
  }

  /** Eight options, one for each key and order, with distinct values, and
      the value of every sort state among them. */
  lemma OptionsComplete()
    ensures |Options| == 8
    ensures forall sort: SortState :: Encode(sort) in OptionValues()
    ensures Seqs.NoDups(OptionValues())
  {
    var values := OptionValues();
    forall sort: SortState ensures Encode(sort) in values {
      var i := OptionIndex(sort);
      assert values[i] == Encode(sort);
    }
    forall i, j | 0 <= i < j < |values| ensures values[i] != values[j] {
      OptionsDistinct(i, j);
      EncodeInjective(SortState(Options[i].key, Options[i].order), SortState(Options[j].key, Options[j].order));
    }
  }

  /** The option that offers a sort state. */
  function OptionIndex(sort: SortState): (i: nat)
    ensures i < |Options| && Options[i].key == sort.key && Options[i].order == sort.order
  {
    match (sort.key, sort.order)
    case (Price, Asc) => 0 case (Price, Desc) => 1
    case (Duration, Asc) => 2 case (Duration, Desc) => 3
    case (Departure, Asc) => 4 case (Departure, Desc) => 5
    case (Airline, Asc) => 6 case (Airline, Desc) => 7
  }

  lemma OptionsDistinct(i: nat, j: nat)
    requires i < j < |Options|
    ensures SortState(Options[i].key, Options[i].order) != SortState(Options[j].key, Options[j].order)
  {
  }

  /** Different sort states have different values. */
  lemma EncodeInjective(a: SortState, b: SortState)
    ensures Encode(a) == Encode(b) ==> a == b
  {
    DecodeEncode(a);
    DecodeEncode(b);
  }
}
