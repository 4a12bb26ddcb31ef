/** The records the application passes around: a normalised flight, the
    filter and sort selections, and the three search parameters. */
module FlightTypes {

  datatype Option<T> = None | Some(value: T)

  /** One normalised offer. Prices are whole currency units; the three
      time fields are ISO 8601 texts exactly as the provider sent them. */
  datatype Flight = Flight(
    id: string,
    airline: string,
    price: int,
    stops: int,
    departureTime: string,
    arrivalTime: string,
    duration: string)

  datatype NumericRange = NumericRange(min: int, max: int)

  /** The stop filter takes the values 'any', 0, 1 and 2. */
  type StopCount = n: int | 0 <= n <= 2

  datatype StopsFilter = AnyStops | Stops(count: StopCount)

  datatype FlightFilters = FlightFilters(
    stops: StopsFilter,
    priceRange: NumericRange,
    airlines: seq<string>)

  datatype SortKey = Price | Duration | Departure | Airline

  datatype SortOrder = Asc | Desc

  datatype SortState = SortState(key: SortKey, order: SortOrder)

  datatype SearchParams = SearchParams(origin: string, destination: string, date: string)

  /** The filters every new result set starts from. */
  function DefaultFilters(bounds: NumericRange): FlightFilters {
    FlightFilters(AnyStops, bounds, [])
  }

  const DefaultSort: SortState := SortState(Price, Asc)
}
