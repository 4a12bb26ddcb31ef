/** `useFlights` (src/hooks/useFlights.ts): three state cells and the
    asynchronous `searchFlights`, split at its `await` into the part that
    runs when the search starts and the part that runs when the request
    settles. Nothing orders or cancels overlapping searches. */
module FlightsSession {
  import opened FlightTypes
  import opened UrlParams

  const LoadError := "Unable to load flights"

  /** How the JSON body of a response could be read. */
  datatype Body = Parsed(flights: seq<Flight>) | Unreadable

  /** How the request settled: a response with its `ok` flag and body, or a
      rejected `fetch`. */
  datatype Reply = Responded(ok: bool, body: Body) | FetchFailed

  predicate Succeeded(reply: Reply) {
    reply.Responded? && reply.ok && reply.body.Parsed?
  }

  class Session {
    var flights: seq<Flight>
    var isLoading: bool
    var error: Option<string>

    constructor ()
      ensures flights == [] && !isLoading && error == None
    {
      flights := [];
      isLoading := false;
      error := None;
    }

    /** The synchronous start of `searchFlights`: loading on, error cleared,
        and the query string for the request. */
    method BeginSearch(params: SearchParams) returns (query: Query)
      modifies this
      ensures isLoading && error == None && flights == old(flights)
      ensures Keys(query) == ["origin", "destination", "date"]
      ensures Get(query, "origin") == Some(params.origin)
      ensures Get(query, "destination") == Some(params.destination)
      ensures Get(query, "date") == Some(params.date)
    {
      isLoading := true;
      error := None;
      query := [("origin", params.origin), ("destination", params.destination), ("date", params.date)];
    }

    /** The rest of `searchFlights` once the request settles: on success the
        list is replaced (an empty list is a success), on any failure the
        error is set and the list kept; loading ends either way. */
    method CompleteSearch(reply: Reply)
      modifies this
      ensures !isLoading
      ensures Succeeded(reply) ==> flights == reply.body.flights && error == old(error)
      ensures !Succeeded(reply) ==> error == Some(LoadError) && flights == old(flights)
    {
      if reply.Responded? && reply.ok && reply.body.Parsed? {
        flights := reply.body.flights;
      } else {
        error := Some(LoadError);
      }
      isLoading := false;
    }
  }

  /** One search from start to end: the shown list and error depend only on
      the reply and on the list shown before. */
  method SingleSearch(s: Session, params: SearchParams, reply: Reply)
    modifies s
    ensures !s.isLoading
    ensures Succeeded(reply) ==> s.flights == reply.body.flights && s.error == None
    ensures !Succeeded(reply) ==> s.flights == old(s.flights) && s.error == Some(LoadError)
  {
    var query := s.BeginSearch(params);
    s.CompleteSearch(reply);
  }

  /** Two overlapping searches whose replies arrive in the opposite order:
      the first reply to arrive already ends loading, and the one that
      arrives last decides the list, whichever search it belongs to. */
  method OverlappingSearches(first: SearchParams, second: SearchParams, late: seq<Flight>, early: seq<Flight>)
    returns (loadingAfterFirstReply: bool, shown: seq<Flight>)
    ensures !loadingAfterFirstReply
    ensures shown == late
  {
    var s := new Session();
    var q1 := s.BeginSearch(first);
    var q2 := s.BeginSearch(second);
    s.CompleteSearch(Responded(true, Parsed(early)));
    loadingAfterFirstReply := s.isLoading;
    s.CompleteSearch(Responded(true, Parsed(late)));
    shown := s.flights;
  }
}
