/**
 * One polling cycle of `fetchFlights`: request the global state vectors,
 * install them as live flights on success, or switch to simulation mode on
 * any failure. The HTTP exchange is an input value.
 */
module Feed {
  import opened Wrappers
  import opened Flights
  import opened Mocks

  /** The body of a reply, as far as `response.json()` and `data.states` go. */
  datatype Body =
    | Unparsable                             // `response.json()` rejects
    | Payload(states: Option<seq<RawState>>) // None: `data` is null, or `states` is missing, null or not an array

  /** The outcome of `fetch('https://opensky-network.org/api/states/all')`. */
  datatype Response =
    | NetworkFailure                 // `fetch` rejects
    | Reply(status: int, body: Body)

  /** `response.ok`. */
  predicate StatusOk(status: int) {
    200 <= status <= 299
  }

  /** Simulated flights are regenerated only when fewer than this many are shown. */
  const RegenerateBelow := 5

  /** The flights the `try` block installs, or None when it throws into the `catch`. */
  function LiveFlights(resp: Response): (r: Option<seq<Flight>>)
    ensures r.Some? ==> 1 <= |r.value| <= MaxLiveFlights
  {
    match resp
    case NetworkFailure => None
    case Reply(status, body) =>
      if !StatusOk(status) then None
      else
        match body
        case Unparsable => None
        case Payload(states) =>
          if states.None? || |states.value| == 0 then None
          else Normalise(states.value)
  }

  /** A reply that gets past the status check and the "no live flights" check. */
  predicate NonEmptyOkReply(resp: Response) {
    && resp.Reply? && StatusOk(resp.status)
    && resp.body.Payload? && resp.body.states.Some? && |resp.body.states.value| > 0
  }

  /**
   * Live data is obtained exactly from an ok reply with a non-empty `states`
   * array whose first hundred entries all decode; it is then those entries,
   * decoded in order: between 1 and 100 flights, all marked with the unknown airline.
   */
  lemma LiveFlightsSpec(resp: Response)
    ensures LiveFlights(resp).Some? <==>
      && NonEmptyOkReply(resp)
      && var states := resp.body.states.value;
         forall k :: 0 <= k < Min(|states|, MaxLiveFlights) ==> Decodable(states[k])
    ensures LiveFlights(resp).Some? ==>
      && var states := resp.body.states.value;
      && var live := LiveFlights(resp).value;
      && |live| == Min(|states|, MaxLiveFlights)
      && 1 <= |live| <= MaxLiveFlights
      && (forall k :: 0 <= k < |live| ==> live[k] == NormaliseState(states[k]).value)
      && (forall k :: 0 <= k < |live| ==> live[k].airline == UnknownAirline && live[k].to == UnknownPlace)
  {
    if NonEmptyOkReply(resp) {
      var states := resp.body.states.value;
      NormaliseSpec(states);
      assert LiveFlights(resp) == Normalise(states);
      if Normalise(states).Some? {
        var live := Normalise(states).value;
        forall k | 0 <= k < |live| ensures live[k].airline == UnknownAirline && live[k].to == UnknownPlace {
          assert live[k] == NormaliseState(states[k]).value;
        }
      }
    }
  }

  /** What `fetchFlights` reads and writes of the component state. */
  datatype FeedState = FeedState(flights: seq<Flight>, isSimulation: bool)

  /**
   * The effect of one cycle. `seenCount` is `flights.length` as the running
   * closure sees it, passed separately because a polling closure can hold an
   * older `flights` than the current one.
   */
  function Cycle(st: FeedState, userLoc: Option<Coord>, seenCount: nat, resp: Response, draws: seq<MockDraw>): (next: FeedState)
    requires |draws| == MockCount
    ensures |st.flights| <= MaxLiveFlights ==> |next.flights| <= MaxLiveFlights
  {
    if userLoc.None? then st
    else
      match LiveFlights(resp)
      case Some(live) => FeedState(live, false)
      case None =>
        FeedState(if seenCount < RegenerateBelow then MockBatch(userLoc.value, draws) else st.flights, true)
  }

  /** Without a location the cycle returns before doing anything. */
  lemma CycleWithoutLocation(st: FeedState, seenCount: nat, resp: Response, draws: seq<MockDraw>)
    requires |draws| == MockCount
    ensures Cycle(st, None, seenCount, resp, draws) == st
  {
  }

  /** A successful cycle installs the decoded live flights and leaves simulation mode. */
  lemma CycleSuccess(st: FeedState, loc: Coord, seenCount: nat, resp: Response, draws: seq<MockDraw>)
    requires |draws| == MockCount && LiveFlights(resp).Some?
    ensures var next := Cycle(st, Some(loc), seenCount, resp, draws);
      && next.flights == LiveFlights(resp).value
      && !next.isSimulation
      && 1 <= |next.flights| <= MaxLiveFlights
      && forall k :: 0 <= k < |next.flights| ==> next.flights[k].airline == UnknownAirline
  {
    LiveFlightsSpec(resp);
  }

  /**
   * A failed cycle enters simulation mode and never installs live data: with
   * fewer than five flights seen it shows a fresh batch of fifteen simulated
   * flights around the observer with distinct ids, otherwise it keeps the flights it had.
   */
  lemma CycleFailure(st: FeedState, loc: Coord, seenCount: nat, resp: Response, draws: seq<MockDraw>)
    requires |draws| == MockCount && LiveFlights(resp).None?
    ensures var next := Cycle(st, Some(loc), seenCount, resp, draws);
      && next.isSimulation
      && (seenCount >= RegenerateBelow ==> next.flights == st.flights)
      && (seenCount < RegenerateBelow ==>
            && |next.flights| == MockCount
            && (forall k :: 0 <= k < MockCount ==> IsSimulatedFlight(next.flights[k], loc))
            && (forall j, k :: 0 <= j < k < MockCount ==> next.flights[j].id != next.flights[k].id))
  {
    MockBatchSpec(loc, draws);
  }

  /** Every failure the source distinguishes ends in simulation mode. */
  lemma FailuresFallBack(status: int, states: Option<seq<RawState>>)
    ensures LiveFlights(NetworkFailure) == None
    ensures !StatusOk(status) ==> LiveFlights(Reply(status, Payload(states))) == None
    ensures LiveFlights(Reply(status, Unparsable)) == None
    ensures LiveFlights(Reply(status, Payload(None))) == None
    ensures LiveFlights(Reply(status, Payload(Some([])))) == None
  {
  }

  /**
   * One undecodable state among the first hundred (a null callsign or
   * origin country) fails the whole cycle, even when every other state is fine.
   */
  lemma UndecodableStateFallsBack(status: int, states: seq<RawState>, k: nat)
    requires StatusOk(status) && k < |states| && k < MaxLiveFlights && !Decodable(states[k])
    ensures LiveFlights(Reply(status, Payload(Some(states)))) == None
  {
    LiveFlightsSpec(Reply(status, Payload(Some(states))));
  }

  /** When the count seen is the real one, a simulating feed always shows at least five flights. */
  lemma FallbackShowsAtLeastFive(st: FeedState, loc: Coord, resp: Response, draws: seq<MockDraw>)
    requires |draws| == MockCount && LiveFlights(resp).None?
    ensures |Cycle(st, Some(loc), |st.flights|, resp, draws).flights| >= RegenerateBelow
  {
    MockBatchSpec(loc, draws);
  }

  /** The component state of `App` that `fetchFlights` updates. */
  class FlightFeed {
    var flights: seq<Flight>
    var isSimulation: bool

    /** Never more flights on the map than the live feed keeps. */
    ghost predicate Valid()
      reads this
    {
      |flights| <= MaxLiveFlights
    }

    /** `useState([])` and `useState(false)`. */
    constructor ()
      ensures Valid()
      ensures flights == [] && !isSimulation
    {
      flights := [];
      isSimulation := false;
    }

    function State(): FeedState
      reads this
    {
      FeedState(flights, isSimulation)
    }

    /** `fetchFlights()`, with the reply, the closure's view of `flights.length`, the clock and the random draws given. */
    method Step(userLoc: Option<Coord>, seenCount: nat, resp: Response, draws: seq<MockDraw>)
      requires Valid() && |draws| == MockCount
      modifies this
      ensures Valid()
      ensures State() == Cycle(old(State()), userLoc, seenCount, resp, draws)
    {
      if userLoc.None? {
        return;
      }
      var live := LiveFlights(resp);
      if live.Some? {
        flights := live.value;
        isSimulation := false;
      } else {
        isSimulation := true;
        if seenCount < RegenerateBelow {
          flights := MockBatch(userLoc.value, draws);
        }
      }
    }
  }
}
