/**
 * The flight record shown on the map, and the decoding of the raw state
 * vectors of the OpenSky `/states/all` endpoint into flight records
 * (`data.states.slice(0, 100).map(state => ({ ... }))` in `fetchFlights`).
 */
module Flights {
  import opened Wrappers
  import opened JsStrings
  import opened JsValues

  /** A flight record. Fields copied unchecked from the raw array stay JavaScript values. */
  datatype Flight = Flight(
    id: Value,
    callsign: string,
    originCountry: Value,  // `origin_country`; simulated flights have none (Undefined)
    lng: Value,
    lat: Value,
    speed: Value,          // metres per second
    heading: Value,        // degrees
    to: string,
    from: string,
    airline: string)

  /** The observer's position, `userLoc = [lat, lng]`. */
  datatype Coord = Coord(lat: real, lng: real)

  /** One raw state vector: a positional array. */
  type RawState = seq<Value>

  /** `state[i]`: reading past the end of an array gives `undefined`. */
  function At(state: RawState, i: nat): Value {
    if i < |state| then state[i] else Undefined
  }

  // Positions in the OpenSky state vector that the feed reads.
  const Icao24 := 0
  const CallsignIndex := 1
  const OriginCountry := 2
  const Longitude := 5
  const Latitude := 6
  const Velocity := 9
  const TrueTrack := 10

  /** At most this many live flights are kept per fetch. */
  const MaxLiveFlights := 100

  const DefaultCallsign := "N/A"
  const DefaultSpeed := 200.0
  const DefaultHeading := 0.0
  const UnknownPlace := "Unknown"
  const UnknownAirline := "Unknown"

  /**
   * Whether the mapping callback returns for this state instead of throwing:
   * `state[1].trim()` and `state[2].toUpperCase()` throw a TypeError unless
   * the value is a string.
   */
  predicate Decodable(state: RawState) {
    At(state, CallsignIndex).Str? && At(state, OriginCountry).Str?
  }

  /** The mapping callback for one state; None when it throws. */
  function NormaliseState(state: RawState): (r: Option<Flight>)
    ensures r.Some? <==> Decodable(state)
  {
    if !Decodable(state) then None
    else
      var trimmed := Trim(At(state, CallsignIndex).s);
      Some(Flight(
        id := At(state, Icao24),
        callsign := if trimmed == [] then DefaultCallsign else trimmed,
        originCountry := At(state, OriginCountry),
        lng := At(state, Longitude),
        lat := At(state, Latitude),
        speed := Or(At(state, Velocity), Number(DefaultSpeed)),
        heading := Or(At(state, TrueTrack), Number(DefaultHeading)),
        to := UnknownPlace,
        from := ToUpper(At(state, OriginCountry).s),
        airline := UnknownAirline))
  }

  /** Field by field, what a decoded flight takes from its state vector. */
  lemma NormaliseStateFields(state: RawState)
    requires Decodable(state)
    ensures var f := NormaliseState(state).value;
      && var raw := At(state, CallsignIndex).s;
      && (AllWhitespace(raw) ==> f.callsign == DefaultCallsign)
      && (!AllWhitespace(raw) ==> IsTrimmingOf(raw, f.callsign) && f.callsign != [])
      && f.id == At(state, Icao24)
      && f.lng == At(state, Longitude) && f.lat == At(state, Latitude)
      && f.originCountry == At(state, OriginCountry)
      && |f.from| == |At(state, OriginCountry).s|
      && (forall k :: 0 <= k < |f.from| ==> f.from[k] == UpperChar(At(state, OriginCountry).s[k]))
      && (Truthy(At(state, Velocity)) ==> f.speed == At(state, Velocity))
      && (!Truthy(At(state, Velocity)) ==> f.speed == Number(DefaultSpeed))
      && (Truthy(At(state, TrueTrack)) ==> f.heading == At(state, TrueTrack))
      && (!Truthy(At(state, TrueTrack)) ==> f.heading == Number(DefaultHeading))
      && f.to == UnknownPlace && f.airline == UnknownAirline
  {
    var raw := At(state, CallsignIndex).s;
    TrimEmptyIff(raw);
    TrimIsTrimming(raw);
    ToUpperAt(At(state, OriginCountry).s);
  }

  /** A decoded flight always has a non-empty callsign and a truthy speed. */
  lemma NormalisedCallsignAndSpeed(state: RawState)
    requires Decodable(state)
    ensures NormaliseState(state).value.callsign != []
    ensures Truthy(NormaliseState(state).value.speed)
  {
  }

  /**
   * `xs.map(callback)` for a callback that may throw (None): every element
   * mapped, in order, or None as soon as one call throws.
   */
  function MapAll<A, B>(callback: A -> Option<B>, xs: seq<A>): (r: Option<seq<B>>)
    ensures r.Some? ==> |r.value| == |xs|
  {
    if xs == [] then Some([])
    else
      match callback(xs[0])
      case None => None
      case Some(y) =>
        match MapAll(callback, xs[1..])
        case None => None
        case Some(rest) => Some([y] + rest)
  }

  /** The mapping succeeds exactly when no call throws. */
  lemma {:induction false} MapAllSucceeds<A, B>(callback: A -> Option<B>, xs: seq<A>)
    ensures MapAll(callback, xs).Some? <==> forall k :: 0 <= k < |xs| ==> callback(xs[k]).Some?
  {
    if xs != [] {
      var tail := xs[1..];
      MapAllSucceeds(callback, tail);
      assert forall k :: 1 <= k < |xs| ==> tail[k - 1] == xs[k];
    }
  }

  /** When the mapping succeeds, element `k` of the result is the callback's value on `xs[k]`. */
  lemma {:induction false} MapAllAt<A, B>(callback: A -> Option<B>, xs: seq<A>, k: nat)
    requires MapAll(callback, xs).Some? && k < |xs|
    ensures callback(xs[k]) == Some(MapAll(callback, xs).value[k])
  {
    var tail := xs[1..];
    if k > 0 {
      assert tail[k - 1] == xs[k];
      MapAllAt(callback, tail, k - 1);
    }
  }

  /** `data.states.slice(0, 100).map(...)`. */
  function Normalise(states: seq<RawState>): (r: Option<seq<Flight>>)
    ensures r.Some? ==> |r.value| == Min(|states|, MaxLiveFlights)
  {
    MapAll(NormaliseState, states[..Min(|states|, MaxLiveFlights)])
  }

  /**
   * Decoding keeps the first `min(|states|, 100)` states in order, flight `k`
   * coming from state `k`; it fails exactly when one of those states cannot be decoded.
   */
  lemma NormaliseSpec(states: seq<RawState>)
    ensures var n := Min(|states|, MaxLiveFlights);
      && (Normalise(states).Some? <==> forall k :: 0 <= k < n ==> Decodable(states[k]))
      && (Normalise(states).Some? ==>
            && |Normalise(states).value| == n
            && forall k :: 0 <= k < n ==> Normalise(states).value[k] == NormaliseState(states[k]).value)
  {
    var n := Min(|states|, MaxLiveFlights);
    var prefix := states[..n];
    MapAllSucceeds(NormaliseState, prefix);
    assert forall k :: 0 <= k < n ==> prefix[k] == states[k];
    if Normalise(states).Some? {
      forall k | 0 <= k < n
        ensures Normalise(states).value[k] == NormaliseState(states[k]).value
      {
        MapAllAt(NormaliseState, prefix, k);
      }
    }
  }

  /** States after the hundredth never influence the decoded list, not even by failing to decode. */
  lemma NormaliseIgnoresTail(states: seq<RawState>, more: seq<RawState>)
    requires |states| >= MaxLiveFlights
    ensures Normalise(states + more) == Normalise(states)
  {
    assert (states + more)[..MaxLiveFlights] == states[..MaxLiveFlights];
  }
}
