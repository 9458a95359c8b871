/**
 * The flights that get a marker on the map:
 * `flights.filter(f => f.lat && f.lng && !isNaN(f.lat) && !isNaN(f.lng))`.
 */
module Markers {
  import opened JsStrings
  import opened JsValues
  import opened Flights
  import opened Mocks

  predicate HasMapPosition(f: Flight) {
    Truthy(f.lat) && Truthy(f.lng) && !IsNaN(f.lat) && !IsNaN(f.lng)
  }

  /** The filter: flights with a usable position, in their original order. */
  function Plotted(flights: seq<Flight>): (r: seq<Flight>)
    ensures |r| <= |flights|
    ensures forall k :: 0 <= k < |r| ==> r[k] in flights && HasMapPosition(r[k])
  {
    if flights == [] then []
    else (if HasMapPosition(flights[0]) then [flights[0]] else []) + Plotted(flights[1..])
  }

  /** Nothing with a usable position is lost. */
  lemma {:induction false} PlottedKeeps(flights: seq<Flight>, f: Flight)
    requires f in flights && HasMapPosition(f)
    ensures f in Plotted(flights)
  {
    if flights[0] != f {
      PlottedKeeps(flights[1..], f);
    }
  }

  /** The filter works element by element, so it preserves relative order. */
  lemma {:induction false} PlottedAppend(a: seq<Flight>, b: seq<Flight>)
    ensures Plotted(a + b) == Plotted(a) + Plotted(b)
  {
    if a != [] {
      assert (a + b)[0] == a[0] && (a + b)[1..] == a[1..] + b;
      PlottedAppend(a[1..], b);
      var head := if HasMapPosition(a[0]) then [a[0]] else [];
      assert Plotted(a + b) == head + Plotted(a[1..] + b);
      assert Plotted(a) == head + Plotted(a[1..]);
    } else {
      assert a + b == b;
    }
  }

  /** The filter removes nothing exactly when every flight has a usable position. */
  lemma {:induction false} PlottedAll(flights: seq<Flight>)
    ensures Plotted(flights) == flights <==> forall k :: 0 <= k < |flights| ==> HasMapPosition(flights[k])
  {
    if flights != [] {
      PlottedAll(flights[1..]);
      assert forall k :: 1 <= k < |flights| ==> flights[1..][k - 1] == flights[k];
      if !HasMapPosition(flights[0]) {
        assert |Plotted(flights)| <= |flights[1..]|;
      }
    }
  }

  /** A latitude or longitude of exactly 0 counts as missing: that flight gets no marker. */
  lemma ZeroCoordinateHidden(f: Flight)
    requires f.lat == Number(0.0) || f.lng == Number(0.0)
    ensures !HasMapPosition(f)
  {
  }

  /** A decoded live flight is plotted when its raw longitude and latitude are non-zero numbers. */
  lemma LiveFlightPlotted(state: RawState)
    requires Decodable(state)
    requires At(state, Longitude).Number? && At(state, Longitude).n != 0.0
    requires At(state, Latitude).Number? && At(state, Latitude).n != 0.0
    ensures HasMapPosition(NormaliseState(state).value)
  {
  }

  /** A decoded live flight with a `null` latitude or longitude is not plotted. */
  lemma LiveFlightWithoutPositionHidden(state: RawState)
    requires Decodable(state)
    requires At(state, Longitude) == Null || At(state, Latitude) == Null
    ensures !HasMapPosition(NormaliseState(state).value)
  {
  }

  /** A simulated flight is plotted unless a coordinate happens to be exactly 0. */
  lemma SimulatedFlightPlotted(f: Flight, center: Coord)
    requires IsSimulatedFlight(f, center)
    ensures HasMapPosition(f) <==> f.lat.n != 0.0 && f.lng.n != 0.0
  {
  }

  /**
   * A coordinate that is a non-empty string of blanks passes the filter:
   * it is truthy, and `isNaN` reads it as `0`.
   */
  lemma BlankStringCoordinatesPlotted(f: Flight)
    requires f.lat.Str? && f.lat.s != [] && AllWhitespace(f.lat.s)
    requires f.lng.Str? && f.lng.s != [] && AllWhitespace(f.lng.s)
    ensures HasMapPosition(f)
  {
    BlankStringIsNumber(f.lat.s);
    BlankStringIsNumber(f.lng.s);
  }

  /** A coordinate such as `"N/A"` is truthy but NaN, so the flight gets no marker. */
  lemma NonNumericCoordinateHidden(f: Flight)
    requires f.lat.Str? && Trim(f.lat.s) != [] && !IsDigit(Trim(f.lat.s)[0]) && Trim(f.lat.s)[0] !in "+-.I"
    ensures !HasMapPosition(f)
  {
    NonNumericLeadIsNaN(f.lat.s);
  }
}
