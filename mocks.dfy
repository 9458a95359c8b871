/**
 * The simulated flights that replace live data when a fetch fails
 * (`generateMockFlight` and `Array.from({ length: 15 }, ...)` in `fetchFlights`).
 * `Math.random()` and `Date.now()` are passed in as values.
 */
module Mocks {
  import opened JsStrings
  import opened JsValues
  import opened Flights

  /** A value `Math.random()` can return. */
  type Unit = r: real | 0.0 <= r < 1.0

  /**
   * What one call of the generator reads from the environment, in the order
   * it reads it: the clock for the id, then one random draw each for the
   * airline code, the flight number, latitude, longitude, speed, heading,
   * destination and origin.
   */
  datatype MockDraw = MockDraw(
    now: nat,
    airline: Unit,
    number: Unit,
    lat: Unit,
    lng: Unit,
    speed: Unit,
    heading: Unit,
    to: Unit,
    from: Unit)

  const AirlineCodes: seq<string> := ["IGO", "AIC", "SEJ", "VTI", "BAW", "UAE"]
  const Destinations: seq<string> := ["DELHI", "MUMBAI", "LONDON", "DUBAI", "NEW YORK"]
  const Origins: seq<string> := ["CHENNAI", "KOLKATA", "PARIS", "TOKYO", "SINGAPORE"]
  const SimulatedAirline := "Simulated Air"

  /** Number of simulated flights generated at once. */
  const MockCount := 15

  /** `Math.floor(u * n)`: an index into a list of length `n`. */
  function ScaledIndex(u: Unit, n: nat): (k: int)
    requires n > 0
    ensures 0 <= k < n
  {
    ScaledBelow(u, n as real);
    (u * n as real).Floor
  }

  lemma ScaledBelow(u: Unit, x: real)
    requires x > 0.0
    ensures 0.0 <= u * x < x
  {
    assert (1.0 - u) * x > 0.0;
  }

  /** `list[Math.floor(Math.random() * list.length)]`. */
  function Pick(list: seq<string>, u: Unit): (r: string)
    requires |list| > 0
    ensures r in list
  {
    list[ScaledIndex(u, |list|)]
  }

  /** `Math.floor(Math.random() * 900 + 100)`: a three-digit flight number. */
  function FlightNumber(u: Unit): (n: int)
    ensures 100 <= n <= 999
  {
    (u * 900.0 + 100.0).Floor
  }

  /** `` `SIM${Date.now()}-${i}` ``. */
  function MockId(now: nat, i: nat): string {
    "SIM" + NatToString(now) + "-" + NatToString(i)
  }

  /** `generateMockFlight(i)` around the observer at `center`. */
  function GenerateMock(i: nat, center: Coord, d: MockDraw): (f: Flight)
    ensures f.to in Destinations && f.from in Origins
  {
    Flight(
      id := Str(MockId(d.now, i)),
      callsign := Pick(AirlineCodes, d.airline) + NatToString(FlightNumber(d.number)),
      originCountry := Undefined,
      lng := Number(center.lng + (d.lng - 0.5)),
      lat := Number(center.lat + (d.lat - 0.5)),
      speed := Number(200.0 + d.speed * 100.0),
      heading := Number(d.heading * 360.0),
      to := Pick(Destinations, d.to),
      from := Pick(Origins, d.from),
      airline := SimulatedAirline)
  }

  /** `Array.from({ length: 15 }, (_, i) => generateMockFlight(i))`. */
  function MockBatch(center: Coord, draws: seq<MockDraw>): (batch: seq<Flight>)
    requires |draws| == MockCount
    ensures |batch| == MockCount
  {
    seq(MockCount, i requires 0 <= i < MockCount => GenerateMock(i, center, draws[i]))
  }

  /** What every simulated flight looks like, independently of how it is generated. */
  predicate IsSimulatedFlight(f: Flight, center: Coord) {
    && f.airline == SimulatedAirline
    && |f.callsign| == 6 && f.callsign[..3] in AirlineCodes
    && AllDigits(f.callsign[3..]) && 100 <= ParseDigits(f.callsign[3..]) <= 999
    && f.lat.Number? && center.lat - 0.5 <= f.lat.n < center.lat + 0.5
    && f.lng.Number? && center.lng - 0.5 <= f.lng.n < center.lng + 0.5
    && f.speed.Number? && 200.0 <= f.speed.n < 300.0
    && f.heading.Number? && 0.0 <= f.heading.n < 360.0
    && f.to in Destinations && f.from in Origins
    && f.originCountry == Undefined
    && f.id.Str? && |f.id.s| > 3 && f.id.s[..3] == "SIM"
  }

  /**
   * A generated flight has one of the six airline codes followed by a number
   * from 100 to 999, lies within half a degree of the observer in each axis,
   * flies at 200 to 300 m/s on a heading in [0, 360), and links two cities of the fixed lists.
   */
  lemma GenerateMockShape(i: nat, center: Coord, d: MockDraw)
    ensures IsSimulatedFlight(GenerateMock(i, center, d), center)
  {
    var f := GenerateMock(i, center, d);
    var code := Pick(AirlineCodes, d.airline);
    var n := FlightNumber(d.number);
    ThreeDigits(n);
    ParseNatToString(n);
    assert |code| == 3;
    assert f.callsign[..3] == code && f.callsign[3..] == NatToString(n);
    ScaledBelow(d.speed, 100.0);
    ScaledBelow(d.heading, 360.0);
  }

  /** Digits contain no `-`, so an id splits uniquely into its timestamp and its index. */
  lemma MockIdInjective(t1: nat, i1: nat, t2: nat, i2: nat)
    requires MockId(t1, i1) == MockId(t2, i2)
    ensures t1 == t2 && i1 == i2
  {
    var a1, a2 := NatToString(t1), NatToString(t2);
    var b1, b2 := NatToString(i1), NatToString(i2);
    var s := MockId(t1, i1);
    assert s[3 + |a1|] == '-';
    assert MockId(t2, i2)[3 + |a2|] == '-';
    assert |a1| == |a2|;
    assert a1 == s[3..3 + |a1|] == a2;
    assert b1 == s[4 + |a1|..] == b2;
    NatToStringInjective(t1, t2);
    NatToStringInjective(i1, i2);
  }

  /**
   * A batch holds exactly 15 simulated flights around the observer, with
   * pairwise distinct ids whatever the clock reads at each call.
   */
  lemma MockBatchSpec(center: Coord, draws: seq<MockDraw>)
    requires |draws| == MockCount
    ensures var batch := MockBatch(center, draws);
      && |batch| == MockCount
      && (forall k :: 0 <= k < |batch| ==> IsSimulatedFlight(batch[k], center))
      && (forall j, k :: 0 <= j < k < |batch| ==> batch[j].id != batch[k].id)
  {
    var batch := MockBatch(center, draws);
    forall k | 0 <= k < |batch| ensures IsSimulatedFlight(batch[k], center) {
      GenerateMockShape(k, center, draws[k]);
    }
    forall j, k | 0 <= j < k < |batch| ensures batch[j].id != batch[k].id {
      if batch[j].id == batch[k].id {
        MockIdInjective(draws[j].now, j, draws[k].now, k);
      }
    }
  }
}
