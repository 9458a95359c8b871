# NITPLANE flight feed: a Dafny model

NITPLANE is a browser flight radar. Its core is `fetchFlights` in `App`. Each
poll asks the OpenSky `/states/all` endpoint for the global state vectors. On
success it decodes the first hundred vectors into flight records. When the
request fails, it switches to simulation mode, which may generate fifteen
random flights around the observer. The popup shows an airline logo that
`getAirlineLogo` finds from the callsign prefix. Only flights with a usable
position get a map marker.

The model has these parts:

- `wrappers.dfy` (`Wrappers`): `Option` and `Min`.
- `js_strings.dfy` (`JsStrings`): the JavaScript string operations the feed depends on.
  - `trim`, with the full ECMA-262 whitespace set. It is proved equal to an independent description: the unique infix stripped of whitespace at both ends.
  - `toUpperCase`, for ASCII letters.
  - Decimal rendering of integers, with its round trip back to the number.
- `js_values.dfy` (`JsValues`): JavaScript values as they appear in a raw array, truthiness (`||`, `&&`) and the global `isNaN`. The strings `isNaN` accepts follow the StringNumericLiteral grammar of ECMA-262.
  - `Or` is the definition of `v || d`: `v` when it is truthy, `d` otherwise. Its properties are stated through the members that use it (`Flights.NormaliseStateFields`).
- `flights.dfy` (`Flights`): the flight record, the raw state vector (a positional array read at indices 0, 1, 2, 5, 6, 9 and 10), and the decoding `data.states.slice(0, 100).map(...)`.
  - `At` is the definition of `state[i]`: the element inside the array, `undefined` past its end.
  - If `state[1].trim()` or `state[2].toUpperCase()` throws, the whole mapping fails. This happens whenever that field is not a string.
  - `Decodable` is the definition of that no-throw condition (src/App.jsx:102, 109): `state[1]` and `state[2]` are strings.
- `mocks.dfy` (`Mocks`): the simulated-flight generator and the batch of fifteen. `Math.random()` values are of type `Unit` (reals in [0, 1)). `Date.now()` values are naturals. Both are inputs.
  - `MockId` is the definition of the id template `` `SIM${Date.now()}-${i}` `` (src/App.jsx:126).
- `logos.dfy` (`Logos`): `getAirlineLogo` and its sixteen-entry table of airline domains.
- `markers.dfy` (`Markers`): the marker filter in the render.
  - `HasMapPosition` is the definition of the filter callback `f.lat && f.lng && !isNaN(f.lat) && !isNaN(f.lng)` (src/App.jsx:270).
- `feed.dfy` (`Feed`): the fetch cycle.
  - The HTTP outcome is a `Response` input value: a network failure, or a reply with a status and a body.
  - `StatusOk` is the definition of `response.ok` (src/App.jsx:89): a status from 200 to 299.
  - `Cycle` is the pure effect of one cycle on `flights` and `isSimulation`.
  - The class `FlightFeed` holds those two state fields. Its `Step` method performs the cycle imperatively and is proved equal to `Cycle`. Its invariant `Valid()` bounds `flights` by the 100 live flights a cycle can install.

The model follows what the code does, which differs in places from what a proximity radar would be expected to do:

- The code computes no distances. It applies no radius filter and does no sorting. The haversine function is never called. Live data is simply the first 100 state vectors, in the order received.
- Records with missing or NaN coordinates are not dropped from `flights`. They are only skipped when markers are drawn. That filter also skips a coordinate of exactly 0.
- On failure with five or more flights held, the code keeps whatever `flights` holds. That may be the live flights of an earlier cycle, now shown with `isSimulation` set (`Feed.CycleFailure`). It is not necessarily a simulated set.
- `flights.length` is read from the closure that runs the cycle. The polling interval was created when `isStarted` or `userLoc` last changed, so its closure can hold an older `flights` than the one on screen. `Step` therefore takes the count it sees (`seenCount`) as a separate input. `Feed.FallbackShowsAtLeastFive` covers the case where that count is the real one.

## Model

| member | source | states |
|---|---|---|
| `JsStrings.TrimStart` | src/App.jsx:102 | the result is the suffix left after the longest all-whitespace prefix, and it does not start with whitespace |
| `JsStrings.TrimEnd` | src/App.jsx:102 | the result is the prefix left before the longest all-whitespace suffix, and it does not end with whitespace |
| `JsStrings.Trim` | src/App.jsx:102 | the result is no longer than the input and has no whitespace at either end |
| `JsStrings.TrimIsTrimming` | src/App.jsx:102 | `Trim(s)` is an infix of `s`; only whitespace is removed from each end, and it neither starts nor ends with whitespace |
| `JsStrings.TrimmingIsUnique` | src/App.jsx:102 | any string with that description equals `Trim(s)`, so the description determines `trim` |
| `JsStrings.TrimEmptyIff` | src/App.jsx:102 | `trim` returns the empty string exactly when the input is all whitespace |
| `JsStrings.TrimIdempotent` | src/App.jsx:102 | trimming twice gives the same result as trimming once |
| `JsStrings.ToUpper` | src/App.jsx:109 | upper-casing keeps the length |
| `JsStrings.ToUpperAt` | src/App.jsx:109 | upper-casing maps each character independently |
| `JsStrings.ToUpperHasNoLower` | src/App.jsx:109 | no lower-case ASCII letter is left after upper-casing |
| `JsStrings.ToUpperFixes` | src/App.jsx:212 | a string with no lower-case letters is unchanged |
| `JsStrings.ToUpperIdempotent` | src/App.jsx:212 | upper-casing twice gives the same result as upper-casing once |
| `JsStrings.ToUpperPrefix` | src/App.jsx:212 | upper-casing commutes with taking a prefix (`slice(0, 3)`) |
| `JsStrings.NatToString` | src/App.jsx:126-127 | the decimal rendering of an integer is a non-empty string of digits with no leading zero, as `String(n)` gives |
| `JsStrings.ParseNatToString` | src/App.jsx:126-127 | reading the rendering back gives the original number |
| `JsStrings.NatToStringInjective` | src/App.jsx:126 | different numbers give different renderings |
| `JsStrings.ThreeDigits` | src/App.jsx:127 | numbers from 100 to 999 render as exactly three digits |
| `JsValues.Truthy` | src/App.jsx:270 | definition of ToBoolean: `undefined`, `null`, `false`, `0` and `""` are falsy, everything else is truthy |
| `JsValues.IsNaN` | src/App.jsx:270 | definition of the global `isNaN`: `undefined` and objects are NaN, `null`, booleans and numbers are not, a string is NaN unless it is a StringNumericLiteral |
| `JsValues.IsStringNumericLiteral` | src/App.jsx:270 | definition of the ECMA-262 StringNumericLiteral grammar: after trimming, empty, a `0x`/`0o`/`0b` integer, or a signed decimal or `Infinity` |
| `JsValues.DecimalRenderingIsNumber` | src/App.jsx:270 | the decimal rendering of any non-negative integer is not NaN |
| `JsValues.BlankStringIsNumber` | src/App.jsx:270 | a string of whitespace only, the empty string included, is not NaN |
| `JsValues.NonNumericLeadIsNaN` | src/App.jsx:270 | a string whose trimming starts with something other than a digit, a sign, a point or `I` (such as `N/A`) is NaN |
| `Flights.NormaliseState` | src/App.jsx:100-111 | the mapping callback returns rather than throws exactly when `state[1]` and `state[2]` are strings |
| `Flights.NormaliseStateFields` | src/App.jsx:101-110 | `id = state[0]`, `lng = state[5]`, `lat = state[6]`; callsign is the trimmed `state[1]`, or `"N/A"` when that is all whitespace; `from` is `state[2]` upper-cased; speed is `state[9]` or 200 when falsy; heading is `state[10]` or 0 when falsy; `to` and `airline` are `"Unknown"` |
| `Flights.NormalisedCallsignAndSpeed` | src/App.jsx:102-106 | a decoded flight has a non-empty callsign and a truthy speed |
| `Flights.MapAll` | src/App.jsx:100 | when `map` succeeds, the result has the input's length |
| `Flights.MapAllSucceeds` | src/App.jsx:100 | `map` with a throwing callback succeeds exactly when no call throws |
| `Flights.MapAllAt` | src/App.jsx:100 | element `k` of a successful `map` is the callback's value on element `k` |
| `Flights.Normalise` | src/App.jsx:100-111 | a successful decoding has `min(n, 100)` flights |
| `Flights.NormaliseSpec` | src/App.jsx:100-111 | decoding succeeds exactly when the first `min(n, 100)` states are all decodable; the result then has that many flights, flight `k` coming from state `k` |
| `Flights.NormaliseIgnoresTail` | src/App.jsx:100 | states after the hundredth never affect the result |
| `Mocks.ScaledIndex` | src/App.jsx:127 | `Math.floor(u * n)` is a valid index into a list of length `n` |
| `Mocks.Pick` | src/App.jsx:127 | a random pick from a fixed list is an element of that list |
| `Mocks.FlightNumber` | src/App.jsx:127 | `Math.floor(Math.random() * 900 + 100)` lies between 100 and 999 |
| `Mocks.GenerateMock` | src/App.jsx:122-136 | the destination and origin come from their fixed city lists |
| `Mocks.GenerateMockShape` | src/App.jsx:122-136 | a mock callsign is one of the six codes followed by three digits worth 100 to 999; lat and lng are within [-0.5, 0.5) of the observer; speed is in [200, 300) and heading in [0, 360); `to` and `from` come from their fixed lists; airline is `"Simulated Air"`; the id starts with `SIM` |
| `Mocks.MockIdInjective` | src/App.jsx:126 | `SIM<t>-<i>` determines both `t` and `i` |
| `Mocks.MockBatch` | src/App.jsx:138 | a batch has exactly 15 flights |
| `Mocks.MockBatchSpec` | src/App.jsx:138 | a batch holds exactly 15 well-formed mock flights with pairwise distinct ids, even if the clock changes between calls |
| `Logos.AirlineCode` | src/App.jsx:212 | the code is as long as the callsign, up to three characters |
| `Logos.GetAirlineLogo` | src/App.jsx:210-211 | an absent or empty callsign gives `null` |
| `Logos.DomainsAreNonEmpty` | src/App.jsx:214-231 | every table key has three letters and every domain is non-empty, so the `if (domain)` test only checks membership |
| `Logos.LogoIffKnownCode` | src/App.jsx:212-237 | a non-empty callsign gets a URL exactly when its upper-cased 3-character prefix is a table key, and the URL is `https://logo.clearbit.com/` followed by that key's domain |
| `Logos.ShortCallsignHasNoLogo` | src/App.jsx:212-237 | a callsign shorter than three characters never gets a logo |
| `Logos.LogoIgnoresCase` | src/App.jsx:212 | an upper-cased callsign gets the same answer as the original |
| `Logos.LogoReadsOnlyPrefix` | src/App.jsx:212 | characters after the third do not affect the answer |
| `Logos.DefaultCallsignHasNoLogo` | src/App.jsx:102 | the placeholder callsign `"N/A"` gets `null` |
| `Logos.SimulatedFlightHasLogo` | src/App.jsx:127 | every simulated callsign gets a logo |
| `Markers.Plotted` | src/App.jsx:270 | the filtered list is no longer than the input, and every kept flight is in the input and has truthy, non-NaN `lat` and `lng` |
| `Markers.PlottedKeeps` | src/App.jsx:270 | every flight with a usable position is kept |
| `Markers.PlottedAppend` | src/App.jsx:270 | the filter distributes over concatenation, so order is preserved |
| `Markers.PlottedAll` | src/App.jsx:270 | the filter drops nothing exactly when every flight has a usable position |
| `Markers.ZeroCoordinateHidden` | src/App.jsx:270 | a latitude or longitude of exactly 0 hides the flight |
| `Markers.LiveFlightPlotted` | src/App.jsx:104-105 | a decoded flight whose raw longitude and latitude are non-zero numbers is plotted |
| `Markers.LiveFlightWithoutPositionHidden` | src/App.jsx:104-105 | a decoded flight with a `null` longitude or latitude is not plotted |
| `Markers.SimulatedFlightPlotted` | src/App.jsx:128-129 | a simulated flight is plotted exactly when neither coordinate is 0 |
| `Markers.BlankStringCoordinatesPlotted` | src/App.jsx:270 | a flight whose coordinates are non-empty strings of blanks passes the filter |
| `Markers.NonNumericCoordinateHidden` | src/App.jsx:270 | a flight whose latitude is a string such as `"N/A"` is not plotted |
| `Feed.LiveFlights` | src/App.jsx:87-111 | live data, when obtained, is between 1 and 100 flights |
| `Feed.LiveFlightsSpec` | src/App.jsx:87-111 | live data is obtained exactly from an ok reply whose `states` array is non-empty and whose first hundred entries all decode; it is then 1 to 100 flights decoded in order, each with airline and destination `"Unknown"` |
| `Feed.FailuresFallBack` | src/App.jsx:87-97 | a network failure, a non-ok status, an unparsable body, and a missing or empty `states` all give no live data |
| `Feed.UndecodableStateFallsBack` | src/App.jsx:100-116 | one undecodable state among the first hundred fails the whole cycle |
| `Feed.Cycle` | src/App.jsx:81-142 | a cycle never takes `flights` past 100 entries when it starts within that bound |
| `Feed.CycleWithoutLocation` | src/App.jsx:82 | without a user location neither field changes |
| `Feed.CycleSuccess` | src/App.jsx:113-114 | success sets `flights` to the decoded list (1 to 100, all live) and clears `isSimulation` |
| `Feed.CycleFailure` | src/App.jsx:116-140 | failure sets `isSimulation`; when fewer than 5 flights were seen, `flights` becomes 15 well-formed mocks with distinct ids; otherwise `flights` is unchanged |
| `Feed.FallbackShowsAtLeastFive` | src/App.jsx:121-139 | when the count seen is the real one, a failed cycle leaves at least five flights |
| `Feed.FlightFeed.constructor` | src/App.jsx:52-55 | the feed starts with no flights, not in simulation mode, and within the 100-flight bound |
| `Feed.FlightFeed.Step` | src/App.jsx:81-142 | the new `flights` and `isSimulation` are what `Cycle` gives for the old state and the inputs, and the 100-flight bound is kept |

## Left out

- The HTTP request, JSON parsing, geolocation and the `setInterval` timers (src/App.jsx:58-76, 87-93, 173-179) are I/O. The reply is an input value (`Feed.Response`), and the observer's position is an input of `Step`.
- The staleness of the `flights` closure in the polling interval comes from React rendering. `Step` takes the count it sees as an input instead of re-creating closures.
- `Math.random()` and `Date.now()` are inputs (`Mocks.MockDraw`). The angle and distance draws at src/App.jsx:123-124 are never used, so they are not modelled.
- The haversine function and `deg2rad` (src/App.jsx:182-194) are floating-point trigonometry, and nothing calls them.
- The physics loop (src/App.jsx:145-170) is commented out in the source.
- The km/h rounding in the popup (src/App.jsx:311) is floating-point display code.
- Leaflet icons and markers, polylines, audio, animation, the login page (src/LoginPage.jsx) and the alert banner (src/GlassAlert.jsx) are presentation only.
- Numbers are exact reals. JavaScript doubles may round, for example in `lat + (Math.random() - 0.5)`. So the half-open upper bounds in `Mocks.IsSimulatedFlight` hold for exact reals only: for the largest `Math.random()` values, `200 + Math.random() * 100` can round to exactly 300, and a latitude can round to exactly `lat + 0.5`. NaN is not a value of the model: `JSON.parse` never produces it, and the mocks never compute it. `-0` and the infinities can come out of `JSON.parse` (`-0`, `1e400`), and the model has no separate values for them. Every predicate the model applies to a number (truthiness and `isNaN`) treats `-0` exactly like `0` and an infinity like a nonzero finite number.
- Elements of `states` that are not arrays are not modelled. Arrays and objects inside a state vector are one opaque value, `Composite`, which `isNaN` treats as NaN. That is exact for plain objects. An array converts through its comma-joined string, so `[]`, `[5]` or `[" "]` convert to a number, while `["x"]` and `[1, 2]` give NaN.
- The `console.error` and `console.warn` logging (src/App.jsx:64, 117) is output only and changes no state.
- `JsStrings.ToUpper`: only ASCII letters are upper-cased. JavaScript's full Unicode case mapping also changes letters such as `ß` or the dotless `ı`, and can change a string's length.
- `Logos.AirlineCode`: works on Unicode scalar values, not UTF-16 code units. `slice(0, 3)` can cut a surrogate pair in half; the model takes whole characters.
- `JsStrings.NatToString`: renders all non-negative integers in plain decimal. JavaScript switches to exponent notation from 1e21 up, far beyond any clock reading or flight number. A clock set before 1970 (a negative `Date.now()`) is outside the model.
