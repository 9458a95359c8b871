/** `getAirlineLogo`: the logo URL shown in a flight's popup, looked up by callsign prefix. */
module Logos {
  import opened Wrappers
  import opened JsStrings
  import opened Flights
  import opened Mocks

  const ClearbitPrefix := "https://logo.clearbit.com/"

  /** ICAO airline designator to the airline's web domain. */
  const AirlineDomains: map<string, string> := map[
    "IGO" := "goindigo.in",
    "AIC" := "airindia.in",
    "SEJ" := "spicejet.com",
    "VTI" := "airvistara.com",
    "AKJ" := "akasaair.com",
    "GOW" := "goair.in",
    "IAD" := "airasia.co.in",
    "BAW" := "britishairways.com",
    "UAE" := "emirates.com",
    "QTR" := "qatarairways.com",
    "SIA" := "singaporeair.com",
    "DLH" := "lufthansa.com",
    "AFR" := "airfrance.com",
    "UAL" := "united.com",
    "AAL" := "aa.com",
    "DAL" := "delta.com"
  ]

  /** `callsign.slice(0, 3).toUpperCase()`. */
  function AirlineCode(callsign: string): (code: string)
    ensures |code| == Min(|callsign|, 3)
  {
    ToUpper(callsign[..Min(|callsign|, 3)])
  }

  /**
   * `getAirlineLogo(callsign)`; None stands for a `null`/`undefined` argument
   * and for a `null` result.
   */
  function GetAirlineLogo(callsign: Option<string>): (r: Option<string>)
    ensures callsign == None || callsign == Some("") ==> r == None
  {
    match callsign
    case None => None
    case Some(s) =>
      if s == [] then None
      else
        var code := AirlineCode(s);
        if code in AirlineDomains && AirlineDomains[code] != [] then Some(ClearbitPrefix + AirlineDomains[code])
        else None
  }

  lemma DomainsAreNonEmpty()
    ensures forall code :: code in AirlineDomains ==> AirlineDomains[code] != [] && |code| == 3
  {
  }

  lemma DomainNonEmpty(code: string)
    requires code in AirlineDomains
    ensures AirlineDomains[code] != []
  {
    DomainsAreNonEmpty();
  }

  /** A callsign has a logo exactly when its code is in the table, and the URL names that code's domain. */
  lemma LogoIffKnownCode(s: string)
    requires s != []
    ensures GetAirlineLogo(Some(s)).Some? <==> AirlineCode(s) in AirlineDomains
    ensures GetAirlineLogo(Some(s)).Some? ==>
      GetAirlineLogo(Some(s)).value == ClearbitPrefix + AirlineDomains[AirlineCode(s)]
  {
    var code := AirlineCode(s);
    if code in AirlineDomains {
      DomainNonEmpty(code);
    }
  }

  /** Callsigns shorter than three characters never have a logo: every code in the table has three letters. */
  lemma ShortCallsignHasNoLogo(s: string)
    requires |s| < 3
    ensures GetAirlineLogo(Some(s)) == None
  {
    DomainsAreNonEmpty();
  }

  /** The lookup is case-insensitive: upper-casing the callsign first changes nothing. */
  lemma LogoIgnoresCase(s: string)
    ensures GetAirlineLogo(Some(ToUpper(s))) == GetAirlineLogo(Some(s))
  {
    var n := Min(|s|, 3);
    ToUpperPrefix(s, n);
    ToUpperPrefix(ToUpper(s), n);
    ToUpperIdempotent(s);
    ToUpperPrefix(ToUpper(s)[..n], n);
    assert AirlineCode(ToUpper(s)) == ToUpper(ToUpper(s)[..n]) == ToUpper(ToUpper(s))[..n];
  }

  /** Only the first three characters matter. */
  lemma LogoReadsOnlyPrefix(s: string, rest: string)
    requires |s| >= 3
    ensures GetAirlineLogo(Some(s + rest)) == GetAirlineLogo(Some(s))
  {
    assert (s + rest)[..3] == s[..3];
  }

  /** The placeholder callsign of a live flight without one has no logo. */
  lemma DefaultCallsignHasNoLogo()
    ensures GetAirlineLogo(Some(DefaultCallsign)) == None
  {
    var na := DefaultCallsign;
    assert na[..3] == na;
    ToUpperFixes(na);
    assert AirlineCode(na) == "N/A";
  }

  /** Every simulated flight gets a logo: all six simulated airline codes are in the table. */
  lemma SimulatedFlightHasLogo(f: Flight, center: Coord)
    requires IsSimulatedFlight(f, center)
    ensures GetAirlineLogo(Some(f.callsign)).Some?
  {
    var code := f.callsign[..3];
    ToUpperFixes(code);
    assert AirlineCode(f.callsign) == code;
  }
}
