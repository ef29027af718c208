/** Device location (src/utils/geo.ts): the app's error vocabulary, the
    normalisation of the browser's position errors, and the single entry point
    `getCurrentLocation` with the browser's answer as a parameter. */
module Geo {
  import opened Base

  datatype GeoErrorCode = Unsupported | PermissionDenied | PositionUnavailable | Timeout | Unknown

  /** The string each code is written as. */
  function CodeName(c: GeoErrorCode): string {
    match c
    case Unsupported => "UNSUPPORTED"
    case PermissionDenied => "PERMISSION_DENIED"
    case PositionUnavailable => "POSITION_UNAVAILABLE"
    case Timeout => "TIMEOUT"
    case Unknown => "UNKNOWN"
  }

  function CodeFromName(s: string): (c: Option<GeoErrorCode>)
    ensures c.Some? ==> CodeName(c.value) == s
  {
    if s == "UNSUPPORTED" then Some(Unsupported)
    else if s == "PERMISSION_DENIED" then Some(PermissionDenied)
    else if s == "POSITION_UNAVAILABLE" then Some(PositionUnavailable)
    else if s == "TIMEOUT" then Some(Timeout)
    else if s == "UNKNOWN" then Some(Unknown)
    else None
  }

  /** Every code is read back from its name, so names are distinct. */
  lemma CodeNameRoundTrip(c: GeoErrorCode)
    ensures CodeFromName(CodeName(c)) == Some(c)
  {
  }

  datatype GeoError = GeoError(code: GeoErrorCode, message: string)

  /** The constants of the browser's `GeolocationPositionError`. */
  const BrowserPermissionDenied := 1
  const BrowserPositionUnavailable := 2
  const BrowserTimeout := 3

  /** `normalizeGeoError`: the three browser codes become the app codes of the
      same name; anything else is `UNKNOWN`. */
  function NormalizeGeoError(browserCode: int): (e: GeoError)
    ensures browserCode == BrowserPermissionDenied <==> e.code == PermissionDenied
    ensures browserCode == BrowserPositionUnavailable <==> e.code == PositionUnavailable
    ensures browserCode == BrowserTimeout <==> e.code == Timeout
    ensures e.code != Unsupported
    ensures e.code == Unknown <==> browserCode !in {BrowserPermissionDenied, BrowserPositionUnavailable, BrowserTimeout}
  {
    if browserCode == BrowserPermissionDenied then GeoError(PermissionDenied, "Location permission denied by user.")
    else if browserCode == BrowserPositionUnavailable then GeoError(PositionUnavailable, "Location information is unavailable.")
    else if browserCode == BrowserTimeout then GeoError(Timeout, "Location request timed out.")
    else GeoError(Unknown, "Unknown location error.")
  }

  /** `GetLocationOptions`; `None` is a field left undefined. */
  datatype LocationOptions = LocationOptions(
    enableHighAccuracy: Option<bool>,
    timeoutMs: Option<int>,
    maximumAgeMs: Option<int>)

  /** The `PositionOptions` handed to the browser. */
  datatype PositionRequest = PositionRequest(enableHighAccuracy: bool, timeout: int, maximumAge: int)

  /** The destructuring defaults: each undefined option takes its default,
      each given one is passed through. */
  function ResolveOptions(o: LocationOptions): (r: PositionRequest)
    ensures o.enableHighAccuracy.None? ==> r.enableHighAccuracy
    ensures o.timeoutMs.None? ==> r.timeout == 10000
    ensures o.maximumAgeMs.None? ==> r.maximumAge == 0
    ensures o.enableHighAccuracy.Some? ==> r.enableHighAccuracy == o.enableHighAccuracy.value
    ensures o.timeoutMs.Some? ==> r.timeout == o.timeoutMs.value
    ensures o.maximumAgeMs.Some? ==> r.maximumAge == o.maximumAgeMs.value
  {
    PositionRequest(
      if o.enableHighAccuracy.Some? then o.enableHighAccuracy.value else true,
      if o.timeoutMs.Some? then o.timeoutMs.value else 10000,
      if o.maximumAgeMs.Some? then o.maximumAgeMs.value else 0)
  }

  /** A position as the client receives it; the numbers are carried, never
      computed with. */
  datatype Coords = Coords(latitude: real, longitude: real, accuracy: real, timestamp: int)

  /** What the browser answers: a position or a `GeolocationPositionError` code. */
  datatype BrowserAnswer = Position(coords: Coords) | PositionError(browserCode: int)

  datatype LocationResult = Located(coords: Coords) | Rejected(error: GeoError)

  /** `getCurrentLocation(options)`: without a geolocation API the promise
      rejects with `UNSUPPORTED` and the browser is never asked; otherwise
      the browser is asked once with the resolved options and its answer is
      passed on, errors normalised. */
  function GetCurrentLocation(hasGeolocation: bool, options: LocationOptions, answer: BrowserAnswer)
    : (r: (Option<PositionRequest>, LocationResult))
    ensures !hasGeolocation ==> r.0.None? && r.1.Rejected? && r.1.error.code == Unsupported
    ensures hasGeolocation ==> r.0 == Some(ResolveOptions(options))
    ensures r.1.Rejected? && r.1.error.code == Unsupported ==> !hasGeolocation
    ensures hasGeolocation && answer.Position? ==> r.1 == Located(answer.coords)
    ensures hasGeolocation && answer.PositionError? ==> r.1 == Rejected(NormalizeGeoError(answer.browserCode))
  {
    if !hasGeolocation then
      (None, Rejected(GeoError(Unsupported, "Geolocation is not supported by this browser.")))
    else
      var request := ResolveOptions(options);
      match answer
      case Position(coords) => (Some(request), Located(coords))
      case PositionError(code) => (Some(request), Rejected(NormalizeGeoError(code)))
  }

  /** Called without options, the browser is asked for a fresh high-accuracy
      fix with a ten-second timeout. */
  lemma DefaultRequest(answer: BrowserAnswer)
    ensures GetCurrentLocation(true, LocationOptions(None, None, None), answer).0 == Some(PositionRequest(true, 10000, 0))
  {
  }
}
