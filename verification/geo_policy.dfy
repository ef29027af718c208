/** The user-facing policy for location failures (src/utils/geoPolicy.ts). */
module GeoPolicy {
  import opened Base
  import opened Geo

  datatype GeoAppAction = Block | RequestPermission | Retry | Fail

  datatype GeoAppError = GeoAppError(code: GeoErrorCode, title: string, message: string, action: GeoAppAction)

  const UnknownMessage := "An unexpected location error occurred."

  /** `mapGeoErrorToAppError(error)`, taking `error.code` as the string it is
      at run time: callers pass any caught error that has a code, not only
      the app's own `GeoError`s. */
  function MapGeoErrorToAppError(code: string): (e: GeoAppError)
    ensures code == "UNSUPPORTED" <==> e.action == Block
    ensures code == "PERMISSION_DENIED" <==> e.action == RequestPermission
    ensures code == "POSITION_UNAVAILABLE" || code == "TIMEOUT" <==> e.action == Retry
    ensures CodeFromName(code).Some? && code != "UNKNOWN" ==> CodeName(e.code) == code
    ensures CodeFromName(code).None? || code == "UNKNOWN" <==> e.action == Fail
    ensures e.action == Fail ==> e.code == Unknown && e.message == UnknownMessage
  {
    if code == "UNSUPPORTED" then
      GeoAppError(Unsupported, "Location Not Supported",
                  "Your device or browser does not support location services.", Block)
    else if code == "PERMISSION_DENIED" then
      GeoAppError(PermissionDenied, "Location Permission Required",
                  "Please enable location permission to mark attendance.", RequestPermission)
    else if code == "POSITION_UNAVAILABLE" then
      GeoAppError(PositionUnavailable, "Location Unavailable",
                  "Unable to determine your location. Please try again.", Retry)
    else if code == "TIMEOUT" then
      GeoAppError(Timeout, "Location Timeout",
                  "Location request timed out. Please try again.", Retry)
    else
      GeoAppError(Unknown, "Location Error", UnknownMessage, Fail)
  }

  /** For the app's own codes the policy keeps the code. */
  lemma PolicyKeepsCode(c: GeoErrorCode)
    ensures MapGeoErrorToAppError(CodeName(c)).code == c
  {
  }

  /** A failure the browser reports is never treated as "not supported": the
      BLOCK action is reserved for a missing geolocation API. */
  lemma BrowserErrorsNeverBlock(browserCode: int)
    ensures MapGeoErrorToAppError(CodeName(NormalizeGeoError(browserCode).code)).action != Block
  {
  }

  /** Along the whole `getCurrentLocation` path, BLOCK arises exactly when the
      device has no geolocation API. */
  lemma BlockIffUnsupported(hasGeolocation: bool, options: LocationOptions, answer: BrowserAnswer)
    ensures var r := GetCurrentLocation(hasGeolocation, options, answer).1;
            r.Rejected? ==> (MapGeoErrorToAppError(CodeName(r.error.code)).action == Block <==> !hasGeolocation)
  {
  }
}
