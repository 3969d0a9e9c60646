/**
 * The values that cross the handler boundary: the response body, the
 * outcome of the aggregation call (which is not part of this model and
 * reaches the handlers as an oracle), the HTTP response, and the mapping
 * of aggregation failures to HTTP errors that both handlers share.
 */
module Api {

  /** A temperature in degrees Celsius: carried through unchanged, never computed here. */
  type Celsius = real

  /** `AverageWeatherResponse`: the canonical city, the window length and the average. */
  datatype Payload = Payload(city: string, days: int, averageTemperatureC: Celsius)

  /** How a call to `compute_average_temperature` ends: a result, a `ValueError`, or any other exception. */
  datatype Outcome =
    | Computed(canonical: string, average: Celsius)
    | ValueError(message: string)
    | OtherError

  /** What the handler hands back to the framework: a body, or an `HTTPException`. */
  datatype Response = Success(payload: Payload) | HttpError(status: int, detail: string)

  const UPSTREAM_ERROR_DETAIL := "Upstream weather provider error"

  /**
   * The `except` clauses around the aggregation call: a `ValueError` is the
   * client's fault and its message is passed on; anything else is an
   * upstream failure whose detail is fixed, so nothing internal leaks.
   */
  function ErrorResponse(o: Outcome): (r: Response)
    requires !o.Computed?
    ensures r.HttpError? && (r.status == 400 || r.status == 502)
    ensures r.status == 400 <==> o.ValueError?
    ensures o.ValueError? ==> r.detail == o.message
    ensures o.OtherError? ==> r.detail == UPSTREAM_ERROR_DETAIL
  {
    match o
    case ValueError(message) => HttpError(400, message)
    case OtherError => HttpError(502, UPSTREAM_ERROR_DETAIL)
  }
}
