/**
 * The two Open-Meteo endpoints as the app sees them: one `fetch` followed by
 * `res.json()`, given as an abstract reply value instead of real HTTP. The
 * measured quantities are floating-point numbers in the API; they are passed
 * through untouched, so `real` stands for them.
 */
module Network {
  import opened Wrappers

  /** What `res.json()` yields: a parsed body, or the message of the error it throws. */
  datatype Body<B> = Malformed(message: string) | Json(data: B)

  /** One `fetch`: the promise rejects with a message, or resolves to a response with its `ok` flag. */
  datatype Reply<B> = NetworkError(message: string) | Response(ok: bool, body: Body<B>)

  /** A request the app sends, recorded with the parameters that matter to it. */
  datatype Request =
    | GeocodeRequest(name: string)
    | ForecastRequest(latitude: real, longitude: real)

  /** One entry of the geocoding API's `results` array. */
  datatype GeocodingResult = GeocodingResult(
    id: int,
    name: string,
    country: string,
    latitude: real,
    longitude: real,
    admin1: Option<string>)

  /** The geocoding API's body: `results` may be missing. */
  datatype GeocodingResponse = GeocodingResponse(results: Option<seq<GeocodingResult>>)

  /** The `current` block of the forecast API; `isDay` is the API's 0/1 flag. */
  datatype Current = Current(
    temperature: real,
    apparentTemperature: real,
    relativeHumidity: real,
    windSpeed: real,
    weatherCode: int,
    isDay: int)

  /** The forecast API's body: `current` may be missing. */
  datatype ForecastResponse = ForecastResponse(current: Option<Current>)

  /** `data.results?.[0]`: the first geocoding result, when there is one. */
  function FirstResult(data: GeocodingResponse): (r: Option<GeocodingResult>)
    ensures r.Some? <==> data.results.Some? && |data.results.value| > 0
    ensures r.Some? ==> r.value == data.results.value[0]
  {
    match data.results
    case Some(rs) => if |rs| > 0 then Some(rs[0]) else None
    case None => None
  }
}
