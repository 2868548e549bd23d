/**
 * The second generation's Open-Meteo client: `weatherCodeToText`,
 * `geocodeCity` and `getCurrentWeatherByCity`. Each network step is an
 * abstract reply; each call returns its outcome together with the requests
 * it sent, in order, so that the ordering rules can be stated.
 */
module OpenMeteo {
  import opened Wrappers
  import opened Text
  import opened Network

  /** A resolved promise, or a rejected one with the thrown error's message. */
  datatype Result<T> = Ok(value: T) | Err(message: string)

  /** An outcome and the requests sent to reach it. */
  datatype Call<T> = Call(result: Result<T>, requests: seq<Request>)

  /** The normalized record `getCurrentWeatherByCity` resolves to. */
  datatype CurrentWeather = CurrentWeather(
    city: string,
    condition: string,
    temp: real,
    humidity: real,
    wind: real,
    feelsLike: real)

  const GeocodingFailed := "Geocoding failed"
  const CityNotFound := "City not found"
  const WeatherFetchFailed := "Weather fetch failed"
  const NoCurrentData := "No current weather data"

  /** The nine condition labels the client can produce. */
  const Labels: set<string> :=
    {"Clear", "Partly cloudy", "Fog", "Drizzle", "Rain", "Snow", "Rain showers", "Thunderstorm", "Cloudy"}

  /** `weatherCodeToText`: exact code sets tried in order, "Cloudy" for anything else; total, and always one of the nine labels. */
  function WeatherCodeToText(code: int): (r: string)
    ensures r in Labels
  {
    if code == 0 then "Clear"
    else if code in [1, 2, 3] then "Partly cloudy"
    else if code in [45, 48] then "Fog"
    else if code in [51, 53, 55] then "Drizzle"
    else if code in [61, 63, 65] then "Rain"
    else if code in [71, 73, 75] then "Snow"
    else if code in [80, 81, 82] then "Rain showers"
    else if code in [95, 96, 99] then "Thunderstorm"
    else "Cloudy"
  }

  /** The table read the other way round: every label with the exact set of codes that produce it. */
  const TextTable: seq<(set<int>, string)> := [
    ({0}, "Clear"),
    ({1, 2, 3}, "Partly cloudy"),
    ({45, 48}, "Fog"),
    ({51, 53, 55}, "Drizzle"),
    ({61, 63, 65}, "Rain"),
    ({71, 73, 75}, "Snow"),
    ({80, 81, 82}, "Rain showers"),
    ({95, 96, 99}, "Thunderstorm")
  ]

  /** The codes the table names explicitly. */
  predicate Listed(code: int) {
    exists i :: 0 <= i < |TextTable| && code in TextTable[i].0
  }

  /** A listed code gets the label of its row; every other code (52, 97, -3, ...) gets "Cloudy". */
  lemma {:induction false} WeatherCodeToTextTable(code: int)
    ensures forall i :: 0 <= i < |TextTable| && code in TextTable[i].0 ==> WeatherCodeToText(code) == TextTable[i].1
    ensures !Listed(code) ==> WeatherCodeToText(code) == "Cloudy"
  {
    if !Listed(code) {
      assert forall i :: 0 <= i < |TextTable| ==> code !in TextTable[i].0;
      assert code !in TextTable[0].0 && code !in TextTable[1].0 && code !in TextTable[2].0 && code !in TextTable[3].0;
      assert code !in TextTable[4].0 && code !in TextTable[5].0 && code !in TextTable[6].0 && code !in TextTable[7].0;
    }
  }

  /** `geocodeCity(name)`: one request for the trimmed name, then the typed early failures. */
  function GeocodeCity(name: string, reply: Reply<GeocodingResponse>): (c: Call<GeocodingResult>)
    ensures c.requests == [GeocodeRequest(Trim(name))]
  {
    var requests := [GeocodeRequest(Trim(name))];
    match reply
    case NetworkError(m) => Call(Err(m), requests)
    case Response(ok, body) =>
      if !ok then Call(Err(GeocodingFailed), requests)
      else match body
        case Malformed(m) => Call(Err(m), requests)
        case Json(data) =>
          match FirstResult(data)
          case None => Call(Err(CityNotFound), requests)
          case Some(first) => Call(Ok(first), requests)
  }

  /** `getCurrentWeatherByCity(cityName)`: geocode, then ask for the forecast at the place found. */
  function GetCurrentWeatherByCity(
    cityName: string,
    geocode: Reply<GeocodingResponse>,
    forecast: Reply<ForecastResponse>): (c: Call<CurrentWeather>)
    ensures |c.requests| >= 1 && c.requests[0] == GeocodeRequest(Trim(cityName))
  {
    var g := GeocodeCity(cityName, geocode);
    match g.result
    case Err(m) => Call(Err(m), g.requests)
    case Ok(place) =>
      var requests := g.requests + [ForecastRequest(place.latitude, place.longitude)];
      match forecast
      case NetworkError(m) => Call(Err(m), requests)
      case Response(ok, body) =>
        if !ok then Call(Err(WeatherFetchFailed), requests)
        else match body
          case Malformed(m) => Call(Err(m), requests)
          case Json(data) =>
            match data.current
            case None => Call(Err(NoCurrentData), requests)
            case Some(cur) =>
              Call(Ok(CurrentWeather(
                place.name,
                WeatherCodeToText(cur.weatherCode),
                cur.temperature,
                cur.relativeHumidity,
                cur.windSpeed,
                cur.apparentTemperature)), requests)
  }

  /** A non-ok geocoding response fails with "Geocoding failed", whatever its body. */
  lemma GeocodeNotOk(name: string, body: Body<GeocodingResponse>)
    ensures GeocodeCity(name, Response(false, body)).result == Err(GeocodingFailed)
  {
  }

  /** An ok response fails with "City not found" exactly when `results` is missing or empty; otherwise it yields `results[0]` unchanged. */
  lemma GeocodeResults(name: string, data: GeocodingResponse)
    ensures var r := GeocodeCity(name, Response(true, Json(data))).result;
      && (r == Err(CityNotFound) <==> data.results.None? || data.results.value == [])
      && (r.Ok? ==> data.results.Some? && |data.results.value| > 0 && r.value == data.results.value[0])
      && (r.Err? ==> r == Err(CityNotFound))
  {
  }

  /** A failed geocoding step is the failure of the whole lookup, and no forecast is requested. */
  lemma GeocodeFailurePropagates(cityName: string, geocode: Reply<GeocodingResponse>, forecast: Reply<ForecastResponse>)
    requires GeocodeCity(cityName, geocode).result.Err?
    ensures var c := GetCurrentWeatherByCity(cityName, geocode, forecast);
      c.result == Err(GeocodeCity(cityName, geocode).result.message) && c.requests == [GeocodeRequest(Trim(cityName))]
  {
  }

  /** After a successful geocoding step the forecast is requested, second, at the first result's coordinates. */
  lemma ForecastAfterGeocode(cityName: string, geocode: Reply<GeocodingResponse>, forecast: Reply<ForecastResponse>)
    requires GeocodeCity(cityName, geocode).result.Ok?
    ensures var place := GeocodeCity(cityName, geocode).result.value;
      GetCurrentWeatherByCity(cityName, geocode, forecast).requests
        == [GeocodeRequest(Trim(cityName)), ForecastRequest(place.latitude, place.longitude)]
  {
  }

  /** The forecast step's two typed failures. */
  lemma ForecastFailures(cityName: string, geocode: Reply<GeocodingResponse>, body: Body<ForecastResponse>)
    requires GeocodeCity(cityName, geocode).result.Ok?
    ensures GetCurrentWeatherByCity(cityName, geocode, Response(false, body)).result == Err(WeatherFetchFailed)
    ensures GetCurrentWeatherByCity(cityName, geocode, Response(true, Json(ForecastResponse(None)))).result
      == Err(NoCurrentData)
  {
  }

  /** A successful lookup carries the geocoded name, the mapped label and the raw measurements. */
  lemma {:induction false} LookupSuccess(cityName: string, geocode: Reply<GeocodingResponse>, forecast: Reply<ForecastResponse>)
    requires GetCurrentWeatherByCity(cityName, geocode, forecast).result.Ok?
    ensures var w := GetCurrentWeatherByCity(cityName, geocode, forecast).result.value;
      && geocode.Response? && geocode.ok && geocode.body.Json?
      && FirstResult(geocode.body.data).Some?
      && forecast.Response? && forecast.ok && forecast.body.Json?
      && forecast.body.data.current.Some?
      && var place := FirstResult(geocode.body.data).value;
      && var cur := forecast.body.data.current.value;
      && w == CurrentWeather(place.name, WeatherCodeToText(cur.weatherCode),
                             cur.temperature, cur.relativeHumidity, cur.windSpeed, cur.apparentTemperature)
  {
    var g := GeocodeCity(cityName, geocode);
    assert g.result.Ok?;
  }
}
