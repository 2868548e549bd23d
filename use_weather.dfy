/**
 * The first generation's `useWeather` hook: the search state and the
 * two-step lookup behind it. The hook's React state and its persisted list
 * of recent searches are fields of one object; each fetch is an abstract
 * reply, and the requests sent are logged in order.
 */
module UseWeather {
  import opened Wrappers
  import opened Text
  import opened Network
  import WeatherCodes

  /** The list shown when nothing has been saved yet. */
  const Seed := ["New York", "London", "Tokyo"]

  /** `slice(0, 5)`: at most this many recent searches are kept. */
  const MaxSearches := 5

  const CityNotFoundMessage := "City not found. Please try another name."
  const FallbackMessage := "Something went wrong. Please try again."

  /**
   * The `TypeError` thrown by `current.weather_code` when the forecast body
   * has no `current` block. Its wording is the JavaScript engine's; this is
   * the wording of React Native's engine.
   */
  const MissingCurrentMessage := "Cannot read property 'weather_code' of undefined"

  /** What `getItem` and `JSON.parse` make of a saved list: one of them throws, or it parses. */
  datatype SavedSearches = Unreadable | Parsed(list: seq<string>)

  /**
   * `WeatherData`, with the measured values kept as the API reports them
   * (the hook rounds and formats them for display).
   */
  datatype WeatherData = WeatherData(
    city: string,
    temp: real,
    condition: string,
    icon: string,
    iconUrl: string,
    humidity: real,
    wind: real,
    feelsLike: real)

  /** How the `try` block of `handleSearch` ends: the weather it built, or the message of what it threw. */
  datatype Outcome = Found(weather: WeatherData) | Failed(message: string)

  /** An outcome and the requests sent to reach it. */
  datatype Search = Search(outcome: Outcome, requests: seq<Request>)

  /**
   * The lookup inside `handleSearch`: geocode the name as typed, then fetch
   * the forecast at the first result. Neither response's `ok` flag is read.
   */
  function Lookup(city: string, geo: Reply<GeocodingResponse>, forecast: Reply<ForecastResponse>): (s: Search)
    ensures 1 <= |s.requests| <= 2 && s.requests[0] == GeocodeRequest(city)
  {
    var asked := [GeocodeRequest(city)];
    match geo
    case NetworkError(m) => Search(Failed(m), asked)
    case Response(_, body) =>
      match body
      case Malformed(m) => Search(Failed(m), asked)
      case Json(data) =>
        match FirstResult(data)
        case None => Search(Failed(CityNotFoundMessage), asked)
        case Some(place) =>
          var sent := asked + [ForecastRequest(place.latitude, place.longitude)];
          match forecast
          case NetworkError(m) => Search(Failed(m), sent)
          case Response(_, fbody) =>
            match fbody
            case Malformed(m) => Search(Failed(m), sent)
            case Json(fdata) =>
              match fdata.current
              case None => Search(Failed(MissingCurrentMessage), sent)
              case Some(cur) =>
                var shown := WeatherCodes.MapWeatherCode(cur.weatherCode, cur.isDay == 1);
                Search(Found(WeatherData(
                  place.name,
                  cur.temperature,
                  shown.condition,
                  shown.icon,
                  shown.iconUrl,
                  cur.relativeHumidity,
                  cur.windSpeed,
                  cur.apparentTemperature)), sent)
  }

  /** `err.message || "Something went wrong. Please try again."` */
  function ErrorText(message: string): (r: string)
    ensures r != ""
    ensures message != "" ==> r == message
    ensures message == "" ==> r == FallbackMessage
  {
    if message == "" then FallbackMessage else message
  }

  /** The recents after a successful search for `name`: unchanged if present up to case, else `[name, ...recent].slice(0, 5)`. */
  function RecentsAfter(recent: seq<string>, name: string): (r: seq<string>)
    ensures forall x :: x in r ==> x == name || x in recent
  {
    if ContainsIgnoringCase(recent, name) then recent
    else ([name] + recent)[..Min(MaxSearches, |recent| + 1)]
  }

  /** The hook's state, and the value saved under `@weather_app_recent_searches`. */
  class WeatherHook {
    var recentSearches: seq<string>
    var weather: Option<WeatherData>
    var loading: bool
    var error: Option<string>
    var saved: Option<SavedSearches>
    var requests: seq<Request>

    /** The initial state of the hook's `useState` calls, over what is saved. */
    constructor(saved0: Option<SavedSearches>)
      ensures recentSearches == [] && weather == None && !loading && error == None
      ensures saved == saved0 && requests == []
    {
      recentSearches := [];
      weather := None;
      loading := false;
      error := None;
      saved := saved0;
      requests := [];
    }

    /** `loadRecentSearches()`: nothing saved (or an empty text) seeds the list; a failed read or parse changes nothing. */
    method LoadRecentSearches()
      modifies this
      ensures saved.None? ==> recentSearches == Seed
      ensures saved == Some(Unreadable) ==> recentSearches == old(recentSearches)
      ensures saved.Some? && saved.value.Parsed? ==> recentSearches == saved.value.list
      ensures weather == old(weather) && loading == old(loading) && error == old(error)
      ensures saved == old(saved) && requests == old(requests)
    {
      match saved
      case None =>
        recentSearches := Seed;
      case Some(Unreadable) =>
      case Some(Parsed(list)) =>
        recentSearches := list;
    }

    /** `handleSearch(city)`, run to completion against the two replies. */
    method HandleSearch(city: string, geo: Reply<GeocodingResponse>, forecast: Reply<ForecastResponse>)
      modifies this
      ensures IsBlank(city) ==>
        && recentSearches == old(recentSearches) && weather == old(weather) && loading == old(loading)
        && error == old(error) && saved == old(saved) && requests == old(requests)
      ensures !IsBlank(city) ==> !loading && requests == old(requests) + Lookup(city, geo, forecast).requests
      ensures !IsBlank(city) && Lookup(city, geo, forecast).outcome.Failed? ==>
        && weather == None && error == Some(ErrorText(Lookup(city, geo, forecast).outcome.message))
        && recentSearches == old(recentSearches) && saved == old(saved)
      ensures !IsBlank(city) && Lookup(city, geo, forecast).outcome.Found? ==>
        var w := Lookup(city, geo, forecast).outcome.weather;
        && weather == Some(w) && error == None
        && recentSearches == RecentsAfter(old(recentSearches), w.city)
        && saved == (if ContainsIgnoringCase(old(recentSearches), w.city) then old(saved) else Some(Parsed(recentSearches)))
      ensures |old(recentSearches)| <= MaxSearches ==> |recentSearches| <= MaxSearches
      ensures NoCaseDup(old(recentSearches)) ==> NoCaseDup(recentSearches)
    {
      if Trim(city) == "" {
        return;
      }
      loading := true;
      error := None;
      var search := Lookup(city, geo, forecast);
      requests := requests + search.requests;
      match search.outcome {
        case Failed(m) =>
          error := Some(ErrorText(m));
          weather := None;
        case Found(w) =>
          weather := Some(w);
          RecentsAfterBound(recentSearches, w.city);
          if NoCaseDup(recentSearches) {
            RecentsAfterNoDup(recentSearches, w.city);
          }
          if !ContainsIgnoringCase(recentSearches, w.city) {
            var updated := ([w.city] + recentSearches)[..Min(MaxSearches, |recentSearches| + 1)];
            recentSearches := updated;
            saved := Some(Parsed(updated));
          }
      }
      loading := false;
    }
  }

  // ---- Properties of the lookup ----

  /** Missing or empty `results` fail with "City not found. Please try another name." before any forecast is asked for. */
  lemma LookupCityNotFound(city: string, ok: bool, data: GeocodingResponse, forecast: Reply<ForecastResponse>)
    requires data.results.None? || data.results.value == []
    ensures Lookup(city, Response(ok, Json(data)), forecast) == Search(Failed(CityNotFoundMessage), [GeocodeRequest(city)])
  {
  }

  /** The `ok` flag of neither response changes anything. */
  lemma LookupIgnoresOk(
    city: string, ok1: bool, ok2: bool, body: Body<GeocodingResponse>,
    fok1: bool, fok2: bool, fbody: Body<ForecastResponse>)
    ensures Lookup(city, Response(ok1, body), Response(fok1, fbody)) == Lookup(city, Response(ok2, body), Response(fok2, fbody))
  {
  }

  /** A forecast is asked for exactly when geocoding found a place, at that place's coordinates. */
  lemma LookupForecastRequest(city: string, geo: Reply<GeocodingResponse>, forecast: Reply<ForecastResponse>)
    ensures var s := Lookup(city, geo, forecast);
      (|s.requests| == 2 <==> geo.Response? && geo.body.Json? && FirstResult(geo.body.data).Some?)
      && (|s.requests| == 2 ==>
            var place := FirstResult(geo.body.data).value;
            s.requests[1] == ForecastRequest(place.latitude, place.longitude))
  {
  }

  /**
   * A successful lookup names the city after the first geocoding result, not
   * after what was typed, and shows the weather code the way `mapWeatherCode`
   * does for the reported day or night flag.
   */
  lemma {:induction false} LookupFound(city: string, geo: Reply<GeocodingResponse>, forecast: Reply<ForecastResponse>)
    requires Lookup(city, geo, forecast).outcome.Found?
    ensures var w := Lookup(city, geo, forecast).outcome.weather;
      && geo.Response? && geo.body.Json? && FirstResult(geo.body.data).Some?
      && forecast.Response? && forecast.body.Json? && forecast.body.data.current.Some?
      && var place := FirstResult(geo.body.data).value;
      && var cur := forecast.body.data.current.value;
      && var shown := WeatherCodes.MapWeatherCode(cur.weatherCode, cur.isDay == 1);
      && w.city == place.name
      && w.condition == shown.condition && w.icon == shown.icon && w.iconUrl == shown.iconUrl
      && w.temp == cur.temperature && w.humidity == cur.relativeHumidity
      && w.wind == cur.windSpeed && w.feelsLike == cur.apparentTemperature
  {
    match geo
    case Response(_, body) =>
      match body
      case Json(data) =>
        assert FirstResult(data).Some?;
  }

  /** A forecast body without `current` fails with the engine's `TypeError`. */
  lemma LookupMissingCurrent(city: string, geo: Reply<GeocodingResponse>, fok: bool)
    requires geo.Response? && geo.body.Json? && FirstResult(geo.body.data).Some?
    ensures Lookup(city, geo, Response(fok, Json(ForecastResponse(None)))).outcome == Failed(MissingCurrentMessage)
  {
  }

  // ---- Properties of the recents update ----

  /** A name already present up to case leaves the list as it was: it is not moved to the front. */
  lemma RecentsAfterPresent(recent: seq<string>, name: string)
    requires ContainsIgnoringCase(recent, name)
    ensures RecentsAfter(recent, name) == recent
  {
  }

  /** A new name goes first, followed by the old list cut to fit five. */
  lemma RecentsAfterNew(recent: seq<string>, name: string)
    requires !ContainsIgnoringCase(recent, name)
    ensures var r := RecentsAfter(recent, name);
      && |r| == Min(MaxSearches, |recent| + 1) && r[0] == name && r[1..] == recent[..|r| - 1]
  {
    var r := RecentsAfter(recent, name);
    assert r[1..] == recent[..|r| - 1];
  }

  /** After a successful search the name is in the list, up to case. */
  lemma RecentsAfterHasName(recent: seq<string>, name: string)
    ensures ContainsIgnoringCase(RecentsAfter(recent, name), name)
  {
    if !ContainsIgnoringCase(recent, name) {
      assert RecentsAfter(recent, name)[0] == name;
    }
  }

  /** A list the update builds has at most five names, and a list of at most five stays so. */
  lemma RecentsAfterBound(recent: seq<string>, name: string)
    ensures !ContainsIgnoringCase(recent, name) ==> |RecentsAfter(recent, name)| <= MaxSearches
    ensures |recent| <= MaxSearches ==> |RecentsAfter(recent, name)| <= MaxSearches
  {
  }

  /** A list without duplicates up to case stays so. */
  lemma RecentsAfterNoDup(recent: seq<string>, name: string)
    requires NoCaseDup(recent)
    ensures NoCaseDup(RecentsAfter(recent, name))
  {
    if !ContainsIgnoringCase(recent, name) {
      NoCaseDupCons(name, recent);
      NoCaseDupPrefix([name] + recent, Min(MaxSearches, |recent| + 1));
    }
  }

  /** The seed list is within the bound and has no duplicates up to case. */
  lemma SeedValid()
    ensures |Seed| <= MaxSearches && NoCaseDup(Seed)
  {
    assert |Lower(Seed[0])| == 8 && |Lower(Seed[1])| == 6 && |Lower(Seed[2])| == 5;
  }
}
