# Weather app: search, lookup, recents and cache rules in Dafny

This project models the decision logic of a small React Native weather app.
It covers both generations of the app, which keep different rules.

- **First generation** (`hooks/`, `utils/`):
  - The `useWeather` hook holds the search state: recent searches, the weather shown, a loading flag and an error.
  - Its search geocodes the typed name and then fetches the forecast at the first result.
  - After a successful search it adds the found city to at most five recent searches, unless the city is already there.
  - `mapWeatherCode` turns a WMO weather interpretation code into a label, an Ionicons glyph and an OpenWeatherMap icon URL.
  - The codes are the present-weather "WW" codes of WMO code table 4677, as Open-Meteo reports them.
- **Second generation** (`src/`):
  - The Open-Meteo client (`weatherCodeToText`, `geocodeCity`, `getCurrentWeatherByCity`) fails with typed errors.
  - The storage module keeps a most-recent-first list of at most eight city names. The list is trimmed and deduplicated without regard to case.
  - The same module keeps a cache of weather cards keyed by the trimmed, lowercased city name.
  - `getWeatherBg` picks a background picture by a case-insensitive keyword search in fixed priority.

Layout, one module per file:

| file | module | models |
|---|---|---|
| `wrappers.dfy` | `Wrappers` | `Option` (JavaScript `null`/`undefined`), `Min` |
| `text.dfy` | `Text` | `trim`, `toLowerCase`, `includes`, case-insensitive list membership |
| `network.dfy` | `Network` | abstract `fetch` replies, request log, Open-Meteo response shapes |
| `weather_codes.dfy` | `WeatherCodes` | `utils/weather.ts` |
| `open_meteo.dfy` | `OpenMeteo` | `src/api/openMeteo.ts` |
| `weather_background.dfy` | `WeatherBackground` | `src/utils/WeatherBackground.ts` |
| `weather_cache.dfy` | `WeatherCache` | `src/storage/weatherCache.ts` |
| `use_weather.dfy` | `UseWeather` | `hooks/useWeather.ts` |

## How the system is modelled

- **Network.**
  - A `fetch` plus `res.json()` is an abstract `Reply`. The promise either rejects with a message, or it resolves to a response with an `ok` flag and a body.
  - The body is either parsed JSON or the message of the error `json()` throws.
  - Each lookup returns its outcome together with the list of requests it sent, so statements like "no forecast is requested" can be proved.
- **Storage.**
  - Each storage key holds `Option<Blob>`. `None` covers both nothing stored and the empty string, because both fail `!raw`.
  - A `Blob` is an abstract `JSON.parse` outcome:
    - it throws;
    - it yields a primitive, recorded only by whether it is truthy;
    - it yields an array of values;
    - it yields an object with its own keys.
- **State.**
  - The storage module is the class `WeatherCache.Storage`. It has one field per key, and its methods reassign those fields.
  - The hook is the class `UseWeather.WeatherHook`. It has its four `useState` values, the saved recents value and the request log.
  - Every method states the whole new state in terms of a pure function of the old state. The lemmas prove the properties of those functions.
- **Strings.**
  - `trim` removes exactly the characters ECMAScript calls WhiteSpace and LineTerminator.
  - `toLowerCase` is modelled on ASCII letters only.
  - `includes` means the keyword occurs at some position.
- **Measurements.** Temperatures, humidity and wind are floating-point numbers, so they are `real`. The second generation passes them through untouched. The first generation rounds and formats them for display, which is left out (see below), so there too they stay the raw values.

The model follows the code where its behaviour may be unexpected:

- **Code 46.** `mapWeatherCode` maps 46 to "Unknown", not to "Fog". Its guard is `code === 45 || code === 48`.
- **Blank city names.** `geocodeCity` does not reject a blank name before sending a request. It sends the trimmed name, which may be empty.
- **No `res.ok` check.** The first-generation hook never reads `res.ok` on either response. Only the JSON body decides the outcome, and `UseWeather.LookupIgnoresOk` states this.

## Model

| member | source | states |
|---|---|---|
| Network.FirstResult | src/api/openMeteo.ts:53 | `results?.[0]` exists exactly when `results` is present and non-empty, and it is then the first element |
| WeatherCodes.MapWeatherCode | utils/weather.ts:16-68 | total: every integer code, day or night, gets a non-empty condition label |
| WeatherCodes.BucketsDisjoint | utils/weather.ts:26-66 | the six guarded code ranges do not overlap, so the order of the guards does not matter |
| WeatherCodes.MapWeatherCodeInBucket | utils/weather.ts:24-66 | a code in a bucket gets that bucket's label and glyph, and the URL `https://openweathermap.org/img/wn/<NN><d or n>@4x.png` with NN 01, 02, 50, 10, 13, 11 in table order |
| WeatherCodes.MapWeatherCodeUnknown | utils/weather.ts:68 | the result is "Unknown" / `help-circle-outline` / "" exactly when the code is in no bucket |
| WeatherCodes.DayNightShareLabel | utils/weather.ts:24-66 | label and glyph do not depend on the day flag |
| WeatherCodes.DayNightIconsDiffer | utils/weather.ts:24 | for every known bucket the day and night URLs differ, in the `d` / `n` letter after the icon number |
| WeatherCodes.MapWeatherCodeExamples | utils/weather.ts:18-68 | the table's sample codes (0, 2, 48, 60, 81, 75, 86, 96, 1000, and 46, 66, -1, 90 as Unknown) land in their rows, and the day flag defaults to true |
| OpenMeteo.WeatherCodeToTextTable | src/api/openMeteo.ts:33-43 | a listed code gets the label of its row; any code not listed gets "Cloudy" |
| OpenMeteo.WeatherCodeToText | src/api/openMeteo.ts:33-43 | total on every integer code, and the label is always one of the nine: Clear, Partly cloudy, Fog, Drizzle, Rain, Snow, Rain showers, Thunderstorm, Cloudy |
| OpenMeteo.GeocodeCity | src/api/openMeteo.ts:45-56 | exactly one request is sent, for the trimmed name |
| OpenMeteo.GetCurrentWeatherByCity | src/api/openMeteo.ts:58-61 | the first request is always the geocoding request for the trimmed name |
| OpenMeteo.GeocodeNotOk | src/api/openMeteo.ts:49-50 | a non-ok geocoding response fails with "Geocoding failed", whatever its body |
| OpenMeteo.GeocodeResults | src/api/openMeteo.ts:51-55 | an ok response fails with "City not found" exactly when `results` is missing or empty; otherwise it yields `results[0]` unchanged |
| OpenMeteo.GeocodeFailurePropagates | src/api/openMeteo.ts:61 | a geocoding failure is the lookup's failure, with the same message, and no forecast is requested |
| OpenMeteo.ForecastAfterGeocode | src/api/openMeteo.ts:61-78 | after a successful geocoding step the forecast is requested second, at the first result's coordinates |
| OpenMeteo.ForecastFailures | src/api/openMeteo.ts:78-83 | a non-ok forecast fails with "Weather fetch failed"; a body without `current` fails with "No current weather data" |
| OpenMeteo.LookupSuccess | src/api/openMeteo.ts:85-92 | a success came from ok responses with a first result and a `current` block; city is the place's name, condition is `weatherCodeToText` of the code, the measurements are passed through |
| WeatherBackground.GetWeatherBg | src/utils/WeatherBackground.ts:1-16 | the picture is the first rule of the table thunder/storm, snow, rain/drizzle, fog/mist/haze, clear/sun, cloud with a keyword in the lowercased label, a missing label read as "" |
| WeatherBackground.Classify | src/utils/WeatherBackground.ts:4-15 | the chain of `includes` tests is the first-match-wins reading of that rule table |
| WeatherBackground.GetWeatherBgIgnoresCase | src/utils/WeatherBackground.ts:2 | the picture depends only on the lowercased label |
| WeatherBackground.GetWeatherBgEmpty | src/utils/WeatherBackground.ts:2 | a missing or empty label has no picture |
| WeatherBackground.GetWeatherBgPriority | src/utils/WeatherBackground.ts:4-15 | storm exactly when "thunder" or "storm" occurs; snow exactly when those do not and "snow" does; no picture exactly when no rule's keyword occurs |
| WeatherBackground.ThunderstormIsStorm | src/utils/WeatherBackground.ts:4-5 | "Thunderstorm" is a storm |
| WeatherBackground.SnowBeatsRain | src/utils/WeatherBackground.ts:6-8 | "Snow and rain" is snow |
| WeatherBackground.PartlyCloudyIsCloudy | src/utils/WeatherBackground.ts:4-13 | "Partly cloudy" is cloudy |
| WeatherBackground.SunnyIsClear | src/utils/WeatherBackground.ts:11-12 | "Sunny" is clear |
| WeatherBackground.WindyHasNoPicture | src/utils/WeatherBackground.ts:15 | a label with none of the keywords ("Windy") has no picture |
| WeatherBackground.LabelHasBackground | src/utils/WeatherBackground.ts:4-13 | each of the nine labels of `weatherCodeToText` has a picture |
| WeatherBackground.EveryCodeLabelHasBackground | src/api/openMeteo.ts:33-43 | every code's `weatherCodeToText` label gets a non-null background |
| Text.TrimSpec | src/storage/weatherCache.ts:20 | `trim` returns a contiguous piece of the input with only white space cut off each side, and its ends are not white space |
| Text.BlankIffAllSpace | hooks/useWeather.ts:40 | `!s.trim()` holds exactly when every character is white space |
| Text.TrimIdempotent | src/storage/weatherCache.ts:20 | trimming twice is trimming once |
| Text.LowerIdempotent | src/storage/weatherCache.ts:26 | lowercasing twice is lowercasing once |
| Text.TrimLowerCommute | src/storage/weatherCache.ts:49 | trimming and lowercasing commute |
| WeatherCache.StringsOf | src/storage/weatherCache.ts:12 | the filter keeps the string elements and no others, and never lengthens the list |
| WeatherCache.StringsOfCounts | src/storage/weatherCache.ts:12 | each string occurs in the result as many times as it occurs among the stored elements |
| WeatherCache.RecentsFrom | src/storage/weatherCache.ts:7-17 | a name is loaded exactly when the stored value is an array holding it as a string element; anything else loads no name |
| WeatherCache.RemoveMatches | src/storage/weatherCache.ts:26 | the filter keeps the entries not equal to the new name up to case and no others, and never lengthens the list |
| WeatherCache.RemoveMatchesCounts | src/storage/weatherCache.ts:26 | each kept entry occurs as many times as it is stored, and entries equal to the name up to case do not occur |
| WeatherCache.Storage.LoadRecents | src/storage/weatherCache.ts:7-17 | the result is the stored array's string elements, and nothing when the value is missing, unparseable or not an array |
| WeatherCache.Storage.AddRecent | src/storage/weatherCache.ts:19-31 | a blank name returns the loaded list and writes nothing; otherwise it stores and returns the next list; the cache is untouched |
| WeatherCache.Storage.ClearRecents | src/storage/weatherCache.ts:33-35 | the recents key is removed and the cache is untouched |
| WeatherCache.Storage.SaveWeatherToCache | src/storage/weatherCache.ts:48-62 | the cache becomes the saved effect: no write for a blank key; a fresh map for nothing, an unparseable text or a falsy value; failure for a truthy primitive; the array itself for an array; the map with the key set for an object |
| WeatherCache.Storage.LoadWeatherFromCache | src/storage/weatherCache.ts:64-79 | the result is the stored entry under the key if it is not null, and null for a blank key, nothing stored or an unparseable cache |
| WeatherCache.RecentsRoundTrip | src/storage/weatherCache.ts:12-29 | a list written by `addRecent` reads back unchanged |
| WeatherCache.LoadRecentsEmpty | src/storage/weatherCache.ts:7-17 | nothing stored (as after `clearRecents`), an unparseable text, a primitive or an object all load as [] |
| WeatherCache.StringsOfOrdered | src/storage/weatherCache.ts:12 | the string elements are returned in their stored order |
| WeatherCache.RemoveMatchesOrdered | src/storage/weatherCache.ts:26 | the filter keeps the stored order |
| WeatherCache.RemoveMatchesNone | src/storage/weatherCache.ts:26 | a list without a match passes the filter unchanged |
| WeatherCache.RemoveMatchesOne | src/storage/weatherCache.ts:26 | in a list without duplicates up to case, a present name is removed exactly once |
| WeatherCache.RemoveMatchesNoDup | src/storage/weatherCache.ts:26 | the filter keeps a duplicate-free list duplicate-free |
| WeatherCache.NextRecents | src/storage/weatherCache.ts:24-27 | the next list holds 1 to 8 names and starts with the trimmed name |
| WeatherCache.NextRecentsShape | src/storage/weatherCache.ts:19-27 | the next list has 1 to 8 names, starts with the trimmed name, continues with a prefix of the filtered stored list in stored order, and holds no other entry equal to the name up to case |
| WeatherCache.NextRecentsNoDup | src/storage/weatherCache.ts:24-27 | a stored list without duplicates up to case stays so |
| WeatherCache.AddRecentTwice | src/storage/weatherCache.ts:23-29 | adding the same name again stores and returns the same list as adding it once |
| WeatherCache.ReAddKeepsLength | src/storage/weatherCache.ts:24-27 | in a stored list without duplicates up to case, re-adding a present name does not grow the list: its length is min(8, stored length) |
| WeatherCache.AddNewName | src/storage/weatherCache.ts:24-27 | a new name is prepended and the list is cut to min(8, stored length + 1) |
| WeatherCache.CacheKey | src/storage/weatherCache.ts:49-50 | the key is empty exactly when the name is blank |
| WeatherCache.SaveOutcome | src/storage/weatherCache.ts:48-61 | nothing is written exactly for a blank name; the save fails exactly for a non-blank name over a truthy primitive; an object written holds the card under the key |
| WeatherCache.CacheAfterSave | src/storage/weatherCache.ts:48-61 | a blank name leaves the store as it was, and a store that changes afterwards holds an object or an array |
| WeatherCache.LookupCache | src/storage/weatherCache.ts:64-79 | a card is never null, a blank name finds nothing, and anything found is the object cache's entry under the key |
| WeatherCache.CacheKeyIdempotent | src/storage/weatherCache.ts:49 | normalising a key again gives the same key |
| WeatherCache.CacheKeyTrimsLowered | src/storage/weatherCache.ts:49 | the key is also the lowercased name, trimmed |
| WeatherCache.CacheRoundTrip | src/storage/weatherCache.ts:48-75 | saving a card and loading any name with the same key returns that card, unless the stored cache was an array or a truthy primitive |
| WeatherCache.CacheUnwritable | src/storage/weatherCache.ts:55-61 | an array cache is written back unchanged; a truthy primitive makes the save fail without a write; neither yields a card |
| WeatherCache.CacheOtherKeys | src/storage/weatherCache.ts:60 | a save leaves the lookup of every other key as it was |
| WeatherCache.CacheFreshStart | src/storage/weatherCache.ts:53-58 | a save over nothing, an unparseable text or a falsy value leaves exactly the one new card |
| WeatherCache.CacheBlank | src/storage/weatherCache.ts:49-50 | a blank name writes nothing on save and loads as null |
| WeatherCache.CacheMissing | src/storage/weatherCache.ts:70-78 | an empty store, an unparseable text and a never-saved key load as null |
| UseWeather.Lookup | hooks/useWeather.ts:46-61 | the geocoding request, for the name as typed, comes first, and at most one forecast request follows |
| UseWeather.ErrorText | hooks/useWeather.ts:91 | the error shown is never empty: the thrown message, or the fallback text when that is empty |
| UseWeather.RecentsAfter | hooks/useWeather.ts:83-87 | the updated list holds only the found city and entries of the old list |
| UseWeather.WeatherHook.constructor | hooks/useWeather.ts:9-12 | the hook starts with no recents, no weather, not loading and no error, with the saved value as given and no request sent |
| UseWeather.WeatherHook.LoadRecentSearches | hooks/useWeather.ts:18-29 | nothing saved seeds New York, London, Tokyo; a parsed list replaces the state; a failed read or parse changes nothing |
| UseWeather.WeatherHook.HandleSearch | hooks/useWeather.ts:39-96 | a blank name changes nothing; otherwise loading ends false and the requests are logged; failure clears the weather and sets the error text; success sets the weather, clears the error and applies the recents rule, saving only a changed list; the bound of five and freedom from duplicates are kept |
| UseWeather.LookupCityNotFound | hooks/useWeather.ts:52-54 | missing or empty `results` fail with "City not found. Please try another name." and no forecast is requested |
| UseWeather.LookupIgnoresOk | hooks/useWeather.ts:47-61 | neither response's `ok` flag changes the outcome or the requests |
| UseWeather.LookupForecastRequest | hooks/useWeather.ts:56-60 | a forecast is requested exactly when geocoding found a place, at its coordinates |
| UseWeather.LookupFound | hooks/useWeather.ts:56-79 | a success is named after the first geocoding result, not the input, shows `mapWeatherCode` of the code and `is_day === 1`, and passes the measurements through |
| UseWeather.LookupMissingCurrent | hooks/useWeather.ts:63-67 | a forecast body without `current` fails with the engine's TypeError |
| UseWeather.RecentsAfterPresent | hooks/useWeather.ts:83-85 | a city already present up to case leaves the list unchanged: it is not moved to the front |
| UseWeather.RecentsAfterNew | hooks/useWeather.ts:86 | a new city goes first, followed by the old list cut so that at most five remain |
| UseWeather.RecentsAfterHasName | hooks/useWeather.ts:83-87 | after a success the found city is in the list, up to case |
| UseWeather.RecentsAfterBound | hooks/useWeather.ts:86 | a list built by the update has at most five names, and a list of at most five stays so |
| UseWeather.RecentsAfterNoDup | hooks/useWeather.ts:83-87 | a list without duplicates up to case stays so |
| UseWeather.SeedValid | hooks/useWeather.ts:24 | the seed list is within the bound and has no duplicates up to case |

## Left out

- Real I/O is not modelled. `fetch`, `AsyncStorage`, `JSON.parse` and `JSON.stringify` become abstract replies and parse outcomes, and JSON text is never built or read.
- A rejected `getItem` or `setItem` in `src/storage/weatherCache.ts` is not modelled. Those calls sit outside the `try` blocks, so a storage failure makes `loadRecents`, `addRecent`, `saveWeatherToCache` or `loadWeatherFromCache` reject; here every read and write succeeds and only a parse can fail.
- URL building is not modelled. `encodeURIComponent` and `URLSearchParams` are library calls, so a request records only the name or the coordinates it carries.
- Rounding and formatting are not modelled: `Math.round`, the `%`, `km/h` and `°` strings, and the `String(...)` of coordinates. The measurements stay raw `real` values.
- Text.Lower: lowercases ASCII letters only, because `toLowerCase`'s full Unicode case mapping is out of scope.
- Inherited and special property names are not modelled: `__proto__` and `constructor` used as cache keys, numeric keys set on an array cache, and indexing a string cache. Every primitive and every array reads back as null.
- A JSON body that is `null` or not an object is not modelled, and neither is a geocoding result that is not an object. The bodies are typed records.
- UseWeather.WeatherHook.LoadRecentSearches: a saved value that parses to something other than a list of strings is not modelled. It is a list of strings here.
- `saveRecentSearches` failing its write is not modelled. The failure is only logged, so the saved value is taken to be written.
- Non-integer weather codes are not modelled. Codes are `int`.
- `bgColors` is not modelled. The hook reads it from `mapWeatherCode`, which returns no such field, so it is always undefined.
- Asynchronous interleaving is not modelled: overlapping searches, the stale `recentSearches` closure, and the render in which `loading` is true. `handleSearch` runs to completion against its two replies.
- Side-effect plumbing is not modelled: `Keyboard.dismiss`, `useEffect` and `console.error`.
- The message of a missing `current` is not general. It is the wording of React Native's engine, and other engines word this `TypeError` differently.
- The `.tsx` components are not part of this model. They are rendering, styling and routing.
