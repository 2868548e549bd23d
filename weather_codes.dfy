/**
 * `mapWeatherCode` of the first generation: a WMO weather interpretation code
 * (the present-weather "WW" codes of WMO code table 4677, as Open-Meteo
 * reports them) and a day/night flag become a label, an Ionicons glyph name
 * and an OpenWeatherMap icon URL.
 */
module WeatherCodes {

  datatype WeatherDisplay = WeatherDisplay(condition: string, icon: string, iconUrl: string)

  const IconBase := "https://openweathermap.org/img/wn/"

  /** `https://openweathermap.org/img/wn/<nn><d|n>@4x.png` */
  function IconUrl(nn: string, isDay: bool): string {
    IconBase + nn + (if isDay then "d" else "n") + "@4x.png"
  }

  /** `mapWeatherCode(code, isDay = true)`: a chain of guarded returns, the first that matches wins. */
  function MapWeatherCode(code: int, isDay: bool := true): (r: WeatherDisplay)
    ensures r.condition != ""
  {
    if code == 0 then
      WeatherDisplay("Clear Sky", "sunny-outline", IconUrl("01", isDay))
    else if 1 <= code <= 3 then
      WeatherDisplay("Partly Cloudy", "partly-sunny-outline", IconUrl("02", isDay))
    else if code == 45 || code == 48 then
      WeatherDisplay("Fog", "cloudy-outline", IconUrl("50", isDay))
    else if (51 <= code <= 65) || (80 <= code <= 82) then
      WeatherDisplay("Rainy", "rainy-outline", IconUrl("10", isDay))
    else if (71 <= code <= 77) || (85 <= code <= 86) then
      WeatherDisplay("Snowy", "snow-outline", IconUrl("13", isDay))
    else if code >= 95 then
      WeatherDisplay("Thunderstorm", "thunderstorm-outline", IconUrl("11", isDay))
    else
      WeatherDisplay("Unknown", "help-circle-outline", "")
  }

  // An independent reading of the same table: the buckets as sets of codes,
  // each with the label, glyph and icon number it is shown with.

  datatype Bucket = ClearSky | PartlyCloudy | Fog | Rainy | Snowy | Thunderstorm

  const Buckets: seq<Bucket> := [ClearSky, PartlyCloudy, Fog, Rainy, Snowy, Thunderstorm]

  predicate InBucket(b: Bucket, code: int) {
    match b
    case ClearSky => code == 0
    case PartlyCloudy => code in {1, 2, 3}
    case Fog => code in {45, 48}
    case Rainy => 51 <= code <= 65 || 80 <= code <= 82
    case Snowy => 71 <= code <= 77 || 85 <= code <= 86
    case Thunderstorm => code >= 95
  }

  function Label(b: Bucket): string {
    match b
    case ClearSky => "Clear Sky"
    case PartlyCloudy => "Partly Cloudy"
    case Fog => "Fog"
    case Rainy => "Rainy"
    case Snowy => "Snowy"
    case Thunderstorm => "Thunderstorm"
  }

  function Glyph(b: Bucket): string {
    match b
    case ClearSky => "sunny-outline"
    case PartlyCloudy => "partly-sunny-outline"
    case Fog => "cloudy-outline"
    case Rainy => "rainy-outline"
    case Snowy => "snow-outline"
    case Thunderstorm => "thunderstorm-outline"
  }

  /** The two-digit OpenWeatherMap icon number of a bucket. */
  function IconNumber(b: Bucket): string {
    match b
    case ClearSky => "01"
    case PartlyCloudy => "02"
    case Fog => "50"
    case Rainy => "10"
    case Snowy => "13"
    case Thunderstorm => "11"
  }

  /** No code belongs to two buckets, so the order of the source's guards does not matter. */
  lemma BucketsDisjoint(code: int, b1: Bucket, b2: Bucket)
    requires InBucket(b1, code) && InBucket(b2, code)
    ensures b1 == b2
  {
  }

  /** A code that falls in bucket `b` is shown with `b`'s label, glyph and day or night icon. */
  lemma MapWeatherCodeInBucket(code: int, isDay: bool, b: Bucket)
    requires InBucket(b, code)
    ensures MapWeatherCode(code, isDay) == WeatherDisplay(Label(b), Glyph(b), IconUrl(IconNumber(b), isDay))
  {
  }

  /** A code outside every bucket (46, 66, 67, 90, any negative code, ...) is "Unknown" with no icon URL. */
  lemma MapWeatherCodeUnknown(code: int, isDay: bool)
    ensures MapWeatherCode(code, isDay) == WeatherDisplay("Unknown", "help-circle-outline", "")
        <==> forall b :: b in Buckets ==> !InBucket(b, code)
  {
    if forall b :: b in Buckets ==> !InBucket(b, code) {
      assert !InBucket(ClearSky, code) && !InBucket(PartlyCloudy, code) && !InBucket(Fog, code);
      assert !InBucket(Rainy, code) && !InBucket(Snowy, code) && !InBucket(Thunderstorm, code);
    } else {
      var b :| b in Buckets && InBucket(b, code);
      MapWeatherCodeInBucket(code, isDay, b);
    }
  }

  /** Only the icon URL depends on day or night: the label and glyph do not. */
  lemma DayNightShareLabel(code: int)
    ensures MapWeatherCode(code, true).condition == MapWeatherCode(code, false).condition
    ensures MapWeatherCode(code, true).icon == MapWeatherCode(code, false).icon
  {
  }

  /** Every known bucket has distinct day and night icons: they differ in the `d`/`n` letter after the number. */
  lemma {:induction false} DayNightIconsDiffer(code: int, b: Bucket)
    requires InBucket(b, code)
    ensures MapWeatherCode(code, true).iconUrl != MapWeatherCode(code, false).iconUrl
    ensures var k := |IconBase| + 2;
      MapWeatherCode(code, true).iconUrl[k] == 'd' && MapWeatherCode(code, false).iconUrl[k] == 'n'
  {
    MapWeatherCodeInBucket(code, true, b);
    MapWeatherCodeInBucket(code, false, b);
    var k := |IconBase| + 2;
    assert IconUrl(IconNumber(b), true)[k] == 'd';
    assert IconUrl(IconNumber(b), false)[k] == 'n';
  }

  /** The condition-to-bucket step is consistent: each example code named in the table lands where the table says. */
  lemma MapWeatherCodeExamples()
    ensures MapWeatherCode(0).condition == "Clear Sky"
    ensures MapWeatherCode(2).condition == "Partly Cloudy"
    ensures MapWeatherCode(48).condition == "Fog"
    ensures MapWeatherCode(60).condition == "Rainy" && MapWeatherCode(81).condition == "Rainy"
    ensures MapWeatherCode(75).condition == "Snowy" && MapWeatherCode(86).condition == "Snowy"
    ensures MapWeatherCode(96).condition == "Thunderstorm" && MapWeatherCode(1000).condition == "Thunderstorm"
    ensures MapWeatherCode(46).condition == "Unknown" && MapWeatherCode(66).condition == "Unknown"
    ensures MapWeatherCode(-1).condition == "Unknown" && MapWeatherCode(90).condition == "Unknown"
    ensures MapWeatherCode(0) == MapWeatherCode(0, true)
  {
  }
}
