/**
 * `getWeatherBg` of the second generation: the background picture chosen for
 * a condition label by a case-insensitive keyword search in fixed priority.
 */
module WeatherBackground {
  import opened Wrappers
  import opened Text
  import OpenMeteo

  /** The bundled pictures under assets/weather/. */
  datatype Background = Storm | Snow | Rain | Fog | Clear | Cloudy

  /** `getWeatherBg(condition?)`: `null` is None. The picture is the first rule of `Rules` with a keyword in the lowercased label. */
  function GetWeatherBg(condition: Option<string>): (r: Option<Background>)
    ensures r == FirstMatch(Rules, Lower(if condition.Some? then condition.value else ""))
  {
    Classify(Lower(if condition.Some? then condition.value else ""))
  }

  /** The chain of `includes` tests on the lowercased label: the first-match-wins reading of `Rules`. */
  function Classify(c: string): (r: Option<Background>)
    ensures r == FirstMatch(Rules, c)
  {
    RulesInOrder(c);
    if Includes(c, "thunder") || Includes(c, "storm") then Some(Storm)
    else if Includes(c, "snow") then Some(Snow)
    else if Includes(c, "rain") || Includes(c, "drizzle") then Some(Rain)
    else if Includes(c, "fog") || Includes(c, "mist") || Includes(c, "haze") then Some(Fog)
    else if Includes(c, "clear") || Includes(c, "sun") then Some(Clear)
    else if Includes(c, "cloud") then Some(Cloudy)
    else None
  }

  // The same classifier as data: rules in priority order, each a picture and its keywords.

  const Rules: seq<(Background, seq<string>)> := [
    (Storm, ["thunder", "storm"]),
    (Snow, ["snow"]),
    (Rain, ["rain", "drizzle"]),
    (Fog, ["fog", "mist", "haze"]),
    (Clear, ["clear", "sun"]),
    (Cloudy, ["cloud"])
  ]

  /** Some keyword of the list occurs in `c`. */
  predicate AnyKeyword(c: string, keywords: seq<string>) {
    exists k :: 0 <= k < |keywords| && Includes(c, keywords[k])
  }

  /** The first rule with a keyword in `c`, or None. */
  function FirstMatch(rules: seq<(Background, seq<string>)>, c: string): Option<Background> {
    if rules == [] then None
    else if AnyKeyword(c, rules[0].1) then Some(rules[0].0)
    else FirstMatch(rules[1..], c)
  }

  /** `FirstMatch` over `Rules`, one rule after the other. */
  lemma RulesInOrder(c: string)
    ensures FirstMatch(Rules, c) ==
      if Includes(c, "thunder") || Includes(c, "storm") then Some(Storm)
      else if Includes(c, "snow") then Some(Snow)
      else if Includes(c, "rain") || Includes(c, "drizzle") then Some(Rain)
      else if Includes(c, "fog") || Includes(c, "mist") || Includes(c, "haze") then Some(Fog)
      else if Includes(c, "clear") || Includes(c, "sun") then Some(Clear)
      else if Includes(c, "cloud") then Some(Cloudy)
      else None
  {
    var r5 := [(Cloudy, ["cloud"])];
    var r4 := [(Clear, ["clear", "sun"])] + r5;
    var r3 := [(Fog, ["fog", "mist", "haze"])] + r4;
    var r2 := [(Rain, ["rain", "drizzle"])] + r3;
    var r1 := [(Snow, ["snow"])] + r2;
    assert Rules == [(Storm, ["thunder", "storm"])] + r1;
    assert r5[1..] == [] && r4[1..] == r5 && r3[1..] == r4 && r2[1..] == r3 && r1[1..] == r2 && Rules[1..] == r1;
    KeywordPair(c, "thunder", "storm");
    KeywordPair(c, "rain", "drizzle");
    KeywordPair(c, "clear", "sun");
    var fog := ["fog", "mist", "haze"];
    assert AnyKeyword(c, fog) <==> Includes(c, fog[0]) || Includes(c, fog[1]) || Includes(c, fog[2]);
    var snow := ["snow"];
    assert AnyKeyword(c, snow) <==> Includes(c, snow[0]);
    var cloud := ["cloud"];
    assert AnyKeyword(c, cloud) <==> Includes(c, cloud[0]);
    assert FirstMatch(r5, c) == if Includes(c, "cloud") then Some(Cloudy) else None;
    assert FirstMatch(r4, c) == if Includes(c, "clear") || Includes(c, "sun") then Some(Clear) else FirstMatch(r5, c);
    assert FirstMatch(r3, c)
      == if Includes(c, "fog") || Includes(c, "mist") || Includes(c, "haze") then Some(Fog) else FirstMatch(r4, c);
    assert FirstMatch(r2, c) == if Includes(c, "rain") || Includes(c, "drizzle") then Some(Rain) else FirstMatch(r3, c);
    assert FirstMatch(r1, c) == if Includes(c, "snow") then Some(Snow) else FirstMatch(r2, c);
  }

  lemma KeywordPair(c: string, a: string, b: string)
    ensures AnyKeyword(c, [a, b]) <==> Includes(c, a) || Includes(c, b)
  {
    var kws := [a, b];
    assert kws[0] == a && kws[1] == b;
  }

  /** Only the lowercased label matters: labels equal up to case get the same picture. */
  lemma {:induction false} GetWeatherBgIgnoresCase(a: string, b: string)
    requires Lower(a) == Lower(b)
    ensures GetWeatherBg(Some(a)) == GetWeatherBg(Some(b))
    ensures GetWeatherBg(Some(a)) == GetWeatherBg(Some(Lower(a)))
  {
    LowerIdempotent(a);
  }

  /** A missing or empty label has no picture. */
  lemma GetWeatherBgEmpty()
    ensures GetWeatherBg(None) == None
    ensures GetWeatherBg(Some("")) == None
  {
  }

  /** Storm wins whenever "thunder" or "storm" occurs; snow beats rain. */
  lemma GetWeatherBgPriority(s: string)
    ensures var c := Lower(s);
      GetWeatherBg(Some(s)) == Some(Storm) <==> Includes(c, "thunder") || Includes(c, "storm")
    ensures var c := Lower(s);
      (GetWeatherBg(Some(s)) == Some(Snow))
        <==> !Includes(c, "thunder") && !Includes(c, "storm") && Includes(c, "snow")
    ensures var c := Lower(s);
      (GetWeatherBg(Some(s)) == None)
        <==> forall i :: 0 <= i < |Rules| ==> !AnyKeyword(c, Rules[i].1)
  {
    var c := Lower(s);
    FirstMatchNone(Rules, c);
  }

  lemma {:induction false} FirstMatchNone(rules: seq<(Background, seq<string>)>, c: string)
    ensures FirstMatch(rules, c) == None <==> forall i :: 0 <= i < |rules| ==> !AnyKeyword(c, rules[i].1)
  {
    if rules != [] {
      FirstMatchNone(rules[1..], c);
      assert forall i :: 1 <= i < |rules| ==> rules[i] == rules[1..][i - 1];
    }
  }

  // Sample labels: "Thunderstorm" is a storm, snow beats rain, "Partly cloudy" is cloudy,
  // "Sunny" is clear and a label without a keyword has no picture.

  lemma ThunderstormIsStorm()
    ensures GetWeatherBg(Some("Thunderstorm")) == Some(Storm)
  {
    assert Lower("Thunderstorm") == "thunderstorm";
    IncludesAt("thunderstorm", "thunder", 0);
  }

  lemma SnowBeatsRain()
    ensures GetWeatherBg(Some("Snow and rain")) == Some(Snow)
  {
    var c := "snow and rain";
    assert Lower("Snow and rain") == c;
    NotIncludesChar(c, "thunder", 0);
    NotIncludesChar(c, "storm", 1);
    IncludesAt(c, "snow", 0);
  }

  lemma PartlyCloudyIsCloudy()
    ensures GetWeatherBg(Some("Partly cloudy")) == Some(Cloudy)
  {
    assert Lower("Partly cloudy") == "partly cloudy";
    PartlyCloudyKeywords();
  }

  lemma PartlyCloudyKeywords()
    ensures Classify("partly cloudy") == Some(Cloudy)
  {
    var c := "partly cloudy";
    PartlyCloudyNoPrecipitation();
    PartlyCloudyNoFogOrSun();
    assert c[7..12] == "cloud";
    IncludesAt(c, "cloud", 7);
  }

  lemma PartlyCloudyNoPrecipitation()
    ensures var c := "partly cloudy";
      && !Includes(c, "thunder") && !Includes(c, "storm") && !Includes(c, "snow")
      && !Includes(c, "rain") && !Includes(c, "drizzle")
  {
    var c := "partly cloudy";
    NotIncludesChar(c, "thunder", 1);
    NotIncludesChar(c, "storm", 0);
    NotIncludesChar(c, "snow", 0);
    NotIncludesChar(c, "rain", 2);
    NotIncludesChar(c, "drizzle", 2);
  }

  lemma PartlyCloudyNoFogOrSun()
    ensures var c := "partly cloudy";
      && !Includes(c, "fog") && !Includes(c, "mist") && !Includes(c, "haze")
      && !Includes(c, "clear") && !Includes(c, "sun")
  {
    var c := "partly cloudy";
    NotIncludesChar(c, "fog", 0);
    NotIncludesChar(c, "mist", 0);
    NotIncludesChar(c, "haze", 0);
    NotIncludesChar(c, "clear", 2);
    NotIncludesChar(c, "sun", 0);
  }

  lemma SunnyIsClear()
    ensures GetWeatherBg(Some("Sunny")) == Some(Clear)
  {
    var c := "sunny";
    assert Lower("Sunny") == c;
    NotIncludesChar(c, "thunder", 0);
    NotIncludesChar(c, "storm", 1);
    NotIncludesChar(c, "snow", 2);
    NotIncludesChar(c, "rain", 0);
    NotIncludesChar(c, "drizzle", 0);
    NotIncludesChar(c, "fog", 0);
    NotIncludesChar(c, "mist", 0);
    NotIncludesChar(c, "haze", 0);
    NotIncludesChar(c, "clear", 0);
    IncludesAt(c, "sun", 0);
  }

  lemma WindyHasNoPicture()
    ensures GetWeatherBg(Some("Windy")) == None
  {
    var c := "windy";
    assert Lower("Windy") == c;
    NotIncludesChar(c, "thunder", 0);
    NotIncludesChar(c, "storm", 0);
    NotIncludesChar(c, "snow", 0);
    NotIncludesChar(c, "rain", 0);
    NotIncludesChar(c, "drizzle", 3);
    NotIncludesChar(c, "fog", 0);
    NotIncludesChar(c, "mist", 0);
    NotIncludesChar(c, "haze", 0);
    NotIncludesChar(c, "clear", 0);
    NotIncludesChar(c, "sun", 0);
    NotIncludesChar(c, "cloud", 0);
  }

  /** A label that contains a keyword, up to case, at a known position has a picture. */
  lemma KeywordGivesPicture(s: string, keyword: string, i: nat)
    requires i + |keyword| <= |s| && forall k :: 0 <= k < |keyword| ==> LowerChar(s[i + k]) == keyword[k]
    requires keyword in ["thunder", "storm", "snow", "rain", "drizzle", "fog", "mist", "haze", "clear", "sun", "cloud"]
    ensures GetWeatherBg(Some(s)) != None
  {
    var c := Lower(s);
    assert c[i..i + |keyword|] == keyword;
    IncludesAt(c, keyword, i);
  }

  /** Each of the nine labels of the second generation's client has a picture. */
  lemma LabelHasBackground(text: string)
    requires text in OpenMeteo.Labels
    ensures GetWeatherBg(Some(text)) != None
  {
    if text == "Clear" {
      KeywordGivesPicture(text, "clear", 0);
    } else if text == "Partly cloudy" {
      KeywordGivesPicture(text, "cloud", 7);
    } else if text == "Fog" {
      KeywordGivesPicture(text, "fog", 0);
    } else if text == "Drizzle" {
      KeywordGivesPicture(text, "drizzle", 0);
    } else if text == "Rain" || text == "Rain showers" {
      KeywordGivesPicture(text, "rain", 0);
    } else if text == "Snow" {
      KeywordGivesPicture(text, "snow", 0);
    } else if text == "Thunderstorm" {
      KeywordGivesPicture(text, "thunder", 0);
    } else {
      KeywordGivesPicture(text, "cloud", 0);
    }
  }

  /** Every label the second generation's client can produce has a picture. */
  lemma EveryCodeLabelHasBackground(code: int)
    ensures GetWeatherBg(Some(OpenMeteo.WeatherCodeToText(code))) != None
  {
    LabelHasBackground(OpenMeteo.WeatherCodeToText(code));
  }
}
