/**
  The classifier of NOAA forecast periods: the condition table that maps a
  condition code to a weather class and a severity rank, and the parsers that
  read the condition code, the precipitation probability and the wind speed out
  of a period's `icon` URL and `windSpeed` text.
 */
module Classifier {
  import opened Wrappers
  import opened JsText

  /** A classification: the CSS class stem and the severity rank used to pick the dominant one. */
  datatype WeatherClass = WeatherClass(cssClass: string, rank: int)

  /** The fixed table of known condition codes (noaaforecast.js, `conditions`). */
  const CONDITIONS: map<string, WeatherClass> := map[
    "skc" := WeatherClass("sunny", 0),
    "few" := WeatherClass("sunny", 0),
    "sct" := WeatherClass("sunny-overcast", 10),
    "bkn" := WeatherClass("sunny-overcast", 10),
    "ovc" := WeatherClass("cloudy", 20),
    "wind_skc" := WeatherClass("windy", 30),
    "wind_few" := WeatherClass("windy", 30),
    "wind_sct" := WeatherClass("cloudy-windy", 40),
    "wind_bkn" := WeatherClass("cloudy-windy", 40),
    "wind_ovc" := WeatherClass("cloudy-windy", 40),
    "snow" := WeatherClass("snow", 50),
    "rain_snow" := WeatherClass("rain-mix", 60),
    "rain_sleet" := WeatherClass("sleet", 60),
    "snow_sleet" := WeatherClass("sleet", 60),
    "fzra" := WeatherClass("rain-mix", 60),
    "rain_fzra" := WeatherClass("rain-mix", 60),
    "snow_fzra" := WeatherClass("rain-mix", 60),
    "sleet" := WeatherClass("sleet", 60),
    "rain" := WeatherClass("rain", 50),
    "rain_showers" := WeatherClass("showers", 45),
    "rain_showers_hi" := WeatherClass("showers", 45),
    "tsra" := WeatherClass("thunderstorm", 60),
    "tsra_sct" := WeatherClass("thunderstorm", 60),
    "tsra_hi" := WeatherClass("thunderstorm", 60),
    "tornado" := WeatherClass("wi-tornado", 1000),
    "hurricane" := WeatherClass("wi-hurricane-warning", 900),
    "tropical_storm" := WeatherClass("wi-hurricane", 800),
    "dust" := WeatherClass("wi-dust", 200),
    "smoke" := WeatherClass("wi-smoke", 300),
    "haze" := WeatherClass("wi-haze", 65),
    "hot" := WeatherClass("wi-hot", 65),
    "cold" := WeatherClass("wi-cold", 65),
    "blizzard" := WeatherClass("snow-wind", 75),
    "fog" := WeatherClass("fog", 55)
  ]

  /** `conditions[code]`: the classification of a condition code, None when the code is unknown. */
  function Classify(code: string): (c: Option<WeatherClass>)
    ensures c.Some? <==> code in CONDITIONS
  {
    if code in CONDITIONS then Some(CONDITIONS[code]) else None
  }

  /** The last `/`-segment of an icon URL, cut before the first `?`. */
  function ConditionSegment(icon: string): (seg: string)
    ensures seg <= Last(Split(icon, '/'))
    ensures '/' !in seg && '?' !in seg
  {
    var last := Last(Split(icon, '/'));
    SplitPieces(icon, '/');
    SplitPieces(last, '?');
    SplitFirstPrefix(last, '?');
    Split(last, '?')[0]
  }

  /** The comma-separated fields of the condition segment: the code, then optionally a probability. */
  function ConditionFields(icon: string): (fields: seq<string>)
    ensures |fields| >= 1
  {
    Split(ConditionSegment(icon), ',')
  }

  /** `parseWeatherIcon`: the classification of the first field of the condition segment. */
  function ParseWeatherIcon(icon: string): (c: Option<WeatherClass>)
    ensures c.Some? <==> ConditionFields(icon)[0] in CONDITIONS
    ensures c.Some? ==> c.value in CONDITIONS.Values
  {
    Classify(ConditionFields(icon)[0])
  }

  /** `parsePrecipProbability`: the second field of the condition segment read as an integer, else 0. */
  function ParsePrecipProbability(icon: string): (p: int)
    ensures p != 0 ==> ',' in ConditionSegment(icon)
  {
    var fields := ConditionFields(icon);
    SplitPieces(ConditionSegment(icon), ',');
    if |fields| > 1 then ParseInt(fields[1]) else 0
  }

  /** `parseWindSpeed`: 0 for a null or empty text, else the first space-separated token read as an integer. */
  function ParseWindSpeed(windSpeed: Option<string>): (speed: int)
    ensures windSpeed.None? || windSpeed.value == [] ==> speed == 0
    ensures speed != 0 ==> windSpeed.Some? && StartsWithNumber(windSpeed.value)
  {
    if windSpeed.None? || |windSpeed.value| < 1 then 0
    else
      var token := Split(windSpeed.value, ' ')[0];
      SplitFirstPrefix(windSpeed.value, ' ');
      assert |token| > 1 ==> token[..2] == windSpeed.value[..2];
      ParseInt(token)
  }

  /** An icon URL as the forecast service writes it: `<prefix>/<code>[,<probability>][?<query>]`. */
  function IconUrl(prefix: string, code: string, probability: Option<int>, query: Option<string>): string {
    prefix + "/" + code
      + (if probability.Some? then "," + IntToString(probability.value) else "")
      + (if query.Some? then "?" + query.value else "")
  }

  /** The condition segment of `<prefix>/<seg>[?<query>]` is `seg`, when `seg` holds neither separator. */
  lemma SegmentBeforeQuery(prefix: string, seg: string, query: Option<string>)
    requires '/' !in seg && '?' !in seg
    requires query.Some? ==> '/' !in query.value
    ensures ConditionSegment(prefix + ['/'] + seg + (if query.Some? then ['?'] + query.value else [])) == seg
  {
    var q := if query.Some? then ['?'] + query.value else [];
    assert '/' !in seg + q;
    assert prefix + ['/'] + seg + q == prefix + ['/'] + (seg + q);
    SplitLastAfter(prefix, seg + q, '/');
    if query.Some? {
      assert seg + q == seg + ['?'] + query.value;
      SplitAfterFirst(seg, query.value, '?');
    } else {
      assert seg + q == seg;
      SplitWithout(seg, '?');
    }
  }

  /** The condition segment of a formatted icon URL is the code and the probability field. */
  lemma ConditionSegmentOf(prefix: string, code: string, probability: Option<int>, query: Option<string>)
    requires '/' !in code && '?' !in code && ',' !in code
    requires query.Some? ==> '/' !in query.value
    ensures ConditionSegment(IconUrl(prefix, code, probability, query))
         == code + (if probability.Some? then "," + IntToString(probability.value) else "")
  {
    var seg := code + (if probability.Some? then "," + IntToString(probability.value) else "");
    if probability.Some? {
      IntToStringChars(probability.value, '/');
      IntToStringChars(probability.value, '?');
    }
    assert '/' !in seg && '?' !in seg;
    assert IconUrl(prefix, code, probability, query)
        == prefix + ['/'] + seg + (if query.Some? then ['?'] + query.value else []);
    SegmentBeforeQuery(prefix, seg, query);
  }

  /** The fields of a formatted icon URL: the code, then the probability if there is one. */
  lemma ConditionFieldsOf(prefix: string, code: string, probability: Option<int>, query: Option<string>)
    requires '/' !in code && '?' !in code && ',' !in code
    requires query.Some? ==> '/' !in query.value
    ensures ConditionFields(IconUrl(prefix, code, probability, query))
         == if probability.Some? then [code, IntToString(probability.value)] else [code]
  {
    var icon := IconUrl(prefix, code, probability, query);
    ConditionSegmentOf(prefix, code, probability, query);
    var seg := ConditionSegment(icon);
    if probability.Some? {
      var digits := IntToString(probability.value);
      IntToStringChars(probability.value, ',');
      assert seg == code + [','] + digits;
      SplitAfterFirst(code, digits, ',');
      SplitWithout(digits, ',');
    } else {
      assert seg == code;
      SplitWithout(code, ',');
    }
  }

  /**
    Reading a formatted icon URL back: the classification is the table entry of
    its code, and the precipitation probability is the number after the comma,
    or 0 when there is none.
   */
  lemma IconUrlRoundTrip(prefix: string, code: string, probability: Option<int>, query: Option<string>)
    requires '/' !in code && '?' !in code && ',' !in code
    requires query.Some? ==> '/' !in query.value
    ensures ParseWeatherIcon(IconUrl(prefix, code, probability, query)) == Classify(code)
    ensures ParsePrecipProbability(IconUrl(prefix, code, probability, query))
         == (if probability.Some? then probability.value else 0)
  {
    ConditionFieldsOf(prefix, code, probability, query);
    if probability.Some? {
      ParseIntFormatted(probability.value, "");
      assert IntToString(probability.value) + "" == IntToString(probability.value);
    }
  }

  /** A wind text such as "10 mph" reads back as its number; a null or empty text reads as 0. */
  lemma WindSpeedRoundTrip(speed: int, unit: string)
    ensures ParseWindSpeed(Some(IntToString(speed) + " " + unit)) == speed
    ensures ParseWindSpeed(None) == 0 && ParseWindSpeed(Some("")) == 0
  {
    var digits := IntToString(speed);
    IntToStringChars(speed, ' ');
    assert digits + " " + unit == digits + [' '] + unit;
    SplitAfterFirst(digits, unit, ' ');
    ParseIntFormatted(speed, "");
    assert digits + "" == digits;
  }

  /** Unknown codes are not classified, and every classification's rank lies between 0 and 1000. */
  lemma ClassifyRanks(code: string)
    ensures code !in CONDITIONS ==> Classify(code) == None
    ensures Classify(code).Some? ==> 0 <= Classify(code).value.rank <= 1000
  {
  }

  /** Clear sky ("skc", "few") is exactly the rank-0 class: the least severe. */
  lemma ClearSkyIsLeastSevere(code: string)
    ensures Classify(code).Some? && Classify(code).value.rank == 0 <==> code == "skc" || code == "few"
  {
  }

  /**
    The extreme classes sit above every other: tornado (1000) over hurricane (900)
    over tropical storm (800), and every other known code ranks at most 300.
   */
  lemma ExtremesAreMostSevere(code: string)
    requires code in CONDITIONS
    ensures CONDITIONS["tornado"].rank > CONDITIONS["hurricane"].rank > CONDITIONS["tropical_storm"].rank
    ensures code != "tornado" && code != "hurricane" && code != "tropical_storm"
            ==> CONDITIONS[code].rank <= 300
    ensures Classify(code).value.rank == 1000 <==> code == "tornado"
  {
  }
}
