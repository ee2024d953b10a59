/**
  The period aligner (noaaforecast.js, `alignPeriods`): one forward pass over the
  forecast's periods, which alternate between night and day, that pairs each
  nighttime period with the daytime period right after it into one day record.

  The pass is specified by `RunFrom`, the state (records emitted so far, record
  still open) after each prefix of the input; `AlignPeriods` is the loop of the
  source, proved to compute `Align`. The pass is stated for any `DayBuilder`
  (how a night opens a record and a day closes it) so that its lemmas speak of
  the pairing alone; `NoaaBuilder` is the source's, with the merge rules of
  `OpenDay` and `CloseDay`. The lemmas then say what `Align` is without the
  accumulator: the records of the adjacent (night, day) pairs, in order.
 */
module Aligner {
  import opened Wrappers
  import opened JsText
  import opened Classifier

  /** One forecast period as the forecast service delivers it. */
  datatype Period = Period(
    isDaytime: bool,
    temperature: int,
    windSpeed: Option<string>,  // None: a null windSpeed
    windDirection: string,
    icon: string,
    endTime: string)

  datatype Wind = Wind(speed: int, direction: string)

  /** The merged record of one day (the `current` object of the source). */
  datatype DayRecord = DayRecord(
    minTemp: int,
    maxTemp: int,
    precip: int,
    wind: Wind,
    dayText: string,
    weatherIcon: Option<WeatherClass>)

  /** `Math.min` and `Math.max` on two numbers (noaaforecast.js:164-166, :173). */
  function Min(a: int, b: int): int { if a <= b then a else b }
  function Max(a: int, b: int): int { if a >= b then a else b }

  /** A period's wind object: its parsed speed and its direction (noaaforecast.js:168-171, :196-197). */
  function PeriodWind(p: Period): Wind {
    Wind(ParseWindSpeed(p.windSpeed), p.windDirection)
  }

  /**
    The record a nighttime period opens; `weekday` stands for `getDayFromTime`,
    the short weekday name of a period's end time.
   */
  function OpenDay(p: Period, weekday: string -> string): DayRecord {
    DayRecord(p.temperature, p.temperature, ParsePrecipProbability(p.icon), PeriodWind(p),
              weekday(p.endTime), ParseWeatherIcon(p.icon))
  }

  /** The source's wind rule: the candidate wins when its speed equals the larger of the two. */
  function PrevailingWind(current: Wind, candidate: Wind): (w: Wind)
    ensures w.speed == Max(current.speed, candidate.speed)
    ensures w == candidate <==> candidate.speed >= current.speed || candidate == current
    ensures w == current || w == candidate
    ensures candidate.speed < current.speed ==> w == current
  {
    if Max(current.speed, candidate.speed) == candidate.speed then candidate else current
  }

  /** The source's class rule: a missing class is always replaced, a present one only by a strictly higher rank. */
  function DominantClass(current: Option<WeatherClass>, candidate: Option<WeatherClass>): (c: Option<WeatherClass>)
    ensures c == current || c == candidate
    ensures current.None? ==> c == candidate
    ensures candidate.None? ==> c == current
    ensures current.Some? && candidate.Some? ==>
              c.Some? && c.value.rank == Max(current.value.rank, candidate.value.rank) &&
              (candidate.value.rank <= current.value.rank ==> c == current)
  {
    if current.None? then candidate
    else if candidate.Some? then
      (if candidate.value.rank > current.value.rank then candidate else current)
    else current
  }

  /** The open record after a daytime period closes it. */
  function CloseDay(current: DayRecord, p: Period): (r: DayRecord)
    ensures r.minTemp <= p.temperature <= r.maxTemp
    ensures r.minTemp <= current.minTemp && current.maxTemp <= r.maxTemp
    ensures r.minTemp == current.minTemp || r.minTemp == p.temperature
    ensures r.maxTemp == current.maxTemp || r.maxTemp == p.temperature
    ensures r.precip >= current.precip && r.precip >= ParsePrecipProbability(p.icon)
    ensures r.precip == current.precip || r.precip == ParsePrecipProbability(p.icon)
    ensures r.dayText == current.dayText
  {
    current.(
      minTemp := Min(current.minTemp, p.temperature),
      maxTemp := Max(current.maxTemp, p.temperature),
      precip := Max(current.precip, ParsePrecipProbability(p.icon)),
      wind := PrevailingWind(current.wind, PeriodWind(p)),
      weatherIcon := DominantClass(current.weatherIcon, ParseWeatherIcon(p.icon)))
  }

  /** The record of a nighttime period `night` closed by the daytime period `day` right after it. */
  function PairDay(night: Period, day: Period, weekday: string -> string): DayRecord {
    CloseDay(OpenDay(night, weekday), day)
  }

  /** How the pass builds records: a nighttime period opens one, a daytime period closes the open one. */
  datatype DayBuilder = DayBuilder(open: Period -> DayRecord, close: (DayRecord, Period) -> DayRecord)

  /** The source's builder. */
  function NoaaBuilder(weekday: string -> string): DayBuilder {
    DayBuilder(p => OpenDay(p, weekday), CloseDay)
  }

  /** Where the pass stands: the records pushed so far and the record still open (`current`). */
  datatype AlignState = AlignState(emitted: seq<DayRecord>, current: Option<DayRecord>)

  const START := AlignState([], None)

  /** One iteration of the pass. */
  function Step(s: AlignState, p: Period, b: DayBuilder): AlignState {
    if p.isDaytime && s.current.Some? then
      AlignState(s.emitted + [b.close(s.current.value, p)], None)
    else if !p.isDaytime then
      AlignState(s.emitted, Some(b.open(p)))
    else
      s
  }

  /** The state after the pass has consumed `ps`, starting from `s`. */
  function RunFrom(s: AlignState, ps: seq<Period>, b: DayBuilder): AlignState {
    if ps == [] then s
    else Step(RunFrom(s, ps[..|ps| - 1], b), Last(ps), b)
  }

  /** What the pass returns; `alignPeriods` is `Align(periods, NoaaBuilder(weekday))`. */
  function Align(ps: seq<Period>, b: DayBuilder): seq<DayRecord> {
    RunFrom(START, ps, b).emitted
  }

  /** One step of the source's pass: a day after an open night closes it, a night (re)opens one. */
  lemma NoaaStep(s: AlignState, p: Period, weekday: string -> string)
    ensures Step(s, p, NoaaBuilder(weekday))
         == if p.isDaytime && s.current.Some? then AlignState(s.emitted + [CloseDay(s.current.value, p)], None)
            else if !p.isDaytime then AlignState(s.emitted, Some(OpenDay(p, weekday)))
            else s
  {
  }

  /** `alignPeriods`: the source's loop, with `current` updated field by field. */
  method AlignPeriods(periods: seq<Period>, weekday: string -> string) returns (result: seq<DayRecord>)
    ensures result == Align(periods, NoaaBuilder(weekday))
  {
    var current: Option<DayRecord> := None;
    result := [];
    for i := 0 to |periods|
      invariant AlignState(result, current) == RunFrom(START, periods[..i], NoaaBuilder(weekday))
    {
      var period := periods[i];
      assert periods[..i + 1][..i] == periods[..i];
      NoaaStep(AlignState(result, current), period, weekday);
      if period.isDaytime && current.Some? {
        var day := current.value;
        day := day.(minTemp := Min(day.minTemp, period.temperature));
        day := day.(maxTemp := Max(day.maxTemp, period.temperature));
        day := day.(precip := Max(day.precip, ParsePrecipProbability(period.icon)));

        var wind := Wind(ParseWindSpeed(period.windSpeed), period.windDirection);
        var prevailingWindSpeed := Max(day.wind.speed, wind.speed);
        wind := if prevailingWindSpeed == wind.speed then wind else day.wind;
        day := day.(wind := wind);

        var weatherIcon := ParseWeatherIcon(period.icon);
        if day.weatherIcon.None? {
          day := day.(weatherIcon := weatherIcon);
        } else if weatherIcon.Some? {
          day := day.(weatherIcon :=
            if weatherIcon.value.rank > day.weatherIcon.value.rank then weatherIcon else day.weatherIcon);
        }

        assert day == CloseDay(current.value, period);
        result := result + [day];
        current := None;
      } else if !period.isDaytime {
        var dayText := weekday(period.endTime);
        var wind := Wind(ParseWindSpeed(period.windSpeed), period.windDirection);
        var weatherIcon := ParseWeatherIcon(period.icon);
        var precip := ParsePrecipProbability(period.icon);
        current := Some(DayRecord(period.temperature, period.temperature, precip, wind, dayText, weatherIcon));
      }
    }
    assert periods[..|periods|] == periods;
  }

  // ---------------------------------------------------------------------------
  // The record of one (night, day) pair

  /**
    A day record is the night and day periods merged: the lower and the higher
    temperature, the higher precipitation probability, the faster wind (the
    daytime one on a tie), and the night's weekday.
   */
  lemma PairDayFields(night: Period, day: Period, weekday: string -> string)
    ensures var r := PairDay(night, day, weekday);
      && r.minTemp == Min(night.temperature, day.temperature)
      && r.maxTemp == Max(night.temperature, day.temperature)
      && r.minTemp <= r.maxTemp
      && r.precip == Max(ParsePrecipProbability(night.icon), ParsePrecipProbability(day.icon))
      && r.wind.speed == Max(ParseWindSpeed(night.windSpeed), ParseWindSpeed(day.windSpeed))
      && (ParseWindSpeed(day.windSpeed) >= ParseWindSpeed(night.windSpeed) ==> r.wind == PeriodWind(day))
      && (ParseWindSpeed(day.windSpeed) < ParseWindSpeed(night.windSpeed) ==> r.wind == PeriodWind(night))
      && r.dayText == weekday(night.endTime)
  {
  }

  /**
    The class of a day record: the more severe of the two, the night's on a tie,
    the day's when the night has none, the night's when the day has none.
   */
  lemma PairDayClass(night: Period, day: Period, weekday: string -> string)
    ensures var r := PairDay(night, day, weekday).weatherIcon;
      var n := ParseWeatherIcon(night.icon);
      var d := ParseWeatherIcon(day.icon);
      && (n.None? ==> r == d)
      && (n.Some? && d.None? ==> r == n)
      && (n.Some? && d.Some? && d.value.rank <= n.value.rank ==> r == n)
      && (n.Some? && d.Some? && d.value.rank > n.value.rank ==> r == d)
  {
  }

  // ---------------------------------------------------------------------------
  // The pass as a whole

  /** The record of the pair that starts at position k. */
  function PairAt(ps: seq<Period>, k: nat, b: DayBuilder): DayRecord
    requires k + 1 < |ps|
  {
    b.close(b.open(ps[k]), ps[k + 1])
  }

  /** The source's builder makes a pair into `PairDay`. */
  lemma NoaaPairAt(ps: seq<Period>, k: nat, weekday: string -> string)
    requires k + 1 < |ps|
    ensures PairAt(ps, k, NoaaBuilder(weekday)) == PairDay(ps[k], ps[k + 1], weekday)
  {
  }

  /** What stays open after a prefix: the record of its last period, if that was a night. */
  lemma RunCurrent(s: AlignState, ps: seq<Period>, b: DayBuilder)
    requires ps != []
    ensures RunFrom(s, ps, b).current == if Last(ps).isDaytime then None else Some(b.open(Last(ps)))
  {
  }

  /** Running over `a + c` is running over `a`, then over `c`. */
  lemma {:induction false} RunFromAppend(s: AlignState, a: seq<Period>, c: seq<Period>, b: DayBuilder)
    ensures RunFrom(s, a + c, b) == RunFrom(RunFrom(s, a, b), c, b)
    decreases |c|
  {
    if c == [] {
      assert a + c == a;
    } else {
      var c' := c[..|c| - 1];
      assert (a + c)[..|a + c| - 1] == a + c';
      RunFromAppend(s, a, c', b);
    }
  }

  /** With nothing open, the records already pushed only prefix what the rest of the pass pushes. */
  lemma {:induction false} RunFromClosed(done: seq<DayRecord>, ps: seq<Period>, b: DayBuilder)
    ensures RunFrom(AlignState(done, None), ps, b) == AlignState(done + Align(ps, b), RunFrom(START, ps, b).current)
  {
    if ps == [] {
      assert done + [] == done;
    } else {
      RunFromClosed(done, ps[..|ps| - 1], b);
    }
  }

  /** Appending a period pushes a record exactly when it is a day right after a night. */
  lemma AlignSnoc(ps: seq<Period>, p: Period, b: DayBuilder)
    ensures Align(ps + [p], b)
         == Align(ps, b) + if p.isDaytime && ps != [] && !Last(ps).isDaytime then [b.close(b.open(Last(ps)), p)] else []
  {
    assert (ps + [p])[..|ps|] == ps;
    if ps != [] {
      RunCurrent(START, ps, b);
    }
  }

  /** Records pushed after a completed day do not depend on what came before it. */
  lemma AlignAfterDay(a: seq<Period>, c: seq<Period>, b: DayBuilder)
    requires a != [] && Last(a).isDaytime
    ensures Align(a + c, b) == Align(a, b) + Align(c, b)
  {
    RunFromAppend(START, a, c, b);
    RunCurrent(START, a, b);
    RunFromClosed(Align(a, b), c, b);
  }

  /** A single period pushes nothing. */
  lemma AlignSingle(p: Period, b: DayBuilder)
    ensures Align([p], b) == []
  {
    assert [p][..0] == [];
    assert RunFrom(START, [p], b) == Step(RunFrom(START, [], b), p, b);
  }

  /** A leading daytime period, with no night open before it, is dropped. */
  lemma LeadingDayDropped(d: Period, ps: seq<Period>, b: DayBuilder)
    requires d.isDaytime
    ensures Align([d] + ps, b) == Align(ps, b)
  {
    RunFromAppend(START, [d], ps, b);
    assert RunFrom(START, [d], b) == START by {
      assert [d][..0] == [];
    }
  }

  /** A trailing nighttime period is never pushed. */
  lemma TrailingNightDropped(ps: seq<Period>, n: Period, b: DayBuilder)
    requires !n.isDaytime
    ensures Align(ps + [n], b) == Align(ps, b)
  {
    AlignSnoc(ps, n, b);
  }

  /** Of two consecutive nighttime periods only the second counts: the first record is overwritten. */
  lemma SecondNightWins(a: seq<Period>, n1: Period, n2: Period, c: seq<Period>, b: DayBuilder)
    requires !n1.isDaytime && !n2.isDaytime
    ensures Align(a + [n1, n2] + c, b) == Align(a + [n2] + c, b)
  {
    var s := RunFrom(START, a, b);
    RunFromAppend(START, a, [n1, n2], b);
    RunFromAppend(START, a, [n2], b);
    assert [n1, n2][..1] == [n1];
    assert [n1][..0] == [] && [n2][..0] == [];
    assert RunFrom(s, [n1, n2], b) == RunFrom(s, [n2], b);
    RunFromAppend(START, a + [n1, n2], c, b);
    RunFromAppend(START, a + [n2], c, b);
  }

  /** A leading (night, day) pair pushes its record before anything else. */
  lemma AlignLeadingPair(n: Period, d: Period, rest: seq<Period>, b: DayBuilder)
    requires !n.isDaytime && d.isDaytime
    ensures Align([n, d] + rest, b) == [b.close(b.open(n), d)] + Align(rest, b)
  {
    assert [n, d] == [n] + [d];
    AlignSnoc([n], d, b);
    AlignSingle(n, b);
    AlignAfterDay([n, d], rest, b);
  }

  /**
    Reference definition: the records of the adjacent (night, day) pairs of the
    input, read left to right; a pair's periods are not reused.
   */
  function Pairs(ps: seq<Period>, b: DayBuilder): seq<DayRecord>
    decreases |ps|
  {
    if |ps| < 2 then []
    else if !ps[0].isDaytime && ps[1].isDaytime then [b.close(b.open(ps[0]), ps[1])] + Pairs(ps[2..], b)
    else Pairs(ps[1..], b)
  }

  /** The pass emits exactly the records of the adjacent (night, day) pairs, in input order. */
  lemma {:induction false} AlignIsPairs(ps: seq<Period>, b: DayBuilder)
    ensures Align(ps, b) == Pairs(ps, b)
    decreases |ps|
  {
    if |ps| == 0 {
    } else if |ps| == 1 {
      assert ps == [ps[0]];
      AlignSingle(ps[0], b);
    } else if !ps[0].isDaytime && ps[1].isDaytime {
      assert ps == [ps[0], ps[1]] + ps[2..];
      AlignLeadingPair(ps[0], ps[1], ps[2..], b);
      AlignIsPairs(ps[2..], b);
    } else if ps[0].isDaytime {
      assert ps == [ps[0]] + ps[1..];
      LeadingDayDropped(ps[0], ps[1..], b);
      AlignIsPairs(ps[1..], b);
    } else {
      assert ps == [] + [ps[0], ps[1]] + ps[2..];
      assert ps[1..] == [] + [ps[1]] + ps[2..];
      SecondNightWins([], ps[0], ps[1], ps[2..], b);
      AlignIsPairs(ps[1..], b);
    }
  }

  /** A nighttime period at position k is immediately followed by a daytime one. */
  predicate NightDayAt(ps: seq<Period>, k: nat) {
    k + 1 < |ps| && !ps[k].isDaytime && ps[k + 1].isDaytime
  }

  /** The positions at which an adjacent (night, day) pair starts. */
  function NightDayStarts(ps: seq<Period>): set<nat> {
    set k: nat | k < |ps| && NightDayAt(ps, k)
  }

  /** Appending a period adds at most the pair that ends with it. */
  lemma NightDayStartsSnoc(qs: seq<Period>, p: Period)
    ensures NightDayStarts(qs + [p])
         == NightDayStarts(qs) + if qs != [] && !Last(qs).isDaytime && p.isDaytime then {|qs| - 1} else {}
    ensures qs != [] ==> |qs| - 1 !in NightDayStarts(qs)
  {
    var ps := qs + [p];
    assert forall k: nat :: k + 1 < |qs| ==> (NightDayAt(ps, k) <==> NightDayAt(qs, k));
    if qs != [] && !Last(qs).isDaytime && p.isDaytime {
      assert NightDayAt(ps, |qs| - 1);
    }
  }

  /** The number of records equals the number of adjacent (night, day) pairs. */
  lemma {:induction false} AlignCount(ps: seq<Period>, b: DayBuilder)
    ensures |Align(ps, b)| == |NightDayStarts(ps)|
    decreases |ps|
  {
    if ps != [] {
      var qs := ps[..|ps| - 1];
      var p := Last(ps);
      assert ps == qs + [p];
      AlignSnoc(qs, p, b);
      AlignCount(qs, b);
      NightDayStartsSnoc(qs, p);
    }
  }

  /** The pairs of a prefix stay pairs, with the same record, once a period is appended. */
  lemma PairsOfPrefix(qs: seq<Period>, p: Period, b: DayBuilder)
    ensures forall k: nat :: k in NightDayStarts(qs) ==>
              k in NightDayStarts(qs + [p]) && PairAt(qs + [p], k, b) == PairAt(qs, k, b)
  {
    NightDayStartsSnoc(qs, p);
    forall k: nat | k in NightDayStarts(qs)
      ensures PairAt(qs + [p], k, b) == PairAt(qs, k, b)
    {
      assert (qs + [p])[k] == qs[k] && (qs + [p])[k + 1] == qs[k + 1];
    }
  }

  /** Every record comes from an adjacent (night, day) pair. */
  lemma {:induction false} AlignSound(ps: seq<Period>, b: DayBuilder)
    ensures forall r :: r in Align(ps, b) ==> exists k: nat :: k in NightDayStarts(ps) && r == PairAt(ps, k, b)
    decreases |ps|
  {
    if ps != [] {
      var qs := ps[..|ps| - 1];
      var p := Last(ps);
      assert ps == qs + [p];
      AlignSound(qs, b);
      PairsOfPrefix(qs, p, b);
      AlignSnoc(qs, p, b);
      if p.isDaytime && qs != [] && !Last(qs).isDaytime {
        var k := |qs| - 1;
        NightDayStartsSnoc(qs, p);
        assert k in NightDayStarts(ps);
        assert Align(ps, b) == Align(qs, b) + [PairAt(ps, k, b)];
      } else {
        assert Align(ps, b) == Align(qs, b);
      }
    }
  }

  /** Every adjacent (night, day) pair yields a record. */
  lemma {:induction false} AlignComplete(ps: seq<Period>, b: DayBuilder)
    ensures forall k: nat :: k in NightDayStarts(ps) ==> PairAt(ps, k, b) in Align(ps, b)
    decreases |ps|
  {
    if ps != [] {
      var qs := ps[..|ps| - 1];
      var p := Last(ps);
      assert ps == qs + [p];
      AlignSnoc(qs, p, b);
      AlignComplete(qs, b);
      PairsOfPrefix(qs, p, b);
      NightDayStartsSnoc(qs, p);
    }
  }

  /** Every record's temperatures are those of its two periods, the lower one first. */
  lemma AlignTemperatures(ps: seq<Period>, weekday: string -> string)
    ensures forall r :: r in Align(ps, NoaaBuilder(weekday)) ==>
              r.minTemp <= r.maxTemp &&
              (exists i :: 0 <= i < |ps| && ps[i].temperature == r.minTemp) &&
              (exists i :: 0 <= i < |ps| && ps[i].temperature == r.maxTemp)
  {
    var b := NoaaBuilder(weekday);
    AlignSound(ps, b);
    forall r | r in Align(ps, b)
      ensures r.minTemp <= r.maxTemp
      ensures exists i :: 0 <= i < |ps| && ps[i].temperature == r.minTemp
      ensures exists i :: 0 <= i < |ps| && ps[i].temperature == r.maxTemp
    {
      var k: nat :| k in NightDayStarts(ps) && r == PairAt(ps, k, b);
      NoaaPairAt(ps, k, weekday);
      PairDayFields(ps[k], ps[k + 1], weekday);
      assert ps[k].temperature == r.minTemp || ps[k + 1].temperature == r.minTemp;
      assert ps[k].temperature == r.maxTemp || ps[k + 1].temperature == r.maxTemp;
    }
  }
}

/**
  Worked examples of the aligner on concrete forecasts, with icon URLs and wind
  texts in the form the forecast service sends (any URL prefix, any query, any
  speed unit).
 */
module AlignerExamples {
  import opened Wrappers
  import opened JsText
  import opened Classifier
  import opened Aligner

  /** A wind text such as "10 mph". */
  function WindText(speed: int, unit: string): Option<string> {
    Some(IntToString(speed) + " " + unit)
  }

  lemma ClassifyOvercastAndClear()
    ensures Classify("ovc") == Some(WeatherClass("cloudy", 20))
    ensures Classify("skc") == Some(WeatherClass("sunny", 0))
  {
  }

  lemma OvercastReads(base: string, query: Option<string>)
    requires query.Some? ==> '/' !in query.value
    ensures ParseWeatherIcon(IconUrl(base, "ovc", None, query)) == Some(WeatherClass("cloudy", 20))
    ensures ParsePrecipProbability(IconUrl(base, "ovc", None, query)) == 0
  {
    IconUrlRoundTrip(base, "ovc", None, query);
    ClassifyOvercastAndClear();
  }

  lemma ClearReads(base: string, query: Option<string>)
    requires query.Some? ==> '/' !in query.value
    ensures ParseWeatherIcon(IconUrl(base, "skc", None, query)) == Some(WeatherClass("sunny", 0))
    ensures ParsePrecipProbability(IconUrl(base, "skc", None, query)) == 0
  {
    IconUrlRoundTrip(base, "skc", None, query);
    ClassifyOvercastAndClear();
  }

  /**
    An overcast night at 40 with a 5-unit north wind, then a clear day at 55 with
    a 10-unit south wind, make one day: 40 to 55, no precipitation, the day's
    faster wind, and the night's class, "cloudy" (rank 20), which outranks "sunny".
   */
  lemma OvercastNightClearDay(weekday: string -> string, base: string, query: Option<string>, unit: string)
    requires query.Some? ==> '/' !in query.value
    ensures Align([Period(false, 40, WindText(5, unit), "N", IconUrl(base, "ovc", None, query), "T0"),
                   Period(true, 55, WindText(10, unit), "S", IconUrl(base, "skc", None, query), "T1")],
                  NoaaBuilder(weekday))
         == [DayRecord(40, 55, 0, Wind(10, "S"), weekday("T0"), Some(WeatherClass("cloudy", 20)))]
  {
    var night := Period(false, 40, WindText(5, unit), "N", IconUrl(base, "ovc", None, query), "T0");
    var day := Period(true, 55, WindText(10, unit), "S", IconUrl(base, "skc", None, query), "T1");
    OvercastReads(base, query);
    ClearReads(base, query);
    WindSpeedRoundTrip(5, unit);
    WindSpeedRoundTrip(10, unit);
    AlignLeadingPair(night, day, [], NoaaBuilder(weekday));
    assert [night, day] + [] == [night, day];
  }

  lemma ClassifyThunderstormAndRainSnow()
    ensures Classify("tsra") == Some(WeatherClass("thunderstorm", 60))
    ensures Classify("rain_snow") == Some(WeatherClass("rain-mix", 60))
  {
  }

  /** A service URL for a code of the table reads back as that code's class. */
  lemma CodeReads(base: string, code: string, cls: WeatherClass, query: Option<string>)
    requires '/' !in code && '?' !in code && ',' !in code
    requires query.Some? ==> '/' !in query.value
    requires Classify(code) == Some(cls)
    ensures ParseWeatherIcon(IconUrl(base, code, None, query)) == Some(cls)
  {
    IconUrlRoundTrip(base, code, None, query);
  }

  /** Service URLs for "tsra" and "rain_snow" read as two different classes of rank 60. */
  lemma ThunderstormAndRainSnowRead(base: string, query: Option<string>)
    requires query.Some? ==> '/' !in query.value
    ensures ParseWeatherIcon(IconUrl(base, "tsra", None, query)) == Some(WeatherClass("thunderstorm", 60))
    ensures ParseWeatherIcon(IconUrl(base, "rain_snow", None, query)) == Some(WeatherClass("rain-mix", 60))
  {
    ClassifyThunderstormAndRainSnow();
    CodeReads(base, "tsra", WeatherClass("thunderstorm", 60), query);
    CodeReads(base, "rain_snow", WeatherClass("rain-mix", 60), query);
  }

  /**
    With equal wind speeds the daytime wind is kept; with classes of equal rank,
    a thunderstorm night and a rain-and-snow day (both 60), the night's.
   */
  lemma TiesKeepDayWindAndNightClass(weekday: string -> string, base: string, query: Option<string>, unit: string)
    requires query.Some? ==> '/' !in query.value
    ensures var r := PairDay(Period(false, 50, WindText(10, unit), "N", IconUrl(base, "tsra", None, query), "T0"),
                             Period(true, 60, WindText(10, unit), "S", IconUrl(base, "rain_snow", None, query), "T1"),
                             weekday);
      r.wind == Wind(10, "S") && r.weatherIcon == Some(WeatherClass("thunderstorm", 60))
  {
    var night := Period(false, 50, WindText(10, unit), "N", IconUrl(base, "tsra", None, query), "T0");
    var day := Period(true, 60, WindText(10, unit), "S", IconUrl(base, "rain_snow", None, query), "T1");
    ThunderstormAndRainSnowRead(base, query);
    WindSpeedRoundTrip(10, unit);
    PairDayFields(night, day, weekday);
    PairDayClass(night, day, weekday);
  }
}
