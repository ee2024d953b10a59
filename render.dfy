/**
  The arithmetic of the forecast table (noaaforecast.js, `renderWeatherForecast`
  and `renderForecastRow`): the window of displayed days, the temperature range
  shared by its rows, and each row's bar geometry (left spacer, bar, right
  spacer, in percent of the row), with the row's fade class and icon class.
  Temperatures are whole degrees and `tempDecimalPlaces` is 0.
 */
module ForecastRender {
  import opened Wrappers
  import opened JsText
  import opened Classifier
  import opened Aligner

  function Pow2(n: nat): (r: nat)
    ensures r >= 1
  {
    if n == 0 then 1 else 2 * Pow2(n - 1)
  }

  /** `Number.MAX_VALUE`, the largest finite double, (2^53 - 1) * 2^971, an integer. */
  const MAX_VALUE: int := (Pow2(53) - 1) * Pow2(971)

  function Pow10(n: nat): (r: nat)
    ensures r >= 1
  {
    if n == 0 then 1 else 10 * Pow10(n - 1)
  }

  /** `config.tempDecimalPlaces` (its default). */
  const TEMP_DECIMAL_PLACES: nat := 0

  /** `Math.round`: the nearest integer, halves rounded up. */
  function JsRound(x: real): (r: int)
    ensures r as real - 0.5 <= x < r as real + 0.5
  {
    (x + 0.5).Floor
  }

  /** `Math.round` leaves whole numbers unchanged. */
  lemma JsRoundWhole(n: int)
    ensures JsRound(n as real) == n
  {
    var r := JsRound(n as real);
    assert -0.5 < (r - n) as real <= 0.5;
  }

  /**
    The scheme of `roundTemp`: scale, `Math.round`, scale back. The result is
    within half a `1 / scalar` step of `temp`.
   */
  function RoundToStep(temp: real, scalar: nat): (r: real)
    requires scalar >= 1
    ensures -0.5 < (r - temp) * scalar as real <= 0.5
  {
    var s := scalar as real;
    var n := JsRound(temp * s);
    var r := n as real / s;
    assert r * s == n as real;
    assert (r - temp) * s == n as real - temp * s;
    r
  }

  lemma DivMul(a: real, s: real)
    requires s != 0.0
    ensures (a / s) * s == a
  {
  }

  lemma MulSub(x: real, y: real, s: real)
    ensures (x - y) * s == x * s - y * s
  {
  }

  lemma MulCancel(x: real, y: real, s: real)
    requires s != 0.0 && x * s == y * s
    ensures x == y
  {
    DivMul(x, s);
    DivMul(y, s);
  }

  lemma RoundToStepIs(temp: real, scalar: nat)
    requires scalar >= 1
    ensures RoundToStep(temp, scalar) == JsRound(temp * scalar as real) as real / scalar as real
  {
  }

  /** The result of `RoundToStep` lies on the grid of `1 / scalar` steps: `n` steps. */
  lemma RoundToStepOnGrid(temp: real, scalar: nat) returns (n: int)
    requires scalar >= 1
    ensures RoundToStep(temp, scalar) * scalar as real == n as real
  {
    n := JsRound(temp * scalar as real);
    RoundToStepIs(temp, scalar);
    DivMul(n as real, scalar as real);
  }

  /**
    The bound and the grid determine the result: a value `r` of `k` steps of
    `1 / scalar` within half a step of `temp` is the one `RoundToStep` gives.
   */
  lemma RoundToStepUnique(temp: real, scalar: nat, r: real, k: int)
    requires scalar >= 1
    requires r * scalar as real == k as real
    requires -0.5 < (r - temp) * scalar as real <= 0.5
    ensures r == RoundToStep(temp, scalar)
  {
    var s := scalar as real;
    var q := RoundToStep(temp, scalar);
    var n := RoundToStepOnGrid(temp, scalar);
    MulSub(r, temp, s);
    MulSub(q, temp, s);
    assert -1.0 < (k - n) as real < 1.0;
    MulCancel(r, q, s);
  }

  /** `roundTemp` as written: the scalar is `1 << tempDecimalPlaces`, a power of two. */
  function RoundTempAsWritten(temp: real, places: nat): (r: real)
    ensures -0.5 < (r - temp) * Pow2(places) as real <= 0.5
  {
    var scalar := Pow2(places);
    RoundToStep(temp, scalar)
  }

  /** `roundTemp` as intended: `temp` rounded to `tempDecimalPlaces` decimal places. */
  function RoundTempPlaces(temp: real, places: nat): (r: real)
    ensures -0.5 < (r - temp) * Pow10(places) as real <= 0.5
  {
    var scalar := Pow10(places);
    RoundToStep(temp, scalar)
  }

  /**
    With one decimal place the code as written rounds 21.3 to 21.5, two tenths
    away, where rounding to one decimal place leaves 21.3.
   */
  lemma RoundTempHalvesNotTenths()
    ensures RoundTempAsWritten(21.3, 1) == 21.5
    ensures !(-0.5 < (RoundTempAsWritten(21.3, 1) - 21.3) * Pow10(1) as real <= 0.5)
    ensures RoundTempPlaces(21.3, 1) == 21.3
  {
    assert Pow2(1) == 2 && Pow10(1) == 10;
    assert JsRound(21.3 * 2.0) == 43;
    assert JsRound(21.3 * 10.0) == 213;
  }

  /** The code as written lands on a multiple of `2^-places`: `n` of them. */
  lemma RoundTempAsWrittenOnGrid(temp: real, places: nat) returns (n: int)
    ensures RoundTempAsWritten(temp, places) * Pow2(places) as real == n as real
  {
    n := RoundToStepOnGrid(temp, Pow2(places));
  }

  /** Decimal rounding lands on a multiple of `10^-places`, so it has at most `places` decimals. */
  lemma RoundTempPlacesOnGrid(temp: real, places: nat) returns (n: int)
    ensures RoundTempPlaces(temp, places) * Pow10(places) as real == n as real
  {
    n := RoundToStepOnGrid(temp, Pow10(places));
  }

  /**
    Decimal rounding is the nearest value with `places` decimals: any `r` of
    `places` decimals within half a unit of the last place of `temp` is it.
   */
  lemma RoundTempPlacesNearest(temp: real, places: nat, r: real, k: int)
    requires r * Pow10(places) as real == k as real
    requires -0.5 < (r - temp) * Pow10(places) as real <= 0.5
    ensures r == RoundTempPlaces(temp, places)
  {
    RoundToStepUnique(temp, Pow10(places), r, k);
  }

  /** The two agree at the default of 0 places, where the scalar is 1 either way. */
  lemma RoundTempDefaultAgrees(temp: real)
    ensures RoundTempAsWritten(temp, 0) == RoundTempPlaces(temp, 0)
  {
    assert Pow2(0) == 1 == Pow10(0);
  }

  /** `roundTemp` at `tempDecimalPlaces` 0: whole-degree temperatures come back unchanged. */
  function RoundTemp(temp: int): (r: real)
    ensures r == temp as real
  {
    assert Pow10(TEMP_DECIMAL_PLACES) == 1 by { assert Pow10(0) == 1; }
    JsRoundWhole(temp);
    assert temp as real * 1.0 == temp as real;
    RoundTempPlaces(temp as real, TEMP_DECIMAL_PLACES)
  }

  /** At the configured 0 places, `RoundTemp` is the code as written. */
  lemma RoundTempIsAsWritten(temp: int)
    ensures RoundTemp(temp) == RoundTempAsWritten(temp as real, TEMP_DECIMAL_PLACES)
  {
    assert TEMP_DECIMAL_PLACES == 0;
    RoundTempDefaultAgrees(temp as real);
    assert RoundTemp(temp) == RoundTempPlaces(temp as real, 0);
  }

  /** The `filter(i < numRows)` of the day records: the first `maxDaysForecast` of them. */
  function Window(records: seq<DayRecord>, maxDaysForecast: int): (rows: seq<DayRecord>)
    ensures rows <= records
    ensures |rows| <= maxDaysForecast || rows == []
    ensures |rows| < |records| ==> |rows| >= maxDaysForecast
  {
    records[..if maxDaysForecast < 0 then 0 else Min(maxDaysForecast, |records|)]
  }

  /** The running `min` of the range loop after `rows`: starts at `Number.MAX_VALUE`. */
  function MinOf(rows: seq<DayRecord>): int {
    if rows == [] then MAX_VALUE else Min(MinOf(rows[..|rows| - 1]), Last(rows).minTemp)
  }

  /** The running `max` of the range loop after `rows`: starts at `-Number.MAX_VALUE`. */
  function MaxOf(rows: seq<DayRecord>): int {
    if rows == [] then -MAX_VALUE else Max(MaxOf(rows[..|rows| - 1]), Last(rows).maxTemp)
  }

  /** The range loop of `renderWeatherForecast`, with the final `Math.round` of both ends. */
  method WindowRange(rows: seq<DayRecord>) returns (min: int, max: int)
    ensures min == MinOf(rows) && max == MaxOf(rows)
  {
    min := MAX_VALUE;
    max := -MAX_VALUE;
    for i := 0 to |rows|
      invariant min == MinOf(rows[..i]) && max == MaxOf(rows[..i])
    {
      assert rows[..i + 1][..i] == rows[..i];
      max := Max(max, rows[i].maxTemp);
      min := Min(min, rows[i].minTemp);
    }
    assert rows[..|rows|] == rows;
    min := JsRound(min as real);
    max := JsRound(max as real);
  }

  /** The window minimum is at most every row's low; with no rows it is `Number.MAX_VALUE`. */
  lemma {:induction false} MinOfBounds(rows: seq<DayRecord>)
    ensures forall i :: 0 <= i < |rows| ==> MinOf(rows) <= rows[i].minTemp
    ensures rows == [] ==> MinOf(rows) == MAX_VALUE
  {
    if rows != [] {
      var init := rows[..|rows| - 1];
      MinOfBounds(init);
      assert forall i :: 0 <= i < |init| ==> init[i] == rows[i];
    }
  }

  /** The window minimum is one of the rows' lows when there are rows (and none exceeds `Number.MAX_VALUE`). */
  lemma {:induction false} MinOfAttained(rows: seq<DayRecord>)
    requires rows != []
    requires forall i :: 0 <= i < |rows| ==> rows[i].minTemp <= MAX_VALUE
    ensures exists i :: 0 <= i < |rows| && rows[i].minTemp == MinOf(rows)
  {
    var init := rows[..|rows| - 1];
    if init == [] {
      assert rows[0].minTemp == MinOf(rows);
    } else if MinOf(rows) != Last(rows).minTemp {
      assert forall i :: 0 <= i < |init| ==> init[i] == rows[i];
      MinOfAttained(init);
      var j :| 0 <= j < |init| && init[j].minTemp == MinOf(init);
      assert rows[j].minTemp == MinOf(rows);
    }
  }

  /** The window maximum is at least every row's high; with no rows it is `-Number.MAX_VALUE`. */
  lemma {:induction false} MaxOfBounds(rows: seq<DayRecord>)
    ensures forall i :: 0 <= i < |rows| ==> rows[i].maxTemp <= MaxOf(rows)
    ensures rows == [] ==> MaxOf(rows) == -MAX_VALUE
  {
    if rows != [] {
      var init := rows[..|rows| - 1];
      MaxOfBounds(init);
      assert forall i :: 0 <= i < |init| ==> init[i] == rows[i];
    }
  }

  /** The window maximum is one of the rows' highs when there are rows (and none is below `-Number.MAX_VALUE`). */
  lemma {:induction false} MaxOfAttained(rows: seq<DayRecord>)
    requires rows != []
    requires forall i :: 0 <= i < |rows| ==> -MAX_VALUE <= rows[i].maxTemp
    ensures exists i :: 0 <= i < |rows| && rows[i].maxTemp == MaxOf(rows)
  {
    var init := rows[..|rows| - 1];
    if init == [] {
      assert rows[0].maxTemp == MaxOf(rows);
    } else if MaxOf(rows) != Last(rows).maxTemp {
      assert forall i :: 0 <= i < |init| ==> init[i] == rows[i];
      MaxOfAttained(init);
      var j :| 0 <= j < |init| && init[j].maxTemp == MaxOf(init);
      assert rows[j].maxTemp == MaxOf(rows);
    }
  }

  /** Percentage points of row width per degree: `100 / (max - min)`. */
  function Interval(min: int, max: int): (interval: real)
    requires max != min
    ensures interval * (max - min) as real == 100.0
    ensures max > min ==> interval > 0.0
  {
    100.0 / (max - min) as real
  }

  /** The bar before rounding: the row's temperature span in percent of the window's. */
  function ExactBar(row: DayRecord, min: int, max: int): real
    requires max != min
  {
    Interval(min, max) * (RoundTemp(row.maxTemp) - RoundTemp(row.minTemp))
  }

  /** The widths `renderForecastRow` gives the left spacer, the (rounded) bar and the right spacer. */
  datatype BarGeometry = BarGeometry(leftSpacer: real, barWidth: int, rightSpacer: real)

  /** The widths of a row whose low and high are `lo` and `hi`, in a range `[min, max]` of `interval` percent per degree. */
  function Widths(interval: real, min: real, lo: real, hi: real, max: real): BarGeometry {
    BarGeometry(interval * (lo - min), JsRound(interval * (hi - lo)), interval * (max - hi))
  }

  /** The spacers and the unrounded bar cut the whole width `interval * (max - min)` into three. */
  lemma WidthsSum(interval: real, min: real, lo: real, hi: real, max: real)
    ensures var g := Widths(interval, min, lo, hi, max);
      g.leftSpacer + interval * (hi - lo) + g.rightSpacer == interval * (max - min)
  {
  }

  /**
    Where the bar sits: across a whole width of 100 the left spacer is the
    share of the range below the row's low, the right spacer the share above
    its high.
   */
  lemma WidthsPosition(interval: real, min: real, lo: real, hi: real, max: real)
    requires interval * (max - min) == 100.0
    ensures var g := Widths(interval, min, lo, hi, max);
      && g.leftSpacer * (max - min) == 100.0 * (lo - min)
      && g.rightSpacer * (max - min) == 100.0 * (max - hi)
  {
    MulSwap(interval, lo - min, max - min);
    MulSwap(interval, max - hi, max - min);
  }

  lemma MulSwap(a: real, b: real, c: real)
    ensures (a * b) * c == (a * c) * b
  {
  }

  /** Inside a range of 100 percent each width is between 0 and 100. */
  lemma WidthsInRange(interval: real, min: real, lo: real, hi: real, max: real)
    requires interval > 0.0 && min <= lo <= hi <= max
    requires interval * (max - min) == 100.0
    ensures var g := Widths(interval, min, lo, hi, max);
      && 0.0 <= g.leftSpacer <= 100.0
      && 0.0 <= interval * (hi - lo) <= 100.0
      && 0.0 <= g.rightSpacer <= 100.0
      && 0 <= g.barWidth <= 100
  {
    var g := Widths(interval, min, lo, hi, max);
    var left, bar, right := interval * (lo - min), interval * (hi - lo), interval * (max - hi);
    assert g == BarGeometry(left, JsRound(bar), right);
    WidthsSum(interval, min, lo, hi, max);
    assert left + bar + right == 100.0;
    ProductNonNegative(interval, lo - min);
    ProductNonNegative(interval, hi - lo);
    ProductNonNegative(interval, max - hi);
    PartOfWhole(left, bar, right);
    assert g.barWidth as real - 0.5 <= bar < g.barWidth as real + 0.5;
  }

  /** Three non-negative parts of 100 are each at most 100. */
  lemma PartOfWhole(a: real, b: real, c: real)
    requires a >= 0.0 && b >= 0.0 && c >= 0.0 && a + b + c == 100.0
    ensures a <= 100.0 && b <= 100.0 && c <= 100.0
  {
  }

  lemma ProductNonNegative(a: real, b: real)
    requires a >= 0.0 && b >= 0.0
    ensures a * b >= 0.0
  {
  }

  /**
    A row's bar geometry. When the window's lowest and highest temperatures are
    equal the interval is a division by zero and no width is a finite number (`None`). Otherwise the
    two spacers and the unrounded bar add up to 100 percent, and the bar is the
    unrounded bar rounded to at most half a point.
   */
  function RowGeometry(row: DayRecord, min: int, max: int): (g: Option<BarGeometry>)
    ensures g.None? <==> max == min
    ensures g.Some? ==> g.value.leftSpacer + ExactBar(row, min, max) + g.value.rightSpacer == 100.0
    ensures g.Some? ==> -0.5 <= g.value.barWidth as real - ExactBar(row, min, max) <= 0.5
    ensures g.Some? ==> g.value.leftSpacer * (max - min) as real == 100.0 * (row.minTemp - min) as real
    ensures g.Some? ==> g.value.rightSpacer * (max - min) as real == 100.0 * (max - row.maxTemp) as real
  {
    if max == min then None
    else
      var interval := Interval(min, max);
      var lo, hi := RoundTemp(row.minTemp), RoundTemp(row.maxTemp);
      WidthsSum(interval, min as real, lo, hi, max as real);
      assert (max - min) as real == max as real - min as real;
      WidthsPosition(interval, min as real, lo, hi, max as real);
      assert lo - min as real == (row.minTemp - min) as real;
      assert max as real - hi == (max - row.maxTemp) as real;
      Some(Widths(interval, min as real, lo, hi, max as real))
  }

  /** A row inside a range wider than zero gets spacers and a bar that each take 0 to 100 percent. */
  lemma RowGeometryInRange(row: DayRecord, min: int, max: int)
    requires max > min
    requires min <= row.minTemp <= row.maxTemp <= max
    ensures var g := RowGeometry(row, min, max);
      && g.Some?
      && 0.0 <= g.value.leftSpacer <= 100.0
      && 0.0 <= ExactBar(row, min, max) <= 100.0
      && 0.0 <= g.value.rightSpacer <= 100.0
      && 0 <= g.value.barWidth <= 100
  {
    var interval := Interval(min, max);
    var lo, hi := RoundTemp(row.minTemp), RoundTemp(row.maxTemp);
    assert RowGeometry(row, min, max) == Some(Widths(interval, min as real, lo, hi, max as real));
    assert ExactBar(row, min, max) == interval * (hi - lo);
    assert interval * (max as real - min as real) == 100.0 by {
      assert (max - min) as real == max as real - min as real;
    }
    WidthsInRange(interval, min as real, lo, hi, max as real);
  }

  /** `fadeForecast`: the second-to-last row is "dark", the last "darker", the others plain. */
  function FadeClass(fadeForecast: bool, i: int, rowCount: int): (c: string)
    ensures c == "darker" <==> fadeForecast && i + 1 == rowCount
    ensures c == "dark" <==> fadeForecast && i + 2 == rowCount
    ensures c == "" <==> !fadeForecast || (i + 1 != rowCount && i + 2 != rowCount)
  {
    var c := if fadeForecast && i + 2 == rowCount then "dark" else "";
    if fadeForecast && i + 1 == rowCount then "darker" else c
  }

  /** The icon's CSS class: `wi-day-` before the class unless it already starts with `wi-`; none without a class. */
  function IconClass(weatherIcon: Option<WeatherClass>): (c: Option<string>)
    ensures c.None? <==> weatherIcon.None?
    ensures c.Some? ==> StartsWith(c.value, "wi-")
    ensures c.Some? ==> c.value == weatherIcon.value.cssClass || c.value == "wi-day-" + weatherIcon.value.cssClass
    ensures c.Some? && StartsWith(weatherIcon.value.cssClass, "wi-") ==> c.value == weatherIcon.value.cssClass
  {
    match weatherIcon
    case None => None
    case Some(w) => if StartsWith(w.cssClass, "wi-") then Some(w.cssClass) else Some("wi-day-" + w.cssClass)
  }

  /** What the table shows of one row: its fade class, its icon class and its bar. */
  datatype RowLayout = RowLayout(addClass: string, iconClass: Option<string>, bar: Option<BarGeometry>)

  /**
    `renderWeatherForecast` without the DOM: the window, its range, then one
    layout per row.
   */
  method RenderWeatherForecast(records: seq<DayRecord>, maxDaysForecast: int, fadeForecast: bool)
    returns (layout: seq<RowLayout>)
    ensures var rows := Window(records, maxDaysForecast);
      && |layout| == |rows|
      && forall i :: 0 <= i < |rows| ==>
           layout[i] == RowLayout(FadeClass(fadeForecast, i, |rows|), IconClass(rows[i].weatherIcon),
                                  RowGeometry(rows[i], MinOf(rows), MaxOf(rows)))
  {
    var filteredRows := Window(records, maxDaysForecast);
    var min, max := WindowRange(filteredRows);
    layout := [];
    for i := 0 to |filteredRows|
      invariant |layout| == i
      invariant forall j :: 0 <= j < i ==>
        layout[j] == RowLayout(FadeClass(fadeForecast, j, |filteredRows|), IconClass(filteredRows[j].weatherIcon),
                               RowGeometry(filteredRows[j], min, max))
    {
      var day := filteredRows[i];
      var addClass := "";
      if fadeForecast {
        if i + 2 == |filteredRows| {
          addClass := "dark";
        }
        if i + 1 == |filteredRows| {
          addClass := "darker";
        }
      }
      layout := layout + [RowLayout(addClass, IconClass(day.weatherIcon), RowGeometry(day, min, max))];
    }
  }

  /**
    For the day records of any forecast: the window's range is not inverted, and
    every row lies inside it, so when the range is wider than zero each
    row's spacers and bar take 0 to 100 percent and add up to 100.
   */
  lemma ForecastBarsFit(periods: seq<Period>, weekday: string -> string, maxDaysForecast: int)
    ensures var rows := Window(Align(periods, NoaaBuilder(weekday)), maxDaysForecast);
      && (rows != [] ==> MinOf(rows) <= MaxOf(rows))
      && forall i :: 0 <= i < |rows| && MinOf(rows) != MaxOf(rows) ==>
           var g := RowGeometry(rows[i], MinOf(rows), MaxOf(rows)).value;
           && 0.0 <= g.leftSpacer <= 100.0 && 0 <= g.barWidth <= 100 && 0.0 <= g.rightSpacer <= 100.0
           && 0.0 <= ExactBar(rows[i], MinOf(rows), MaxOf(rows)) <= 100.0
           && g.leftSpacer + ExactBar(rows[i], MinOf(rows), MaxOf(rows)) + g.rightSpacer == 100.0
  {
    var records := Align(periods, NoaaBuilder(weekday));
    var rows := Window(records, maxDaysForecast);
    AlignTemperatures(periods, weekday);
    MinOfBounds(rows);
    MaxOfBounds(rows);
    if rows != [] {
      assert rows[0] in records;
    }
    forall i | 0 <= i < |rows| && MinOf(rows) != MaxOf(rows)
      ensures var g := RowGeometry(rows[i], MinOf(rows), MaxOf(rows)).value;
        && 0.0 <= g.leftSpacer <= 100.0 && 0 <= g.barWidth <= 100 && 0.0 <= g.rightSpacer <= 100.0
        && 0.0 <= ExactBar(rows[i], MinOf(rows), MaxOf(rows)) <= 100.0
    {
      assert rows[i] == records[i];
      assert rows[i] in records;
      RowGeometryInRange(rows[i], MinOf(rows), MaxOf(rows));
    }
  }
}
