# NOAA forecast module: a verified model of its forecast core

The MagicMirror module `noaaforecast.js` fetches the forecast of the US
National Weather Service and shows it as a table with one row per day. This
model covers the part of the module that turns forecast periods into table
rows. The model is organised as follows:

- `js_text.dfy` (`JsText`): the JavaScript string operations the parsers rely
  on, written out:
  - `String.prototype.split` on one character;
  - `parseInt` on decimal text;
  - the decimal formatting of integers;
  - `startsWith`.
- `classifier.dfy` (`Classifier`): the three readers of a forecast period:
  - `parseWindSpeed`: the first number of the wind text;
  - `parsePrecipProbability`: the number after the comma in the icon URL's last path segment;
  - `parseWeatherIcon`: the condition code of that segment, looked up in the table of 34 codes, each with a CSS class and a severity rank.
- `aligner.dfy` (`Aligner`): `alignPeriods`, the pass that pairs each night
  period with the day period right after it into one day record.
  - The record takes the lower and the higher temperature, the higher
    precipitation probability, the faster wind (the day's on a tie), and the
    more severe class (the night's on a tie, the day's when the night has none).
  - The pass is specified by a fold (`RunFrom`) over any `DayBuilder`, meaning
    any way of opening a record at a night and closing it at a day.
    `AlignPeriods`, the loop of the source, is proved to compute that fold for
    the source's builder.
  - The pairing lemmas then say what the pass returns: the records of the
    adjacent (night, day) pairs, in order, one per pair. A leading day is
    dropped, a trailing night is dropped, and of two nights in a row only the
    second counts.
  - `AlignerExamples` works through concrete forecasts given as the service
    writes them.
- `render.dfy` (`ForecastRender`): the arithmetic of `renderWeatherForecast`
  and `renderForecastRow`:
  - the window of at most `maxDaysForecast` rows;
  - the window's temperature range, a loop that starts at `±Number.MAX_VALUE`;
  - `roundTemp`;
  - each row's left spacer, bar and right spacer, in percent;
  - the fade class of the last two rows;
  - the icon's CSS class.
  - It is proved that each row lies inside the range. In exact arithmetic
    the spacers and the unrounded bar then each take 0 to 100 percent and add
    up to 100, and the drawn bar is within half a point of the unrounded one.

Two rules of the code worth noting:

- On a wind-speed tie the daytime wind is kept (noaaforecast.js:173-174).
- The ranks are the table's own: dust (200) and smoke (300) rank above
  thunderstorm (60) (noaaforecast.js:271-278).

## Model

| member | source | states |
|---|---|---|
| JsText.Split | noaaforecast.js:230-233 | `split` on one character always yields at least one piece, so the `[0]` and `[length-1]` lookups of the parsers exist |
| JsText.SplitJoin | noaaforecast.js:230-233 | joining the pieces of a split with the same separator gives the text back |
| JsText.SplitPieces | noaaforecast.js:230-233 | no piece holds the separator, and there is more than one piece exactly when the separator occurs |
| JsText.SplitWithout | noaaforecast.js:232-233 | a text without the separator splits into itself alone |
| JsText.SplitAfterFirst | noaaforecast.js:232 | the first piece is the text up to the first separator; the rest is the split of what follows it |
| JsText.SplitLastAfter | noaaforecast.js:230-231 | the last piece is the text after the last separator |
| JsText.SplitFirstPrefix | noaaforecast.js:232 | the first piece of a split is a prefix of the text |
| JsText.DigitPrefix | noaaforecast.js:226 | `parseInt` reads the longest run of leading digits: all digits, a prefix, and not followed by a digit |
| JsText.ParseInt | noaaforecast.js:226 | `parseInt` gives a nonzero value only to a text that starts with a number (a digit, or a sign and a digit), and a negative one only after a leading `-`; it reads formatted integers back (ParseIntFormatted) |
| JsText.ParseIntFormatted | noaaforecast.js:226 | `parseInt` reads a formatted integer back, whatever non-digit text follows it |
| Classifier.Classify | noaaforecast.js:249-286 | a condition code is classified exactly when it is one of the table's codes |
| Classifier.ConditionFields | noaaforecast.js:230-233 | the condition segment has at least one comma-separated field |
| Classifier.ConditionSegment | noaaforecast.js:230-232 | the condition segment is a prefix of the URL's last `/`-segment and holds neither `/` nor `?` |
| Classifier.ParseWeatherIcon | noaaforecast.js:243-287 | a class is found exactly when the segment's first field is a table code, and it is always one of the table's entries; on service URLs it is the code's entry (IconUrlRoundTrip) |
| Classifier.ParsePrecipProbability | noaaforecast.js:229-241 | a nonzero probability needs a comma in the condition segment; on service URLs it is the number after the comma, else 0 (IconUrlRoundTrip) |
| Classifier.ParseWindSpeed | noaaforecast.js:221-227 | a null or empty text gives 0, and a nonzero speed needs a text that starts with a number; "<n> <unit>" reads as n (WindSpeedRoundTrip) |
| Classifier.SegmentBeforeQuery | noaaforecast.js:230-232 | the condition segment of `<prefix>/<segment>[?<query>]` is the segment, when it holds no `/` or `?` |
| Classifier.ConditionSegmentOf | noaaforecast.js:230-232 | the condition segment of a service icon URL is its code and probability field |
| Classifier.ConditionFieldsOf | noaaforecast.js:233-245 | the fields of a service icon URL are the code, then the probability when there is one |
| Classifier.IconUrlRoundTrip | noaaforecast.js:229-287 | `parseWeatherIcon` gives the table entry of the URL's code; `parsePrecipProbability` gives its probability, or 0 without one |
| Classifier.WindSpeedRoundTrip | noaaforecast.js:221-227 | a wind text "<n> <unit>" reads as n; a null or empty text reads as 0 |
| Classifier.ClassifyRanks | noaaforecast.js:249-286 | unknown codes have no class; every rank lies between 0 and 1000 |
| Classifier.ClearSkyIsLeastSevere | noaaforecast.js:250-251 | rank 0, the lowest, belongs to exactly the clear-sky codes `skc` and `few` |
| Classifier.ExtremesAreMostSevere | noaaforecast.js:274-278 | tornado (1000) > hurricane (900) > tropical storm (800) > every other code (at most 300); only a tornado ranks 1000 |
| Aligner.PrevailingWind | noaaforecast.js:168-175 | the kept wind has the larger speed; it is the candidate (day) wind exactly when its speed is not lower, and otherwise the current wind unchanged |
| Aligner.DominantClass | noaaforecast.js:177-183 | the kept class is one of the two: the candidate when there was none, the current one when the candidate has none, otherwise the higher rank with the current one on a tie |
| Aligner.OpenDay | noaaforecast.js:194-209 | the record a night opens; its merge with the next day is stated by PairDayFields and PairDayClass |
| Aligner.CloseDay | noaaforecast.js:164-183 | closing a record widens its temperature range to the day's temperature and keeps its bounds otherwise, takes the higher precipitation probability, and keeps the night's weekday |
| Aligner.Step | noaaforecast.js:160-210 | one iteration of the pass for any builder; its effect on the output is stated by AlignSnoc and on the open record by RunCurrent |
| Aligner.RunFrom | noaaforecast.js:160-211 | the state after a prefix; it composes over concatenation (RunFromAppend) |
| Aligner.Align | noaaforecast.js:156-214 | the records the pass returns; they are the adjacent (night, day) pairs (AlignIsPairs, AlignCount, AlignSound, AlignComplete) |
| Aligner.AlignPeriods | noaaforecast.js:156-214 | the loop returns the fold `Align` of the periods with the source's builder |
| Aligner.PairDayFields | noaaforecast.js:163-175 | a record has the min and max of its two temperatures, the max of the two precipitation probabilities, the faster wind (the day's on a tie) and the night's weekday |
| Aligner.PairDayClass | noaaforecast.js:177-183 | a record's class is the higher-ranked of the two, the night's on a tie, the day's when the night has none |
| Aligner.RunCurrent | noaaforecast.js:187-209 | after a prefix, a record is open exactly when the prefix ends with a night, and it is that night's record |
| Aligner.RunFromAppend | noaaforecast.js:160-211 | running over two pieces in turn is running over the whole |
| Aligner.RunFromClosed | noaaforecast.js:186-187 | once nothing is open, the records already pushed only precede what the rest of the pass pushes |
| Aligner.AlignSnoc | noaaforecast.js:163-210 | one more period pushes a record exactly when it is a day right after a night |
| Aligner.AlignAfterDay | noaaforecast.js:186-187 | what follows a completed day is aligned independently of what came before |
| Aligner.AlignSingle | noaaforecast.js:160-211 | one period alone yields no record |
| Aligner.LeadingDayDropped | noaaforecast.js:163-189 | a day with no night before it is dropped |
| Aligner.TrailingNightDropped | noaaforecast.js:189-213 | a night at the end yields no record |
| Aligner.SecondNightWins | noaaforecast.js:202-209 | of two nights in a row only the second counts |
| Aligner.AlignLeadingPair | noaaforecast.js:163-210 | a leading (night, day) pair yields its record before all others |
| Aligner.AlignIsPairs | noaaforecast.js:156-214 | the pass returns exactly the records of the adjacent (night, day) pairs, left to right (a reference definition) |
| Aligner.NightDayStartsSnoc | noaaforecast.js:163-189 | appending a period adds at most the pair it closes |
| Aligner.AlignCount | noaaforecast.js:156-214 | the number of records equals the number of adjacent (night, day) pairs |
| Aligner.PairsOfPrefix | noaaforecast.js:160-211 | pairs in a prefix stay pairs with the same record |
| Aligner.AlignSound | noaaforecast.js:156-214 | every record is the merged record of some adjacent (night, day) pair |
| Aligner.AlignComplete | noaaforecast.js:156-214 | every adjacent (night, day) pair yields its record |
| Aligner.AlignTemperatures | noaaforecast.js:164-204 | every record has minTemp at most maxTemp, and both are temperatures of the input periods |
| AlignerExamples.ClassifyOvercastAndClear | noaaforecast.js:250-254 | `ovc` is ("cloudy", 20) and `skc` is ("sunny", 0) |
| AlignerExamples.OvercastNightClearDay | noaaforecast.js:156-214 | an overcast night at 40 (wind 5 N) and a clear day at 55 (wind 10 S) give one record: 40 to 55, precipitation 0, wind 10 S, class ("cloudy", 20) |
| AlignerExamples.TiesKeepDayWindAndNightClass | noaaforecast.js:173-183 | with equal wind speeds the day's wind is kept; with two different classes of equal rank (a thunderstorm night, a rain-and-snow day, both 60) the night's thunderstorm is kept |
| ForecastRender.JsRound | noaaforecast.js:441 | `Math.round` gives the integer within half a unit, halves rounded up |
| ForecastRender.JsRoundWhole | noaaforecast.js:492-493 | `Math.round` leaves whole numbers unchanged |
| ForecastRender.RoundToStep | noaaforecast.js:515-523 | scale, round and scale back lands within half a step of the input |
| ForecastRender.RoundToStepOnGrid | noaaforecast.js:517-520 | the result is a whole number of `1 / scalar` steps |
| ForecastRender.RoundToStepUnique | noaaforecast.js:517-520 | the half-step bound and the grid together determine the result: any value of whole steps within half a step of the input is it |
| ForecastRender.RoundTempAsWritten | noaaforecast.js:515-523 | `roundTemp` as written lands within half of a `2^-places` step of the input |
| ForecastRender.RoundTempAsWrittenOnGrid | noaaforecast.js:516-520 | `roundTemp` as written lands on a multiple of `2^-places` |
| ForecastRender.RoundTempPlaces | noaaforecast.js:514-523 | `roundTemp` rounding to `tempDecimalPlaces` decimals lands within half a unit of the last decimal |
| ForecastRender.RoundTempPlacesOnGrid | noaaforecast.js:514-523 | decimal rounding lands on a multiple of `10^-places`, so it has at most `places` decimals |
| ForecastRender.RoundTempPlacesNearest | noaaforecast.js:514-523 | decimal rounding gives the value of `places` decimals within half a unit of the last decimal, and no other |
| ForecastRender.RoundTempHalvesNotTenths | noaaforecast.js:516 | with one decimal place the written `roundTemp` turns 21.3 into 21.5, not within half a tenth, where decimal rounding keeps 21.3 |
| ForecastRender.RoundTempDefaultAgrees | noaaforecast.js:514-523 | at the default of 0 places the written and the decimal rounding agree |
| ForecastRender.RoundTemp | noaaforecast.js:515-523 | at 0 decimal places a whole-degree temperature is unchanged |
| ForecastRender.RoundTempIsAsWritten | noaaforecast.js:515-523 | at the configured 0 places the model's `roundTemp` is the code as written |
| ForecastRender.Window | noaaforecast.js:480-483 | the displayed rows are a prefix of the records, at most `maxDaysForecast` long, and all records when there are fewer |
| ForecastRender.WindowRange | noaaforecast.js:485-493 | the range loop computes the running min of the lows and max of the highs, from `Number.MAX_VALUE` and `-Number.MAX_VALUE` |
| ForecastRender.MinOfBounds | noaaforecast.js:485-490 | the window minimum is at most every row's low, and is `Number.MAX_VALUE` without rows |
| ForecastRender.MinOf | noaaforecast.js:485-490 | the running minimum of the lows; a lower bound (MinOfBounds) that some row attains (MinOfAttained) |
| ForecastRender.MaxOf | noaaforecast.js:485-489 | the running maximum of the highs; an upper bound (MaxOfBounds) that some row attains (MaxOfAttained) |
| ForecastRender.MinOfAttained | noaaforecast.js:485-490 | with rows, the window minimum is some row's low |
| ForecastRender.MaxOfBounds | noaaforecast.js:486-489 | the window maximum is at least every row's high, and is `-Number.MAX_VALUE` without rows |
| ForecastRender.MaxOfAttained | noaaforecast.js:486-489 | with rows, the window maximum is some row's high |
| ForecastRender.Interval | noaaforecast.js:372-373 | the interval times the range is 100, and it is positive for a non-empty range |
| ForecastRender.WidthsSum | noaaforecast.js:441-447 | the spacers and the unrounded bar cut the whole width into three |
| ForecastRender.WidthsPosition | noaaforecast.js:445-447 | in a 100-percent range the left spacer is the share of the range below the row's low, and the right spacer the share above its high |
| ForecastRender.ExactBar | noaaforecast.js:441 | the bar before `Math.round`; RowGeometry states how it and the spacers fill the row |
| ForecastRender.Widths | noaaforecast.js:441-447 | the three widths of a row; they sum to the whole (WidthsSum) and each is within 0 to 100 in a 100-percent range (WidthsInRange) |
| ForecastRender.WidthsInRange | noaaforecast.js:441-447 | inside a 100-percent range each width, rounded bar included, is between 0 and 100 |
| ForecastRender.RowGeometry | noaaforecast.js:371-447 | no finite widths when the window's lowest and highest temperatures are equal; otherwise spacers and unrounded bar sum to 100, the bar is within 0.5 of the unrounded bar, the left spacer is `100 * (rowMin - min) / (max - min)` percent and the right spacer `100 * (max - rowMax) / (max - min)` percent, so the bar sits at the row's place on the shared axis |
| ForecastRender.RowGeometryInRange | noaaforecast.js:441-447 | a row inside a range wider than zero gets spacers and a bar that each take 0 to 100 percent |
| ForecastRender.FadeClass | noaaforecast.js:499-507 | with fading, exactly the last row is "darker" and exactly the second-to-last "dark"; otherwise no class |
| ForecastRender.IconClass | noaaforecast.js:384-391 | an icon class exists exactly when there is a classification; it always starts with `wi-`, and is the class itself when that already does, else `wi-day-` before it |
| ForecastRender.RenderWeatherForecast | noaaforecast.js:479-512 | one layout per displayed row: its fade class, its icon class and its geometry in the window's range |
| ForecastRender.ForecastBarsFit | noaaforecast.js:479-512 | for any forecast the window's range is not inverted, and in a range wider than zero every row's spacers and bar take 0 to 100 percent and sum to 100 |

## Findings

| source | as written | input that shows it | evidently intended | confidence | as-written member | corrected member |
|---|---|---|---|---|---|---|
| noaaforecast.js:516 | `roundTemp` scales by `1 << tempDecimalPlaces`, a power of two | `tempDecimalPlaces` 1 and temperature 21.3: 21.3 × 2 = 42.6 rounds to 43, and 43 / 2 = 21.5 | scale by `10^tempDecimalPlaces`, which rounds to that many decimals (21.3 stays 21.3) | medium, not executed (harmless at the default of 0 places) | ForecastRender.RoundTempHalvesNotTenths (on ForecastRender.RoundTempAsWritten) | ForecastRender.RoundTempPlaces (RoundTempPlacesOnGrid, RoundTempPlacesNearest) |

## Left out

- The points and forecast requests, the update and retry timers, the module notifications (`sendNotification`, `notificationReceived`), the DOM and CSS are not modelled. The model starts from the list of periods and ends at each row's classes and widths.
- `getDayFromTime` is the `weekday` parameter of `AlignPeriods`: date parsing and moment's weekday names are not modelled. `getDayOfYear` is not modelled.
- `parseInt` returns `NaN` when no digit follows the optional sign; the model's `ParseInt` returns 0 there. The model also does not skip leading whitespace, does not read `0x` prefixes, and keeps digits beyond double precision. A `NaN` precipitation or wind speed would make the later `Math.max` results `NaN` too; that is not modelled.
- Temperatures are integers: the `parseFloat` of fractional temperatures and double rounding are not modelled. `RoundTemp` is modelled at `tempDecimalPlaces` 0, its default; other values appear only in the finding's members.
- The lookup `conditions[classifier]` on a JavaScript object would also find inherited properties such as `toString`. The model's table is a map holding the 34 codes only.
- The record `current` is modelled as a value: the pushed record and `current` never alias. The source sets `current = null` right after the push, so no later write can reach a pushed record.
- When the window's lowest and highest temperatures are equal, `100 / 0` gives `Infinity` and the widths become `NaN`; `RowGeometry` returns no geometry there instead of modelling those values.
- RowGeometry: the widths are exact reals. JavaScript computes `interval` and the spacers in doubles, so "add up to 100" (also in ForecastBarsFit) holds of the real-valued model only; in doubles the sum can miss 100 by a rounding error (min 0, max 6 and a row from 0 to 1 give 100.00000000000001).
- RoundTempAsWritten: reads `1 << places` as 2^places, which JavaScript's 32-bit shift gives only for places below 31 (`1 << 31` is negative, `1 << 32` is 1); such values are not modelled.
- Each row's day text, wind text, precipitation text and the `showWind` and `showDailyPrecipitationChance` switches are only display; they are not modelled.
