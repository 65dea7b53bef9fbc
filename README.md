# Minor six ren (小六壬) ring walk

A verified model of the divination core of a small web application for
小六壬 ("minor six ren"). Six spirits (六神) sit on six finger joints of
the hand: the index, middle and ring finger, each with an upper and a
lower joint. A reading counts clockwise round those joints three times in
a row. The lunar month is counted from 大安, the lunar day from where the
month landed, and the two-hour period (时辰) from where the day landed. The
last landing is the answer. A second entry point does the same count with
three arbitrary numbers. A third helper turns a civil hour 0..23 into the
index of its two-hour period.

The model has three modules:

- `XiaoLiu` (`xiaoliu.dfy`) holds the data and the operations:
  - the spirit table `GODS` and the period table `HOURS`, entry for entry;
  - the result shapes `God`, `HourSlot` and `CalculationResult`;
  - `Calculate`, `CalculateByNumbers` and `GetHourIndex`;
  - `JsRem6`, JavaScript's remainder by 6;
  - `ScaleIntoRange`, the mapping of a 32-bit random word into `[min, max]`.
- `XiaoLiuProperties` (`properties.dfy`) gives independent reference
  definitions and proves the operations against them:
  - counting joint by joint round the palm (`Clockwise`, `CountFrom`);
  - the civil hour where each period begins (`SlotStart`), and the clock
    text of the period table.
- `RingArith` (`ring_arith.dfy`) holds small facts about remainders
  modulo six, used as proof steps.

The remainder operator needs care. In JavaScript, `%` gives the sign of
the dividend, so `(0 - 1) % 6` is `-1`. A floor-style remainder would
stay in 0..5 for every integer input; the code's `%` does not.

This model follows the code. `Calculate` and `CalculateByNumbers` require
all three inputs to be at least 1. That contains the domain `calculate` documents:
months 1-12, days 1-30, periods 1-12; `calculateByNumbers` documents no range. The callers also pass
`Math.abs(month)` for leap months. On that domain every operand of `%` is
non-negative, and JavaScript's `%` and Dafny's agree. The bodies therefore
use Dafny's `%`, through `Advance(start, n)`, the position reached by
counting `n` joints from `start`:

- `CalculateFollowsJsRemainder` proves that each step equals `JsRem6` of
  the same operands.
- `MonthZeroFallsOffTheRing` shows what the code would do with month 0:
  index -1, which holds no spirit.
- `NonPositiveMonthOnRing` covers every month of 0 or less: the index is
  on the ring, at `GODS[0]`, exactly when `month - 1` is a multiple of 6.

## Model

| member | source | states |
|---|---|---|
| XiaoLiu.JsRem6 | src/lib/xiaoliu.ts:138-144 | JavaScript's `% 6`: the result lies strictly between -6 and 6. It equals the non-negative remainder for a non-negative dividend. For a negative dividend it is that remainder minus 6, or 0. |
| XiaoLiu.GODS | src/lib/xiaoliu.ts:20-88 | The six spirits in clockwise order, every field of every entry as in the source, `meaning` and `poem` included. |
| XiaoLiu.HOURS | src/lib/xiaoliu.ts:91-104 | The twelve two-hour periods, each with its name, printed clock range and index 1..12. |
| XiaoLiu.HourSlotAt | src/lib/xiaoliu.ts:146 | The lookup `HOURS[hourIndex - 1]` finds an entry exactly when the index is in 1..12. The entry found is `HOURS[hourIndex - 1]`, which carries that index and a non-empty name. |
| XiaoLiu.HourLabel | src/lib/xiaoliu.ts:161 | The hour label is `HOURS[hourIndex - 1].name`, which is non-empty, for 1..12. Any other index gives the empty string. It is the name in `HourSlotAt(hourIndex)` when that lookup finds an entry, and `""` when it does not (`hourInfo?.name \|\| ''`). |
| XiaoLiu.Advance | src/lib/xiaoliu.ts:137-144 | The step of the count: counting `n` joints from `start`, with `start` as the first, reaches `(start + n - 1) % 6`, a position in `GODS` (0..5) for `start >= 0` and `n >= 1`. `AdvanceCountsOnThePalm` proves it is the clockwise count on the palm. |
| XiaoLiu.Calculate | src/lib/xiaoliu.ts:132-167 | The three `value`s echo the inputs. Each landing's spirit is the `GODS` entry at its index, in 0..5. `finalGod` is the hour's spirit. The month index is `(m-1)%6`. Each later index is the previous one plus the input minus 1, mod 6. The hour label is `HourLabel(hourIndex)`. |
| XiaoLiu.CalculateByNumbers | src/lib/xiaoliu.ts:175-206 | The result is `Calculate` of the same three numbers in every field except the hour label, which is always 第三数. |
| XiaoLiu.GetHourIndex | src/lib/xiaoliu.ts:290-303 | The result is always in 1..12. Hours 23 and 0 give 1 (子时). Hours 1..22 give `(hour+1)/2+1`. Any other value falls through to 12. |
| XiaoLiu.ScaleIntoRange | src/lib/xiaoliu.ts:270-275 | `min + n % (max-min+1)` for a 32-bit unsigned `n` always lies in `[min, max]`. It is exactly `min + n` when `n` already fits. |
| XiaoLiuProperties.Clockwise | src/lib/xiaoliu.ts:1-7 | One joint clockwise is another joint of the ring. Only 空亡 is followed by 大安, so the ring wraps there and nowhere else. |
| XiaoLiuProperties.CountFrom | src/lib/xiaoliu.ts:1-7 | Counting `n` joints clockwise from a joint, the start being "one", lands on a joint of the ring. |
| XiaoLiuProperties.CountFromIsRemainder | src/lib/xiaoliu.ts:137-144 | Counting `n` joints from `start` lands on `(start+n-1) % 6`. This is proved by induction on `n`. |
| XiaoLiuProperties.AdvanceCountsOnThePalm | src/lib/xiaoliu.ts:137-144 | For a start joint in 0..5, the step `Advance(start, n)` equals the clockwise count of `n` joints from `start`. |
| XiaoLiuProperties.CalculateCountsOnThePalm | src/lib/xiaoliu.ts:137-144 | Each index `Calculate` produces is the count on the palm: the month from 大安, the day from the month's landing, the hour from the day's. |
| XiaoLiuProperties.StepsCount | src/lib/xiaoliu.ts:137-144 | Three chained remainders of the step formula are three chained counts on the palm. |
| XiaoLiuProperties.CountingSixReturns | src/lib/xiaoliu.ts:7 | Counting six more joints returns to the same landing. Counting one to five more from a joint never lands back on it. |
| XiaoLiuProperties.CalculateClosedForm | src/lib/xiaoliu.ts:137-144 | The final index equals the closed form `(m+d+h-3) % 6`. |
| XiaoLiuProperties.CalculateFollowsJsRemainder | src/lib/xiaoliu.ts:138-144 | On the required domain, each of the three steps equals JavaScript's `%` applied to the same operands. |
| XiaoLiuProperties.MonthZeroFallsOffTheRing | src/lib/xiaoliu.ts:138 | With month 0, JavaScript's remainder gives -1, which is not a position in `GODS`. |
| XiaoLiuProperties.NonPositiveMonthOnRing | src/lib/xiaoliu.ts:138-152 | For a month of 0 or less, JavaScript's month index lies in `GODS` exactly when `month - 1` is a multiple of 6, where it is 0 (`-0` reads `GODS[0]`). Otherwise it is negative. |
| XiaoLiuProperties.MonthHasPeriodSix | src/lib/xiaoliu.ts:138-165 | Adding 6 to the month changes only the echoed month value. Every landing and the final spirit stay the same. |
| XiaoLiuProperties.DayHasPeriodSix | src/lib/xiaoliu.ts:141-165 | Adding 6 to the day changes only the echoed day value. Every landing and the final spirit stay the same. |
| XiaoLiuProperties.HourHasPeriodSix | src/lib/xiaoliu.ts:144-165 | Adding 6 to the hour index leaves the month, day, hour landing and final spirit unchanged. |
| XiaoLiuProperties.MonthHasNoShorterPeriod | src/lib/xiaoliu.ts:138 | Adding 1..5 to the month moves the month landing to a different spirit. |
| XiaoLiuProperties.DayHasNoShorterPeriod | src/lib/xiaoliu.ts:141 | Adding 1..5 to the day moves the day landing to a different spirit. |
| XiaoLiuProperties.HourHasNoShorterPeriod | src/lib/xiaoliu.ts:144-165 | Adding 1..5 to the hour index changes the final spirit. |
| XiaoLiuProperties.FinalDependsOnSum | src/lib/xiaoliu.ts:138-165 | Two readings give the same final spirit if and only if their `m+d+h` agree mod 6. |
| XiaoLiuProperties.SameSpiritSamePosition | src/lib/xiaoliu.ts:20-88 | Two landings show the same spirit if and only if they are at the same ring position. |
| XiaoLiuProperties.GodsIndexed | src/lib/xiaoliu.ts:20-88 | There are six spirits, and each one's `index` field is its position in the table. |
| XiaoLiuProperties.GodsTable | src/lib/xiaoliu.ts:20-88 | The names run 大安 留连 速喜 赤口 小吉 空亡. The elements are 木 水 火 金 木 土. The fortunes are good, neutral, good, bad, good, bad. |
| XiaoLiuProperties.FindAtJoint | src/components/HandDiagram.tsx:120-122 | The first spirit on a joint, as the palm diagram searches for it. A result is in the list and sits on that joint. No result means no entry sits there. |
| XiaoLiuProperties.JointsAreDistinct | src/lib/xiaoliu.ts:20-88 | No two spirits share a (finger, row) joint. |
| XiaoLiuProperties.EveryJointHoldsOneGod | src/components/HandDiagram.tsx:114-122 | For every one of the six joints the diagram's search finds a spirit, and it is the only spirit on that joint. |
| XiaoLiuProperties.PositionsNameJoints | src/lib/xiaoliu.ts:20-88 | Each spirit's `position` text (for example 食指下节) names the finger and row it sits on. |
| XiaoLiuProperties.ClockwiseGoesRoundThePalm | src/lib/xiaoliu.ts:1-7 | Every clockwise step goes to a neighbouring joint of the 3 x 2 grid, so the ring walks round the palm's edge. |
| XiaoLiuProperties.SlotStart | src/lib/xiaoliu.ts:91-104 | The first civil hour of period `k` is odd and in 0..23 (23 for 子时). |
| XiaoLiuProperties.HoursTable | src/lib/xiaoliu.ts:91-104 | There are twelve periods, and the entry at position `i` has index `i+1`. The first is 子时 23:00-01:00 and the last 亥时 21:00-23:00. |
| XiaoLiuProperties.HourRangeStartsAtSlot | src/lib/xiaoliu.ts:91-104 | Every printed range begins with the full hour `SlotStart(k)`. |
| XiaoLiuProperties.HourRangeEndsTwoHoursLater | src/lib/xiaoliu.ts:91-104 | Every printed range is 11 characters long. It ends with `-HH:00`, two hours after its start on a 24-hour clock. |
| XiaoLiuProperties.HourFallsInItsPeriod | src/lib/xiaoliu.ts:290-303 | Every civil hour is the first or second hour of the period `GetHourIndex` gives it. |
| XiaoLiuProperties.PeriodHoursMapBack | src/lib/xiaoliu.ts:290-303 | Both civil hours of period `k` map back to `k`. |
| XiaoLiuProperties.HourIndexClosedForm | src/lib/xiaoliu.ts:290-303 | On 0..23, `GetHourIndex(hour) == ((hour+1) % 24) / 2 + 1`. |
| XiaoLiuProperties.CivilHourHasLabel | src/lib/lunar.ts:31-34 | For every civil hour, the period lookup that follows `getHourIndex` finds its entry. The label is therefore never empty. |
| XiaoLiuProperties.CalculateExamples | src/lib/xiaoliu.test.ts:386-429 | (12,25,9) gives 空亡/空亡/留连 in 申时. (6,6,6) and (12,30,12) give 空亡/小吉/赤口. (1,30,1) gives 空亡 for day and hour. |
| XiaoLiuProperties.CalculateHourExamples | src/lib/xiaoliu.test.ts:303-339 | (1,1,1) lands on 大安 in 子时. (1,1,12) lands on 空亡 in 亥时. (2,3,7) lands on 赤口 in 午时. |
| XiaoLiuProperties.CalculateOutOfRangeHour | src/lib/xiaoliu.test.ts:431-437 | Hour index 99 gets the empty label and still lands on index `98 % 6 = 2` (速喜). |
| XiaoLiuProperties.GetHourIndexExamples | src/lib/xiaoliu.test.ts:69-189 | 23 and 0 give 1, 1 gives 2, 12 gives 7, and 21 and 22 give 12. |

## Left out

- Random numbers are not modelled: fetching from RANDOM.ORG (`fetchTrueRandomNumbers`, `getThreeRandomNumbers`) is network I/O and error handling, and `crypto.getRandomValues` is a foreign source of randomness. Only the arithmetic that maps a random word into `[min, max]` is modelled, as `ScaleIntoRange`.
- ScaleIntoRange: requires `min <= max`. For `max < min` the source divides by zero or by a negative range, giving `NaN` or values outside the bounds. That case is not modelled.
- Calculate: requires every input to be at least 1, which contains the domain `calculate` documents. For a month of 0 or less, JavaScript's `%` makes the month index negative, and `GODS` has no entry there, so the code returns an undefined spirit; `MonthZeroFallsOffTheRing` shows the first such case. The exception is a month whose `month - 1` is a multiple of 6 (-5, -11, ...): JavaScript then gives `-0`, which reads `GODS[0]`; `NonPositiveMonthOnRing` states both cases. Neither case is modelled by `Calculate`.
- CalculateByNumbers: requires every input to be at least 1, as for `Calculate`. The random path draws the numbers from 1..100. Typed numbers are only clamped to at least 1 (`src/components/DivinationApp.tsx:123-127`), so they can be arbitrarily large.
- Calculate, CalculateByNumbers: integers are exact and unbounded here. JavaScript numbers are doubles. Above 2^53, `n - 1` rounds: a first number of 1e20 puts the first landing on 小吉 in the source but on 赤口 in the model. A typed number too large for a double becomes `Infinity`, and the source then gets a `NaN` index and an undefined spirit. Double rounding is not modelled.
- GetHourIndex: integer hours only. JavaScript numbers can also be fractional or `NaN`; for example, 23.5 falls through to 12.
- `src/lib/lunar.ts` (the solar-to-lunar conversion and the clock) is not part of this model. The library it wraps is foreign code, and the clock is I/O. Only its period lookup after `getHourIndex` is stated, in `CivilHourHasLabel`.
- The React components, the share card and image routes, and analytics are user interface and I/O. Only the palm diagram's joint lookup (`getGodByPosition`) is modelled, as `FindAtJoint`.
- The `meaning` and `poem` texts are carried verbatim in `GODS`. No property is stated about their content.
