/**
 * The minor six ren ("Xiao Liu Ren") ring walk: six spirits placed on the
 * joints of three fingers, counted clockwise three times in a row (month,
 * day, hour), each count starting where the previous one landed.
 *
 * Palm layout (index, middle and ring finger; upper and lower joint):
 *
 *           index     middle    ring
 *   upper   留连  ->   速喜  ->  赤口
 *            ^                    v
 *   lower   大安  <-   空亡  <-  小吉
 */
module XiaoLiu {

  datatype Option<T> = None | Some(value: T)

  datatype Finger = IndexFinger | MiddleFinger | RingFinger
  datatype Row = Top | Bottom
  datatype Fortune = Good | Bad | Neutral

  /** One of the six spirits. `meaning` and `poem` are free text. */
  datatype God = God(
    index: int,
    name: string,
    position: string,
    finger: Finger,
    row: Row,
    element: string,
    meaning: string,
    poem: string,
    fortune: Fortune)

  /** The ring, in clockwise order. */
  const GODS: seq<God> := [
    God(0, "大安", "食指下节", IndexFinger, Bottom, "木",
      "身不动时，属木青龙，凡谋事一、五、七。",
      "大安事事昌，求财在坤方。失物去不远，宅舍保安康。行人身未动，病者主无妨。将军回田野，仔细更推详。",
      Good),
    God(1, "留连", "食指上节", IndexFinger, Top, "水",
      "人未归时，属水玄武，凡谋事二、八、十。",
      "留连事难成，求谋日未明。官事凡宜缓，去者未回程。失物南方见，急讨方心称。更须防口舌，人口且平平。",
      Neutral),
    God(2, "速喜", "中指上节", MiddleFinger, Top, "火",
      "人即至时，属火朱雀，凡谋事三、六、九。",
      "速喜喜来临，求财向南行。失物申未午，逢人路上寻。官事有福德，病者无祸侵。田宅六畜吉，行人有信音。",
      Good),
    God(3, "赤口", "无名指上节", RingFinger, Top, "金",
      "官事凶时，属金白虎，凡谋事四、七、十。",
      "赤口主口舌，官非切要防。失物速速讨，行人有惊慌。鸡犬多作怪，病者出西方。更须防咀咒，恐怕染瘟皇。",
      Bad),
    God(4, "小吉", "无名指下节", RingFinger, Bottom, "木",
      "人即至时，属木六合，凡谋事一、五、七。",
      "小吉最吉昌，路上好商量。阴人来报喜，失物在坤方。行人即便至，交关甚是强。凡事皆和合，病者叩穹苍。",
      Good),
    God(5, "空亡", "中指下节", MiddleFinger, Bottom, "土",
      "音信稀时，属土勾陈，凡谋事三、六、九。",
      "空亡事不祥，阴人少主张。求财无利益，行人有灾殃。失物寻不见，官事有刑伤。病人逢暗鬼，解禳保安康。",
      Bad)
  ]

  /** One of the twelve traditional two-hour periods; `index` runs 1..12. */
  datatype HourSlot = HourSlot(name: string, range: string, index: int)

  const HOURS: seq<HourSlot> := [
    HourSlot("子时", "23:00-01:00", 1),
    HourSlot("丑时", "01:00-03:00", 2),
    HourSlot("寅时", "03:00-05:00", 3),
    HourSlot("卯时", "05:00-07:00", 4),
    HourSlot("辰时", "07:00-09:00", 5),
    HourSlot("巳时", "09:00-11:00", 6),
    HourSlot("午时", "11:00-13:00", 7),
    HourSlot("未时", "13:00-15:00", 8),
    HourSlot("申时", "15:00-17:00", 9),
    HourSlot("酉时", "17:00-19:00", 10),
    HourSlot("戌时", "19:00-21:00", 11),
    HourSlot("亥时", "21:00-23:00", 12)
  ]

  /** The landing of one counting step. */
  datatype Landing = Landing(value: int, godIndex: int, god: God)

  /** The landing of the last step, which also carries a label. */
  datatype HourLanding = HourLanding(value: int, name: string, godIndex: int, god: God)

  datatype CalculationResult = CalculationResult(
    month: Landing,
    day: Landing,
    hour: HourLanding,
    finalGod: God)

  /** `i` is a ring position and `g` is the spirit listed there. */
  predicate LandsOn(i: int, g: God) {
    0 <= i < |GODS| && g == GODS[i]
  }

  /**
   * JavaScript's `a % 6` on integers: the remainder takes the sign of the
   * dividend, unlike Dafny's `%`, whose remainder is never negative. The
   * two agree exactly when the dividend is not negative.
   */
  function JsRem6(a: int): (r: int)
    ensures -6 < r < 6
    ensures a >= 0 ==> r == a % 6
    ensures a < 0 ==> r == (if a % 6 == 0 then 0 else a % 6 - 6)
  {
    if a >= 0 then a % 6 else -((-a) % 6)
  }

  /**
   * The optional lookup `HOURS[hourIndex - 1]`: absent outside 1..12.
   */
  function HourSlotAt(hourIndex: int): (r: Option<HourSlot>)
    ensures r.Some? <==> 1 <= hourIndex <= 12
    ensures r.Some? ==> r.value == HOURS[hourIndex - 1]
    ensures r.Some? ==> r.value.index == hourIndex && r.value.name != ""
  {
    if 1 <= hourIndex <= |HOURS| then Some(HOURS[hourIndex - 1]) else None
  }

  /** `hourInfo?.name || ''`: the period's name, or the empty label. */
  function HourLabel(hourIndex: int): (name: string)
    ensures 1 <= hourIndex <= 12 ==> name == HOURS[hourIndex - 1].name && name != ""
    ensures !(1 <= hourIndex <= 12) ==> name == ""
    ensures name == (if HourSlotAt(hourIndex).Some? then HourSlotAt(hourIndex).value.name else "")
  {
    if 1 <= hourIndex <= |HOURS| then HOURS[hourIndex - 1].name else ""
  }

  /**
   * The position reached by counting `n` joints clockwise from `start`,
   * `start` itself being the first: `(start + n - 1) % 6`.
   */
  function Advance(start: int, n: int): (r: int)
    requires start >= 0 && n >= 1
    ensures 0 <= r < |GODS|
  {
    (start + n - 1) % 6
  }

  /**
   * Month, day and hour counted on the ring. The month count starts at
   * 大安, the day count at the month's landing, the hour count at the day's.
   */
  function Calculate(lunarMonth: int, lunarDay: int, hourIndex: int): (r: CalculationResult)
    requires lunarMonth >= 1 && lunarDay >= 1 && hourIndex >= 1
    ensures r.month.value == lunarMonth && r.day.value == lunarDay && r.hour.value == hourIndex
    ensures LandsOn(r.month.godIndex, r.month.god)
    ensures LandsOn(r.day.godIndex, r.day.god)
    ensures LandsOn(r.hour.godIndex, r.hour.god)
    ensures r.finalGod == r.hour.god == GODS[r.hour.godIndex]
    ensures r.month.godIndex == (lunarMonth - 1) % 6
    ensures r.day.godIndex == (r.month.godIndex + lunarDay - 1) % 6
    ensures r.hour.godIndex == (r.day.godIndex + hourIndex - 1) % 6
    ensures r.hour.name == HourLabel(hourIndex)
  {
    // Every operand is non-negative here, where JavaScript's `%` is `JsRem6`
    // and agrees with Dafny's.
    var monthGodIndex := Advance(0, lunarMonth);
    var dayGodIndex := Advance(monthGodIndex, lunarDay);
    var hourGodIndex := Advance(dayGodIndex, hourIndex);
    CalculationResult(
      Landing(lunarMonth, monthGodIndex, GODS[monthGodIndex]),
      Landing(lunarDay, dayGodIndex, GODS[dayGodIndex]),
      HourLanding(hourIndex, HourLabel(hourIndex), hourGodIndex, GODS[hourGodIndex]),
      GODS[hourGodIndex])
  }

  /**
   * The same walk driven by three arbitrary numbers; the last step is
   * labelled 第三数 ("third number") instead of a period name.
   */
  function CalculateByNumbers(num1: int, num2: int, num3: int): (r: CalculationResult)
    requires num1 >= 1 && num2 >= 1 && num3 >= 1
    ensures r.hour.name == "第三数"
    ensures var c := Calculate(num1, num2, num3);
      r == c.(hour := c.hour.(name := "第三数"))
  {
    var monthGodIndex := Advance(0, num1);
    var dayGodIndex := Advance(monthGodIndex, num2);
    var hourGodIndex := Advance(dayGodIndex, num3);
    CalculationResult(
      Landing(num1, monthGodIndex, GODS[monthGodIndex]),
      Landing(num2, dayGodIndex, GODS[dayGodIndex]),
      HourLanding(num3, "第三数", hourGodIndex, GODS[hourGodIndex]),
      GODS[hourGodIndex])
  }

  /**
   * Civil hour to period index: 子时 wraps midnight (23 and 0), then each
   * following period covers two civil hours. Anything not matched by an
   * earlier guard falls through to 亥时.
   */
  function GetHourIndex(hour: int): (r: int)
    ensures 1 <= r <= 12
    ensures hour == 23 || hour == 0 ==> r == 1
    ensures 1 <= hour <= 22 ==> r == (hour + 1) / 2 + 1
    ensures hour < 0 || hour > 23 ==> r == 12
  {
    if hour == 23 || hour == 0 then 1
    else if 1 <= hour < 3 then 2
    else if 3 <= hour < 5 then 3
    else if 5 <= hour < 7 then 4
    else if 7 <= hour < 9 then 5
    else if 9 <= hour < 11 then 6
    else if 11 <= hour < 13 then 7
    else if 13 <= hour < 15 then 8
    else if 15 <= hour < 17 then 9
    else if 17 <= hour < 19 then 10
    else if 19 <= hour < 21 then 11
    else 12
  }

  /**
   * `min + n % range` for an unsigned 32-bit random word `n`, as the
   * fallback and animation generators map it into [min, max]. `n` is never
   * negative, so JavaScript's `%` and Dafny's agree here.
   */
  function ScaleIntoRange(n: nat, min: int, max: int): (r: int)
    requires n < 0x1_0000_0000 && min <= max
    ensures min <= r <= max
    ensures n <= max - min ==> r == min + n
  {
    var range := max - min + 1;
    min + n % range
  }
}
