/**
 * What the ring walk and its two tables promise: the modular arithmetic is
 * the same as counting joints on the palm, the ring has period six, the
 * tables hold the traditional order, and the civil-hour mapping agrees with
 * the clock ranges printed in the hour table.
 */
module XiaoLiuProperties {
  import opened XiaoLiu
  import opened RingArith

  // ---------------------------------------------------------------------
  // Counting on the palm: the reference the modular arithmetic implements

  /** The next joint clockwise; 空亡 is followed by 大安 again. */
  function Clockwise(i: int): (j: int)
    requires 0 <= i < 6
    ensures 0 <= j < 6
    ensures j != i
    ensures j == 0 <==> i == 5
  {
    if i == 5 then 0 else i + 1
  }

  /**
   * The joint reached when counting `n` joints clockwise, calling the
   * starting joint "one" (so a count of one stays where it starts).
   */
  ghost function CountFrom(start: int, n: int): (i: int)
    requires 0 <= start < 6 && n >= 1
    ensures 0 <= i < 6
    decreases n
  {
    if n == 1 then start else Clockwise(CountFrom(start, n - 1))
  }

  /** Counting `n` joints from `start` lands on `(start + n - 1) % 6`. */
  lemma {:induction false} CountFromIsRemainder(start: int, n: int)
    requires 0 <= start < 6 && n >= 1
    ensures CountFrom(start, n) == (start + n - 1) % 6
    decreases n
  {
    if n > 1 {
      CountFromIsRemainder(start, n - 1);
      RemStep(start + n - 2);
    }
  }

  /** `Advance`, the step `Calculate` takes, is the count on the palm. */
  lemma AdvanceCountsOnThePalm(start: int, n: int)
    requires 0 <= start < 6 && n >= 1
    ensures Advance(start, n) == CountFrom(start, n)
  {
    CountFromIsRemainder(start, n);
  }

  /**
   * Each step of `Calculate` is a count on the palm: the month is counted
   * from 大安, the day from the month's landing, the hour from the day's.
   */
  lemma CalculateCountsOnThePalm(lunarMonth: int, lunarDay: int, hourIndex: int)
    requires lunarMonth >= 1 && lunarDay >= 1 && hourIndex >= 1
    ensures var r := Calculate(lunarMonth, lunarDay, hourIndex);
      && r.month.godIndex == CountFrom(0, lunarMonth)
      && r.day.godIndex == CountFrom(r.month.godIndex, lunarDay)
      && r.hour.godIndex == CountFrom(r.day.godIndex, hourIndex)
  {
    var r := Calculate(lunarMonth, lunarDay, hourIndex);
    StepsCount(lunarMonth, lunarDay, hourIndex, r.month.godIndex, r.day.godIndex, r.hour.godIndex);
  }

  /** Three chained remainders are three chained counts on the palm. */
  lemma StepsCount(m: int, d: int, h: int, i: int, j: int, k: int)
    requires m >= 1 && d >= 1 && h >= 1
    requires i == (m - 1) % 6 && j == (i + d - 1) % 6 && k == (j + h - 1) % 6
    ensures i == CountFrom(0, m) && j == CountFrom(i, d) && k == CountFrom(j, h)
  {
    CountFromIsRemainder(0, m);
    CountFromIsRemainder(i, d);
    CountFromIsRemainder(j, h);
  }

  /** Six counts bring any joint back to itself, and no fewer do. */
  lemma CountingSixReturns(start: int, k: int)
    requires 0 <= start < 6 && 1 <= k
    ensures CountFrom(start, k + 6) == CountFrom(start, k)
    ensures 0 < k < 6 ==> CountFrom(start, k + 1) != start
  {
    CountFromIsRemainder(start, k + 6);
    CountFromIsRemainder(start, k);
    CountFromIsRemainder(start, k + 1);
    RemPeriodic(start + k - 1);
    if 0 < k < 6 {
      RemMoves(start, k);
    }
  }

  // ---------------------------------------------------------------------
  // The closed form

  /** The three chained steps land where one count of `m + d + h - 2` from 大安 would. */
  lemma CalculateClosedForm(lunarMonth: int, lunarDay: int, hourIndex: int)
    requires lunarMonth >= 1 && lunarDay >= 1 && hourIndex >= 1
    ensures Calculate(lunarMonth, lunarDay, hourIndex).hour.godIndex
         == (lunarMonth + lunarDay + hourIndex - 3) % 6
  {
    var r := Calculate(lunarMonth, lunarDay, hourIndex);
    StepsAddUp(lunarMonth, lunarDay, hourIndex, r.month.godIndex, r.day.godIndex, r.hour.godIndex);
  }

  /** Chained remainders of the three counts equal the remainder of their sum. */
  lemma StepsAddUp(m: int, d: int, h: int, i: int, j: int, k: int)
    requires i == (m - 1) % 6 && j == (i + d - 1) % 6 && k == (j + h - 1) % 6
    ensures j == (m + d - 2) % 6
    ensures k == (m + d + h - 3) % 6
  {
    RemAbsorbs(m - 1, d - 1);
    RemAbsorbs(m + d - 2, h - 1);
  }

  // ---------------------------------------------------------------------
  // JavaScript's remainder

  /** Every step of `Calculate` is what JavaScript's `%` computes from the same operands. */
  lemma CalculateFollowsJsRemainder(lunarMonth: int, lunarDay: int, hourIndex: int)
    requires lunarMonth >= 1 && lunarDay >= 1 && hourIndex >= 1
    ensures var r := Calculate(lunarMonth, lunarDay, hourIndex);
      && r.month.godIndex == JsRem6(lunarMonth - 1)
      && r.day.godIndex == JsRem6(r.month.godIndex + lunarDay - 1)
      && r.hour.godIndex == JsRem6(r.day.godIndex + hourIndex - 1)
  {
  }

  /** Month 0, which the precondition excludes, would land JavaScript's remainder at -1, off the ring. */
  lemma MonthZeroFallsOffTheRing()
    ensures JsRem6(0 - 1) == -1
    ensures !(0 <= JsRem6(0 - 1) < |GODS|)
  {
  }

  /**
   * A month of 0 or less reaches the ring only when `month - 1` is a multiple
   * of six: JavaScript's remainder is then (minus) zero and reads `GODS[0]`;
   * otherwise it is negative and holds no spirit.
   */
  lemma NonPositiveMonthOnRing(lunarMonth: int)
    requires lunarMonth <= 0
    ensures 0 <= JsRem6(lunarMonth - 1) < |GODS| <==> (lunarMonth - 1) % 6 == 0
    ensures (lunarMonth - 1) % 6 == 0 ==> JsRem6(lunarMonth - 1) == 0
    ensures (lunarMonth - 1) % 6 != 0 ==> JsRem6(lunarMonth - 1) < 0
  {
  }

  // ---------------------------------------------------------------------
  // Period six

  /** Counting six more joints lands on the same position. */
  lemma AdvancePeriodic(start: int, n: int)
    requires start >= 0 && n >= 1
    ensures Advance(start, n + 6) == Advance(start, n)
  {
    RemPeriodic(start + n - 1);
  }

  /** Counting one to five more joints lands on another position. */
  lemma AdvanceMoves(start: int, n: int, k: int)
    requires start >= 0 && n >= 1 && 0 < k < 6
    ensures Advance(start, n + k) != Advance(start, n)
  {
    RemMoves(start + n - 1, k);
  }

  /** Adding six to the month leaves every landing unchanged. */
  lemma MonthHasPeriodSix(lunarMonth: int, lunarDay: int, hourIndex: int)
    requires lunarMonth >= 1 && lunarDay >= 1 && hourIndex >= 1
    ensures var r := Calculate(lunarMonth, lunarDay, hourIndex);
      var s := Calculate(lunarMonth + 6, lunarDay, hourIndex);
      && s.month == r.month.(value := lunarMonth + 6)
      && s.day == r.day && s.hour == r.hour && s.finalGod == r.finalGod
  {
    var r := Calculate(lunarMonth, lunarDay, hourIndex);
    var s := Calculate(lunarMonth + 6, lunarDay, hourIndex);
    AdvancePeriodic(0, lunarMonth);
    assert s.month.godIndex == r.month.godIndex;
  }

  /** Adding six to the day leaves every landing unchanged. */
  lemma DayHasPeriodSix(lunarMonth: int, lunarDay: int, hourIndex: int)
    requires lunarMonth >= 1 && lunarDay >= 1 && hourIndex >= 1
    ensures var r := Calculate(lunarMonth, lunarDay, hourIndex);
      var s := Calculate(lunarMonth, lunarDay + 6, hourIndex);
      && s.month == r.month && s.day == r.day.(value := lunarDay + 6)
      && s.hour == r.hour && s.finalGod == r.finalGod
  {
    var r := Calculate(lunarMonth, lunarDay, hourIndex);
    var s := Calculate(lunarMonth, lunarDay + 6, hourIndex);
    AdvancePeriodic(r.month.godIndex, lunarDay);
    assert s.day.godIndex == r.day.godIndex;
  }

  /** Adding six to the hour leaves every landing unchanged; only the hour's label may change. */
  lemma HourHasPeriodSix(lunarMonth: int, lunarDay: int, hourIndex: int)
    requires lunarMonth >= 1 && lunarDay >= 1 && hourIndex >= 1
    ensures var r := Calculate(lunarMonth, lunarDay, hourIndex);
      var s := Calculate(lunarMonth, lunarDay, hourIndex + 6);
      && s.month == r.month && s.day == r.day
      && s.hour.godIndex == r.hour.godIndex && s.hour.god == r.hour.god
      && s.finalGod == r.finalGod
  {
    var r := Calculate(lunarMonth, lunarDay, hourIndex);
    var s := Calculate(lunarMonth, lunarDay, hourIndex + 6);
    AdvancePeriodic(r.day.godIndex, hourIndex);
  }

  /** Six is the least period of the month: adding one to five moves its landing to another spirit. */
  lemma MonthHasNoShorterPeriod(lunarMonth: int, lunarDay: int, hourIndex: int, k: int)
    requires lunarMonth >= 1 && lunarDay >= 1 && hourIndex >= 1
    requires 0 < k < 6
    ensures Calculate(lunarMonth + k, lunarDay, hourIndex).month.god
         != Calculate(lunarMonth, lunarDay, hourIndex).month.god
  {
    var r := Calculate(lunarMonth, lunarDay, hourIndex);
    var s := Calculate(lunarMonth + k, lunarDay, hourIndex);
    AdvanceMoves(0, lunarMonth, k);
    SameSpiritSamePosition(s.month.godIndex, r.month.godIndex, s.month.god, r.month.god);
  }

  /** Six is the least period of the day: adding one to five moves its landing to another spirit. */
  lemma DayHasNoShorterPeriod(lunarMonth: int, lunarDay: int, hourIndex: int, k: int)
    requires lunarMonth >= 1 && lunarDay >= 1 && hourIndex >= 1
    requires 0 < k < 6
    ensures Calculate(lunarMonth, lunarDay + k, hourIndex).day.god
         != Calculate(lunarMonth, lunarDay, hourIndex).day.god
  {
    var r := Calculate(lunarMonth, lunarDay, hourIndex);
    var s := Calculate(lunarMonth, lunarDay + k, hourIndex);
    AdvanceMoves(r.month.godIndex, lunarDay, k);
    SameSpiritSamePosition(s.day.godIndex, r.day.godIndex, s.day.god, r.day.god);
  }

  /** Six is the least period of the hour: adding one to five changes the final spirit. */
  lemma HourHasNoShorterPeriod(lunarMonth: int, lunarDay: int, hourIndex: int, k: int)
    requires lunarMonth >= 1 && lunarDay >= 1 && hourIndex >= 1
    requires 0 < k < 6
    ensures Calculate(lunarMonth, lunarDay, hourIndex + k).finalGod
         != Calculate(lunarMonth, lunarDay, hourIndex).finalGod
  {
    var r := Calculate(lunarMonth, lunarDay, hourIndex);
    var s := Calculate(lunarMonth, lunarDay, hourIndex + k);
    AdvanceMoves(r.day.godIndex, hourIndex, k);
    SameSpiritSamePosition(s.hour.godIndex, r.hour.godIndex, s.finalGod, r.finalGod);
  }

  /** The final spirit depends on the inputs exactly through their sum modulo six. */
  lemma FinalDependsOnSum(m: int, d: int, h: int, m': int, d': int, h': int)
    requires m >= 1 && d >= 1 && h >= 1 && m' >= 1 && d' >= 1 && h' >= 1
    ensures (m + d + h) % 6 == (m' + d' + h') % 6
      <==> Calculate(m, d, h).finalGod == Calculate(m', d', h').finalGod
  {
    var r := Calculate(m, d, h);
    var s := Calculate(m', d', h');
    CalculateClosedForm(m, d, h);
    CalculateClosedForm(m', d', h');
    RemOffsetAgrees(m + d + h, m' + d' + h');
    SameSpiritSamePosition(r.hour.godIndex, s.hour.godIndex, r.finalGod, s.finalGod);
  }

  /** Two landings show the same spirit exactly when they are at the same position. */
  lemma SameSpiritSamePosition(i: int, j: int, g: God, h: God)
    requires LandsOn(i, g) && LandsOn(j, h)
    ensures g == h <==> i == j
  {
    GodsIndexed();
  }

  // ---------------------------------------------------------------------
  // The spirit table and the palm

  /** Six spirits, each carrying its own ring position as `index`. */
  lemma GodsIndexed()
    ensures |GODS| == 6
    ensures forall i :: 0 <= i < |GODS| ==> GODS[i].index == i
  {
  }

  /** The six spirits in their traditional order, with element and fortune. */
  lemma GodsTable()
    ensures [GODS[0].name, GODS[1].name, GODS[2].name, GODS[3].name, GODS[4].name, GODS[5].name]
         == ["大安", "留连", "速喜", "赤口", "小吉", "空亡"]
    ensures [GODS[0].element, GODS[1].element, GODS[2].element, GODS[3].element, GODS[4].element, GODS[5].element]
         == ["木", "水", "火", "金", "木", "土"]
    ensures [GODS[0].fortune, GODS[1].fortune, GODS[2].fortune, GODS[3].fortune, GODS[4].fortune, GODS[5].fortune]
         == [Good, Neutral, Good, Bad, Good, Bad]
  {
  }

  /** Name of a joint as the `position` field spells it. */
  function JointName(f: Finger, w: Row): (s: string)
    ensures |s| >= 4
  {
    (match f
     case IndexFinger => "食指"
     case MiddleFinger => "中指"
     case RingFinger => "无名指")
    + (match w
       case Top => "上节"
       case Bottom => "下节")
  }

  function FingerOrder(f: Finger): (k: int)
    ensures 0 <= k < 3
  {
    match f
    case IndexFinger => 0
    case MiddleFinger => 1
    case RingFinger => 2
  }

  /** Two joints are neighbours on the 3 x 2 palm grid. */
  predicate Neighbours(g: God, h: God) {
    || (g.finger == h.finger && g.row != h.row)
    || (g.row == h.row && (FingerOrder(g.finger) == FingerOrder(h.finger) + 1
                           || FingerOrder(h.finger) == FingerOrder(g.finger) + 1))
  }

  /**
   * The first spirit in `gods` sitting on joint (`f`, `w`), as the palm
   * diagram's search finds it.
   */
  function FindAtJoint(gods: seq<God>, f: Finger, w: Row): (r: Option<God>)
    ensures r.Some? ==> r.value in gods && r.value.finger == f && r.value.row == w
    ensures r.Some? ==>
      exists i :: 0 <= i < |gods| && gods[i] == r.value && gods[i].finger == f && gods[i].row == w
        && forall j :: 0 <= j < i ==> !(gods[j].finger == f && gods[j].row == w)
    ensures r.None? ==> forall i :: 0 <= i < |gods| ==> !(gods[i].finger == f && gods[i].row == w)
  {
    if gods == [] then None
    else if gods[0].finger == f && gods[0].row == w then Some(gods[0])
    else FindAtJoint(gods[1..], f, w)
  }

  /** No two spirits share a joint. */
  lemma JointsAreDistinct()
    ensures forall i, j :: 0 <= i < j < |GODS| ==>
      GODS[i].finger != GODS[j].finger || GODS[i].row != GODS[j].row
  {
  }

  /**
   * Every joint of the palm holds exactly one spirit: the search always
   * finds one, and it is the only spirit on that joint.
   */
  lemma EveryJointHoldsOneGod(f: Finger, w: Row)
    ensures FindAtJoint(GODS, f, w).Some?
    ensures forall i :: 0 <= i < |GODS| && GODS[i].finger == f && GODS[i].row == w ==>
      GODS[i] == FindAtJoint(GODS, f, w).value
  {
    JointsAreDistinct();
    var i := match (f, w)
      case (IndexFinger, Bottom) => 0
      case (IndexFinger, Top) => 1
      case (MiddleFinger, Top) => 2
      case (RingFinger, Top) => 3
      case (RingFinger, Bottom) => 4
      case (MiddleFinger, Bottom) => 5;
    assert GODS[i].finger == f && GODS[i].row == w;
  }

  /** Each `position` string names the joint the spirit sits on. */
  lemma PositionsNameJoints()
    ensures forall i :: 0 <= i < |GODS| ==> GODS[i].position == JointName(GODS[i].finger, GODS[i].row)
  {
  }

  /** One count clockwise always moves to a neighbouring joint: the walk goes round the palm's edge. */
  lemma ClockwiseGoesRoundThePalm()
    ensures forall i :: 0 <= i < 6 ==> Neighbours(GODS[i], GODS[Clockwise(i)])
  {
  }

  // ---------------------------------------------------------------------
  // The hour table and the civil-hour mapping

  /** The civil hour at which period `k` (1..12) begins: 23 for 子时, then every two hours. */
  function SlotStart(k: int): (h: int)
    requires 1 <= k <= 12
    ensures 0 <= h < 24 && h % 2 == 1
  {
    (2 * k + 21) % 24
  }

  /** The hour written by the two digits at position `i` of `s` ("23:00" reads as 23 at 0). */
  function ClockHourAt(s: string, i: int): (h: int)
    requires 0 <= i && i + 2 <= |s| && '0' <= s[i] <= '9' && '0' <= s[i + 1] <= '9'
    ensures 0 <= h < 100
  {
    (s[i] as int - '0' as int) * 10 + (s[i + 1] as int - '0' as int)
  }

  /** Twelve periods numbered 1..12, running from 子时 (23:00-01:00) to 亥时 (21:00-23:00). */
  lemma HoursTable()
    ensures |HOURS| == 12
    ensures forall i :: 0 <= i < |HOURS| ==> HOURS[i].index == i + 1
    ensures HOURS[0].name == "子时" && HOURS[0].range == "23:00-01:00"
    ensures HOURS[11].name == "亥时" && HOURS[11].range == "21:00-23:00"
  {
  }

  /** `r` shows the full hour "HH:00" at position `i`, and HH is `h`. */
  predicate ShowsHourAt(r: string, i: int, h: int) {
    && 0 <= i && i + 5 <= |r|
    && '0' <= r[i] <= '9' && '0' <= r[i + 1] <= '9'
    && r[i + 2] == ':' && r[i + 3] == '0' && r[i + 4] == '0'
    && ClockHourAt(r, i) == h
  }

  /** The printed range of period `k` begins at `SlotStart(k)`. */
  lemma HourRangeStartsAtSlot(k: int)
    requires 1 <= k <= 12
    ensures ShowsHourAt(HOURS[k - 1].range, 0, SlotStart(k))
  {
    var r := HOURS[k - 1].range;
    if k == 1 { assert r == "23:00-01:00"; assert SlotStart(k) == 23; }
    else if k == 2 { assert r == "01:00-03:00"; assert SlotStart(k) == 1; }
    else if k == 3 { assert r == "03:00-05:00"; assert SlotStart(k) == 3; }
    else if k == 4 { assert r == "05:00-07:00"; assert SlotStart(k) == 5; }
    else if k == 5 { assert r == "07:00-09:00"; assert SlotStart(k) == 7; }
    else if k == 6 { assert r == "09:00-11:00"; assert SlotStart(k) == 9; }
    else if k == 7 { assert r == "11:00-13:00"; assert SlotStart(k) == 11; }
    else if k == 8 { assert r == "13:00-15:00"; assert SlotStart(k) == 13; }
    else if k == 9 { assert r == "15:00-17:00"; assert SlotStart(k) == 15; }
    else if k == 10 { assert r == "17:00-19:00"; assert SlotStart(k) == 17; }
    else if k == 11 { assert r == "19:00-21:00"; assert SlotStart(k) == 19; }
    else { assert r == "21:00-23:00"; assert SlotStart(k) == 21; }
  }

  /** The printed range of period `k` ends "-HH:00", two hours after `SlotStart(k)` on a 24-hour clock. */
  lemma HourRangeEndsTwoHoursLater(k: int)
    requires 1 <= k <= 12
    ensures |HOURS[k - 1].range| == 11 && HOURS[k - 1].range[5] == '-'
    ensures ShowsHourAt(HOURS[k - 1].range, 6, (SlotStart(k) + 2) % 24)
  {
    var r := HOURS[k - 1].range;
    if k == 1 { assert r == "23:00-01:00"; }
    else if k == 2 { assert r == "01:00-03:00"; }
    else if k == 3 { assert r == "03:00-05:00"; }
    else if k == 4 { assert r == "05:00-07:00"; }
    else if k == 5 { assert r == "07:00-09:00"; }
    else if k == 6 { assert r == "09:00-11:00"; }
    else if k == 7 { assert r == "11:00-13:00"; }
    else if k == 8 { assert r == "13:00-15:00"; }
    else if k == 9 { assert r == "15:00-17:00"; }
    else if k == 10 { assert r == "17:00-19:00"; }
    else if k == 11 { assert r == "19:00-21:00"; }
    else { assert r == "21:00-23:00"; }
  }

  /**
   * Every civil hour lies in the period `GetHourIndex` names: it is that
   * period's first or second hour.
   */
  lemma HourFallsInItsPeriod(hour: int)
    requires 0 <= hour < 24
    ensures var k := GetHourIndex(hour);
      hour == SlotStart(k) || hour == (SlotStart(k) + 1) % 24
  {
  }

  /**
   * Conversely, both hours of period `k` map to `k`, so each period is the
   * image of exactly its two civil hours.
   */
  lemma PeriodHoursMapBack(k: int)
    requires 1 <= k <= 12
    ensures GetHourIndex(SlotStart(k)) == k
    ensures GetHourIndex((SlotStart(k) + 1) % 24) == k
  {
    if k == 1 {
      assert SlotStart(k) == 23 && (SlotStart(k) + 1) % 24 == 0;
    } else {
      var h := 2 * k - 3;
      assert SlotStart(k) == h && (SlotStart(k) + 1) % 24 == h + 1;
      assert (h + 1) / 2 + 1 == k && (h + 2) / 2 + 1 == k;
    }
  }

  /** `GetHourIndex` equals the closed form `((hour + 1) % 24) / 2 + 1` on a civil day. */
  lemma HourIndexClosedForm(hour: int)
    requires 0 <= hour < 24
    ensures GetHourIndex(hour) == ((hour + 1) % 24) / 2 + 1
  {
  }

  /**
   * The label lookup done after converting a civil hour never misses:
   * every hour of the day has a named period whose index is the one
   * computed.
   */
  lemma CivilHourHasLabel(hour: int)
    requires 0 <= hour < 24
    ensures HourSlotAt(GetHourIndex(hour)).Some?
    ensures HourSlotAt(GetHourIndex(hour)).value == HOURS[GetHourIndex(hour) - 1]
    ensures HourLabel(GetHourIndex(hour)) != ""
  {
  }

  // ---------------------------------------------------------------------
  // Worked cases

  /** Whole readings: month, day and hour landings of a few dates. */
  lemma CalculateExamples()
    ensures var r := Calculate(12, 25, 9);
      r.month.god.name == "空亡" && r.day.god.name == "空亡" && r.hour.god.name == "留连"
      && r.finalGod.name == "留连" && r.hour.name == "申时"
    ensures var r := Calculate(6, 6, 6);
      r.month.god.name == "空亡" && r.day.god.name == "小吉" && r.hour.god.name == "赤口"
    ensures var r := Calculate(12, 30, 12);
      r.month.god.name == "空亡" && r.day.god.name == "小吉" && r.hour.god.name == "赤口"
    ensures var r := Calculate(1, 30, 1);
      r.day.god.name == "空亡" && r.hour.god.name == "空亡"
  {
  }

  /** The hour step and its period label, from 子时 to 亥时. */
  lemma CalculateHourExamples()
    ensures var r := Calculate(1, 1, 1);
      r.hour.godIndex == 0 && r.hour.name == "子时" && r.finalGod.name == "大安"
    ensures var r := Calculate(1, 1, 12);
      r.hour.godIndex == 5 && r.hour.name == "亥时" && r.finalGod.name == "空亡"
    ensures var r := Calculate(2, 3, 7);
      r.hour.godIndex == 3 && r.hour.name == "午时" && r.finalGod.name == "赤口"
  {
  }

  /** An hour index outside 1..12 gets the empty label but is still counted. */
  lemma CalculateOutOfRangeHour()
    ensures var r := Calculate(1, 1, 99);
      r.hour.name == "" && r.hour.godIndex == 2 && r.finalGod.name == "速喜"
  {
  }

  /** The midnight wrap and the last period of the civil day. */
  lemma GetHourIndexExamples()
    ensures GetHourIndex(23) == 1 && GetHourIndex(0) == 1
    ensures GetHourIndex(1) == 2 && GetHourIndex(12) == 7
    ensures GetHourIndex(21) == 12 && GetHourIndex(22) == 12
  {
  }
}
