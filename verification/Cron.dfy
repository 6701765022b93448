/** Cron expressions: when a local time matches, and that every accepted rule can match. */
module Cron {
  import opened Domain
  import opened Text
  import opened CronFields
  import opened Calendar

  datatype Expression = Expression(
    minute: CronField, hour: CronField, dayOfMonth: CronField, month: CronField, dayOfWeek: CronField)

  /** The local fields of one instant that cron looks at. */
  datatype Local = Local(minute: int, hour: int, day: int, month: int, weekday: int)

  predicate Matches(e: Expression, l: Local) {
    if l.minute !in e.minute.allowed || l.hour !in e.hour.allowed || l.month !in e.month.allowed then false
    else
      var dom := l.day in e.dayOfMonth.allowed;
      var dow := l.weekday in e.dayOfWeek.allowed;
      if e.dayOfMonth.wildcard && e.dayOfWeek.wildcard then true
      else if e.dayOfMonth.wildcard then dow
      else if e.dayOfWeek.wildcard then dom
      else dom || dow
  }

  ghost predicate WellFormed(e: Expression) {
    && WellFormedField(e.minute, MINUTE) && WellFormedField(e.hour, HOUR)
    && WellFormedField(e.dayOfMonth, DAY) && WellFormedField(e.month, MONTH) && WellFormedField(e.dayOfWeek, WEEKDAY)
  }

  predicate ProperLocal(l: Local) {
    && InField(MINUTE, l.minute) && InField(HOUR, l.hour) && InField(DAY, l.day)
    && InField(MONTH, l.month) && InField(WEEKDAY, l.weekday)
  }

  /** The day rule: both day fields must agree if either is a wildcard, one suffices if both are restricted. */
  lemma DayRule(e: Expression, l: Local)
    requires WellFormed(e) && ProperLocal(l)
    ensures Matches(e, l) <==>
              && l.minute in e.minute.allowed && l.hour in e.hour.allowed && l.month in e.month.allowed
              && (if e.dayOfMonth.wildcard || e.dayOfWeek.wildcard
                then l.day in e.dayOfMonth.allowed && l.weekday in e.dayOfWeek.allowed
                else l.day in e.dayOfMonth.allowed || l.weekday in e.dayOfWeek.allowed)
  {
  }

  // ---- Calendar feasibility --------------------------------------------------------------------

  /** Day d is allowed in an allowed month m of a leap year. */
  predicate PossibleDay(e: Expression, m: int, d: int) {
    1 <= m <= 12 && m in e.month.allowed && 1 <= d <= DaysInMonth(true, m) && d in e.dayOfMonth.allowed
  }

  ghost predicate Feasible(e: Expression) {
    !e.dayOfWeek.wildcard || e.dayOfMonth.wildcard || exists m, d :: PossibleDay(e, m, d)
  }

  method HasPossibleCalendarDate(e: Expression) returns (b: bool)
    ensures b <==> Feasible(e)
  {
    if !e.dayOfWeek.wildcard || e.dayOfMonth.wildcard {
      return true;
    }
    var month := 1;
    while month <= 12
      invariant 1 <= month <= 13
      invariant forall m, d | m < month :: !PossibleDay(e, m, d)
    {
      if month in e.month.allowed {
        var maximumDay := DaysInMonth(Leap(2000), month);
        var day := 1;
        while day <= maximumDay
          invariant 1 <= day <= maximumDay + 1
          invariant forall d | d < day :: !PossibleDay(e, month, d)
        {
          if day in e.dayOfMonth.allowed {
            assert PossibleDay(e, month, day);
            return true;
          }
          day := day + 1;
        }
      }
      month := month + 1;
    }
    return false;
  }

  // ---- Parsing a rule --------------------------------------------------------------------------

  const DESCRIPTORS: map<string, string> := map[
    "@yearly" := "0 0 1 1 *", "@annually" := "0 0 1 1 *", "@monthly" := "0 0 1 * *", "@weekly" := "0 0 * * 0",
    "@daily" := "0 0 * * *", "@midnight" := "0 0 * * *", "@hourly" := "0 * * * *"]

  /** A descriptor, in any letter case and with any blanks around it, stands for its five fields. */
  function Expanded(rule: string): string {
    var trimmed := Trim(rule);
    if Lower(trimmed) in DESCRIPTORS then DESCRIPTORS[Lower(trimmed)] else trimmed
  }

  function RuleFields(rule: string): seq<string> {
    Fields(Expanded(rule), "")
  }

  ghost predicate IsExpressionOf(e: Expression, parts: seq<string>) {
    && |parts| == 5
    && IsFieldOf(e.minute, parts[0], MINUTE) && IsFieldOf(e.hour, parts[1], HOUR)
    && IsFieldOf(e.dayOfMonth, parts[2], DAY) && IsFieldOf(e.month, parts[3], MONTH)
    && IsFieldOf(e.dayOfWeek, parts[4], WEEKDAY)
  }

  predicate FieldsParse(parts: seq<string>) {
    && |parts| == 5
    && FieldParses(parts[0], MINUTE) && FieldParses(parts[1], HOUR)
    && FieldParses(parts[2], DAY) && FieldParses(parts[3], MONTH) && FieldParses(parts[4], WEEKDAY)
  }

  /** Accepts a rule exactly when its five fields parse and some calendar date is possible. */
  method ParseCron(rule: string) returns (r: Option<Expression>)
    ensures r.Some? ==> IsExpressionOf(r.value, RuleFields(rule)) && WellFormed(r.value) && Feasible(r.value)
    ensures r.None? ==>
              || !FieldsParse(RuleFields(rule))
              || exists e :: IsExpressionOf(e, RuleFields(rule)) && !Feasible(e)
  {
    var parts := RuleFields(rule);
    r := ParseParts(parts);
  }

  method ParseParts(parts: seq<string>) returns (r: Option<Expression>)
    ensures r.Some? ==> IsExpressionOf(r.value, parts) && WellFormed(r.value) && Feasible(r.value)
    ensures r.None? ==> !FieldsParse(parts) || exists e :: IsExpressionOf(e, parts) && !Feasible(e)
  {
    if |parts| != 5 {
      return None;
    }
    var minute := ParseCronField(parts[0], MINUTE);
    if minute.None? { return None; }
    var hour := ParseCronField(parts[1], HOUR);
    if hour.None? { return None; }
    var dayOfMonth := ParseCronField(parts[2], DAY);
    if dayOfMonth.None? { return None; }
    var month := ParseCronField(parts[3], MONTH);
    if month.None? { return None; }
    var dayOfWeek := ParseCronField(parts[4], WEEKDAY);
    if dayOfWeek.None? { return None; }
    var e := Expression(minute.value, hour.value, dayOfMonth.value, month.value, dayOfWeek.value);
    assert IsExpressionOf(e, parts);
    var possible := HasPossibleCalendarDate(e);
    if !possible {
      return None;
    }
    PartsAreWellFormed(e, parts);
    return Some(e);
  }

  lemma PartsAreWellFormed(e: Expression, parts: seq<string>)
    requires IsExpressionOf(e, parts)
    ensures WellFormed(e)
  {
    ParsedFieldIsWellFormed(e.minute, parts[0], MINUTE);
    ParsedFieldIsWellFormed(e.hour, parts[1], HOUR);
    ParsedFieldIsWellFormed(e.dayOfMonth, parts[2], DAY);
    ParsedFieldIsWellFormed(e.month, parts[3], MONTH);
    ParsedFieldIsWellFormed(e.dayOfWeek, parts[4], WEEKDAY);
  }

  /** A rule that is no descriptor is read word by word, however its words are spaced. */
  lemma SpacedRuleIsRead(words: seq<string>, gaps: seq<string>)
    requires |gaps| == |words| + 1 && Words(words) && forall i | 0 <= i < |gaps| :: AllBlank(gaps[i])
    requires forall i | 0 < i < |words| :: gaps[i] != ""
    ensures Lower(Trim(Spaced(words, gaps))) !in DESCRIPTORS ==> RuleFields(Spaced(words, gaps)) == words
  {
    TrimKeepsFields(Spaced(words, gaps));
    FieldsReadsWords(words, gaps);
  }

  // ---- UTC -------------------------------------------------------------------------------------

  /** Day number of 1970-01-01, where minutes are counted from. */
  const EPOCH_DAY := 719528

  function MinuteOf(d: Date, hour: int, minute: int): int
    requires 1 <= d.month <= 12
  {
    (DayNumber(d) - EPOCH_DAY) * 1440 + hour * 60 + minute
  }

  function UtcDay(u: int): int {
    u / 1440 + EPOCH_DAY
  }

  function UtcLocal(u: int): Local {
    var d := DateOf(UtcDay(u));
    Local(u % 60, u % 1440 / 60, d.day, d.month, Weekday(UtcDay(u)))
  }

  lemma SplitMinutes(day: int, hour: int, minute: int)
    requires 0 <= hour < 24 && 0 <= minute < 60
    ensures var u := day * 1440 + hour * 60 + minute;
            u / 1440 == day && u % 1440 / 60 == hour && u % 60 == minute
  {
    var u := day * 1440 + hour * 60 + minute;
    var r := hour * 60 + minute;
    assert u == 1440 * day + r && 0 <= r < 1440;
    assert u / 1440 == day && u % 1440 == r;
    assert r / 60 == hour;
    assert u == 60 * (24 * day + hour) + minute;
  }

  lemma UtcLocalOf(d: Date, hour: int, minute: int)
    requires ValidDate(d) && 0 <= hour < 24 && 0 <= minute < 60
    ensures UtcDay(MinuteOf(d, hour, minute)) == DayNumber(d)
    ensures UtcLocal(MinuteOf(d, hour, minute)) == Local(minute, hour, d.day, d.month, Weekday(DayNumber(d)))
  {
    DayOfDate(d);
    SplitMinutes(DayNumber(d) - EPOCH_DAY, hour, minute);
  }

  /** Minute 0 is the midnight that begins Thursday, 1 January 1970. */
  lemma EpochIsThursday(d: Date)
    requires d == Date(1970, 1, 1)
    ensures MinuteOf(d, 0, 0) == 0 && UtcLocal(MinuteOf(d, 0, 0)) == Local(0, 0, 1, 1, 4)
  {
    assert YearStart(d.year) == EPOCH_DAY;
    UtcLocalOf(d, 0, 0);
  }

  /** The day rule for every UTC minute: fields, date and weekday of the minute decide, as DayRule says. */
  lemma UtcDayRule(e: Expression, u: int)
    requires WellFormed(e)
    ensures var d := DateOf(UtcDay(u));
            var w := Weekday(UtcDay(u));
            ValidDate(d) && (Matches(e, UtcLocal(u)) <==>
              && u % 60 in e.minute.allowed && u % 1440 / 60 in e.hour.allowed && d.month in e.month.allowed
              && (if e.dayOfMonth.wildcard || e.dayOfWeek.wildcard
                then d.day in e.dayOfMonth.allowed && w in e.dayOfWeek.allowed
                else d.day in e.dayOfMonth.allowed || w in e.dayOfWeek.allowed))
  {
    DateOfDay(UtcDay(u));
    DayRule(e, UtcLocal(u));
  }

  /** candidate.AddDate(10, 0, 0): same clock time and day number, normalized into March for 29 February. */
  function TenYearsLater(u: int): int {
    var d := DateOf(UtcDay(u));
    DateOfDay(UtcDay(u));
    MinuteOf(Date(d.year + 10, d.month, d.day), 0, 0) + u % 1440
  }

  /** An overlong 29 February is 1 March. */
  lemma OverlongDay(d: Date)
    requires 1 <= d.month <= 12 && (ValidDate(d) || (d.month == 2 && d.day == 29))
    ensures var f := if ValidDate(d) then d else Date(d.year, 3, 1);
            DayNumber(d) == DayNumber(f)
  {
    assert MonthStart(Leap(d.year), 3) == MonthStart(Leap(d.year), 2) + DaysInMonth(Leap(d.year), 2);
  }

  /** Ten years later is the same date and time ten years on, or 1 March where that year has no 29 February. */
  lemma TenYearsLaterIsDate(d: Date, hour: int, minute: int)
    requires ValidDate(d) && 0 <= hour < 24 && 0 <= minute < 60
    ensures var e := Date(d.year + 10, d.month, d.day);
            var f := if ValidDate(e) then e else Date(d.year + 10, 3, 1);
            TenYearsLater(MinuteOf(d, hour, minute)) == MinuteOf(f, hour, minute)
  {
    var u := MinuteOf(d, hour, minute);
    UtcLocalOf(d, hour, minute);
    DayOfDate(d);
    OverlongDay(Date(d.year + 10, d.month, d.day));
    MinutesOfDay(u, DayNumber(d) - EPOCH_DAY, hour, minute);
  }

  lemma MinutesOfDay(u: int, day: int, hour: int, minute: int)
    requires u == day * 1440 + hour * 60 + minute && 0 <= hour < 24 && 0 <= minute < 60
    ensures u % 1440 == hour * 60 + minute
  {
  }

  /** Every day of the nine calendar years after the one of `c` lies after `c` and before ten years later. */
  lemma LaterDaysAreWithin(c: Date, d: Date)
    requires ValidDate(c) && ValidDate(d) && c.year < d.year <= c.year + 9
    ensures DayNumber(c) < DayNumber(d) < DayNumber(Date(c.year + 10, c.month, c.day))
  {
    DayOfDateInYear(c);
    DayOfDateInYear(d);
    YearStartsIncrease(c.year + 1, d.year);
    YearStartsIncrease(d.year + 1, c.year + 10);
    NotBeforeYear(Date(c.year + 10, c.month, c.day));
  }

  lemma NotBeforeYear(d: Date)
    requires 1 <= d.month <= 12 && 1 <= d.day
    ensures YearStart(d.year) <= DayNumber(d)
  {
    MonthStartsIncrease(Leap(d.year), 1, d.month);
  }

  lemma LaterYearsAreWithin(u: int, d: Date, hour: int, minute: int)
    requires ValidDate(d) && 0 <= hour < 24 && 0 <= minute < 60
    requires var y := DateOf(UtcDay(u)).year; y < d.year <= y + 9
    ensures u <= MinuteOf(d, hour, minute) <= TenYearsLater(u)
  {
    var c := DateOf(UtcDay(u));
    DateOfDay(UtcDay(u));
    LaterDaysAreWithin(c, d);
    MinutesBetween(u, UtcDay(u) - EPOCH_DAY, DayNumber(d) - EPOCH_DAY,
      DayNumber(Date(c.year + 10, c.month, c.day)) - EPOCH_DAY, hour * 60 + minute);
  }

  lemma MinutesBetween(u: int, a: int, b: int, c: int, r: int)
    requires a == u / 1440 && a < b < c && 0 <= r < 1440
    ensures u <= b * 1440 + r <= c * 1440 + u % 1440
  {
  }

  /** A matching date of an accepted rule in one of the nine years after y. */
  lemma MatchingDate(e: Expression, y: int) returns (d: Date)
    requires WellFormed(e) && Feasible(e)
    ensures ValidDate(d) && y < d.year <= y + 9 && d.month in e.month.allowed
    ensures forall hour, minute :: hour in e.hour.allowed && minute in e.minute.allowed ==>
              Matches(e, Local(minute, hour, d.day, d.month, Weekday(DayNumber(d))))
  {
    if e.dayOfWeek.wildcard && !e.dayOfMonth.wildcard {
      var m, day :| PossibleDay(e, m, day);
      var year := y + 1;
      if day > DaysInMonth(Leap(year), m) {
        year := LeapYearWithinEight(y);
      }
      d := Date(year, m, day);
    } else {
      var m := AllowedMonth(e);
      var w := AllowedWeekday(e);
      var day := WeekdayInMonth(y + 1, m, w);
      d := Date(y + 1, m, day);
    }
  }

  lemma AllowedMonth(e: Expression) returns (m: int)
    requires WellFormed(e)
    ensures m in e.month.allowed && 1 <= m <= 12
  {
    m :| m in e.month.allowed;
  }

  lemma AllowedWeekday(e: Expression) returns (w: int)
    requires WellFormed(e)
    ensures w in e.dayOfWeek.allowed && 0 <= w <= 6
  {
    w :| w in e.dayOfWeek.allowed;
  }

  /** Every rule the parser accepts matches some UTC minute within ten years of any start. */
  lemma AcceptedRuleMatches(e: Expression, u: int) returns (t: int)
    requires WellFormed(e) && Feasible(e)
    ensures u <= t <= TenYearsLater(u) && Matches(e, UtcLocal(t))
  {
    var hour :| hour in e.hour.allowed;
    var minute :| minute in e.minute.allowed;
    var d := MatchingDate(e, DateOf(UtcDay(u)).year);
    t := MinuteOf(d, hour, minute);
    UtcLocalOf(d, hour, minute);
    LaterYearsAreWithin(u, d, hour, minute);
  }
}
