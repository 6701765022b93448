/** The RFC 3339 rendering of an instant that ends a seed, and that it loses nothing. */
module Stamp {
  import opened Domain
  import opened Text
  import opened Calendar
  import opened Cron
  import opened Planner
  import opened Protocol
  import opened Identity

  // ---- Numerals --------------------------------------------------------------------------------

  /** The last `width` decimal digits of n. */
  function Padded(n: int, width: nat): (s: string)
    requires n >= 0
    ensures |s| == width
    decreases width
  {
    if width == 0 then "" else Padded(n / 10, width - 1) + [('0' as int + n % 10) as char]
  }

  function Pow10(k: nat): int {
    if k == 0 then 1 else 10 * Pow10(k - 1)
  }

  lemma {:induction false} PaddedIsRead(n: int, width: nat)
    requires 0 <= n < Pow10(width)
    ensures forall i | 0 <= i < width :: '0' <= Padded(n, width)[i] <= '9'
    ensures DecimalValue(Padded(n, width)) == n
  {
    if width > 0 {
      PaddedIsRead(n / 10, width - 1);
      assert Padded(n, width)[..width - 1] == Padded(n / 10, width - 1);
    }
  }

  lemma PaddedIsInjective(a: int, b: int, width: nat)
    requires 0 <= a < Pow10(width) && 0 <= b < Pow10(width) && Padded(a, width) == Padded(b, width)
    ensures a == b
  {
    PaddedIsRead(a, width);
    PaddedIsRead(b, width);
  }

  /** At least four digits. */
  function LongYear(n: nat): string {
    if n < 10000 then Padded(n, 4) else Decimal(n)
  }

  lemma LongYearIsRead(n: nat)
    ensures Digits(LongYear(n)) && DecimalValue(LongYear(n)) == n
  {
    if n < 10000 {
      assert Pow10(4) == 10000;
      PaddedIsRead(n, 4);
    } else {
      DecimalIsRead(n);
    }
  }

  function YearText(y: int): string {
    Signed(y < 0, LongYear(if y < 0 then -y else y))
  }

  function Signed(negative: bool, digits: string): string {
    if negative then "-" + digits else digits
  }

  lemma SignShows(m: bool, d: string, a: string)
    requires Digits(d)
    ensures Signed(m, d) + a == if m then "-" + (d + a) else d + a
    ensures (Signed(m, d) + a)[0] == '-' <==> m
  {
    Associates("-", d, a);
  }

  /** The numeral ends at the first '-' after its sign. */
  lemma NumeralIsCutOff(m: bool, d: string, a: string, n: bool, e: string, b: string)
    requires Digits(d) && Digits(e) && Signed(m, d) + "-" + a == Signed(n, e) + "-" + b
    ensures m == n && d == e && a == b
  {
    Associates(Signed(m, d), "-", a);
    Associates(Signed(n, e), "-", b);
    SignShows(m, d, "-" + a);
    SignShows(n, e, "-" + b);
    if m {
      SplitAt("-", d + ("-" + a), "-", e + ("-" + b));
    }
    Associates(d, "-", a);
    Associates(e, "-", b);
    FirstSeparator('-', d, a, e, b);
  }

  lemma YearIsCutOff(y: int, a: string, z: int, b: string)
    requires YearText(y) + "-" + a == YearText(z) + "-" + b
    ensures y == z && a == b
  {
    var m, n := if y < 0 then -y else y, if z < 0 then -z else z;
    LongYearIsRead(m);
    LongYearIsRead(n);
    NumeralIsCutOff(y < 0, LongYear(m), a, z < 0, LongYear(n), b);
  }

  // ---- Date and time ---------------------------------------------------------------------------

  /** Milliseconds with trailing zeros dropped, as RFC3339Nano writes them. */
  function Fraction(f: int): string
    requires 0 <= f < 1000
  {
    if f == 0 then ""
    else if f % 100 == 0 then "." + Padded(f / 100, 1)
    else if f % 10 == 0 then "." + Padded(f / 10, 2)
    else "." + Padded(f, 3)
  }

  lemma FractionIsInjective(f: int, g: int)
    requires 0 <= f < 1000 && 0 <= g < 1000 && Fraction(f) == Fraction(g)
    ensures f == g
  {
    assert Pow10(1) == 10 && Pow10(2) == 100 && Pow10(3) == 1000;
    if f != 0 && g != 0 {
      var a, b := Fraction(f)[1..], Fraction(g)[1..];
      if f % 100 == 0 {
        assert a == Padded(f / 100, 1) && b == Padded(g / 100, 1);
        PaddedIsInjective(f / 100, g / 100, 1);
      } else if f % 10 == 0 {
        assert a == Padded(f / 10, 2) && b == Padded(g / 10, 2);
        PaddedIsInjective(f / 10, g / 10, 2);
      } else {
        assert a == Padded(f, 3) && b == Padded(g, 3);
        PaddedIsInjective(f, g, 3);
      }
    }
  }

  /** Time of day from its milliseconds. */
  function TimeText(ms: int): string
    requires 0 <= ms < 86400000
  {
    Padded(ms / 3600000, 2) + ":" + Padded(ms / 60000 % 60, 2) + ":" + Padded(ms / 1000 % 60, 2) + Fraction(ms % 1000)
  }

  lemma TimeTextIsInjective(a: int, b: int)
    requires 0 <= a < 86400000 && 0 <= b < 86400000 && TimeText(a) == TimeText(b)
    ensures a == b
  {
    assert Pow10(2) == 100;
    var h, i := Padded(a / 3600000, 2), Padded(b / 3600000, 2);
    var m, n := Padded(a / 60000 % 60, 2), Padded(b / 60000 % 60, 2);
    var s, t := Padded(a / 1000 % 60, 2), Padded(b / 1000 % 60, 2);
    SplitAt(h + ":" + m + ":" + s, Fraction(a % 1000), i + ":" + n + ":" + t, Fraction(b % 1000));
    SplitAt(h + ":" + m + ":", s, i + ":" + n + ":", t);
    SplitAt(h + ":" + m, ":", i + ":" + n, ":");
    SplitAt(h + ":", m, i + ":", n);
    SplitAt(h, ":", i, ":");
    FractionIsInjective(a % 1000, b % 1000);
    PaddedIsInjective(a / 1000 % 60, b / 1000 % 60, 2);
    PaddedIsInjective(a / 60000 % 60, b / 60000 % 60, 2);
    PaddedIsInjective(a / 3600000, b / 3600000, 2);
    ClockIsExact(a);
    ClockIsExact(b);
  }

  lemma ClockIsExact(a: int)
    requires 0 <= a < 86400000
    ensures a == a / 3600000 * 3600000 + a / 60000 % 60 * 60000 + a / 1000 % 60 * 1000 + a % 1000
  {
    var s, m := a / 1000, a / 60000;
    assert m == s / 60 && a / 3600000 == m / 60;
    assert a == s * 1000 + a % 1000;
    assert s == m * 60 + s % 60;
    assert m == m / 60 * 60 + m % 60;
  }

  /** Month, day and time, the part of the text after the year. */
  function AfterYear(d: Date, ms: int): string
    requires ValidDate(d) && 0 <= ms < 86400000
  {
    Padded(d.month, 2) + "-" + Padded(d.day, 2) + "T" + TimeText(ms) + "Z"
  }

  lemma AfterYearIsInjective(d: Date, a: int, e: Date, b: int)
    requires ValidDate(d) && ValidDate(e) && 0 <= a < 86400000 && 0 <= b < 86400000
    requires AfterYear(d, a) == AfterYear(e, b)
    ensures d.month == e.month && d.day == e.day && a == b
  {
    assert Pow10(2) == 100;
    var m, n := Padded(d.month, 2), Padded(e.month, 2);
    var x, y := Padded(d.day, 2), Padded(e.day, 2);
    SplitAt(m + "-" + x + "T" + TimeText(a), "Z", n + "-" + y + "T" + TimeText(b), "Z");
    SplitAt(m + "-" + x + "T", TimeText(a), n + "-" + y + "T", TimeText(b));
    SplitAt(m + "-" + x, "T", n + "-" + y, "T");
    SplitAt(m + "-", x, n + "-", y);
    SplitAt(m, "-", n, "-");
    PaddedIsInjective(d.month, e.month, 2);
    PaddedIsInjective(d.day, e.day, 2);
    TimeTextIsInjective(a, b);
  }

  function Rfc3339(t: Instant): string {
    var n := t / 86400000 + EPOCH_DAY;
    DateOfDay(n);
    YearText(DateOf(n).year) + "-" + AfterYear(DateOf(n), t % 86400000)
  }

  /** Different instants are written differently, in any year. */
  lemma Rfc3339IsInjective(t: Instant, u: Instant)
    requires Rfc3339(t) == Rfc3339(u)
    ensures t == u
  {
    var n, m := t / 86400000 + EPOCH_DAY, u / 86400000 + EPOCH_DAY;
    DateOfDay(n);
    DateOfDay(m);
    var d, e := DateOf(n), DateOf(m);
    YearIsCutOff(d.year, AfterYear(d, t % 86400000), e.year, AfterYear(e, u % 86400000));
    AfterYearIsInjective(d, t % 86400000, e, u % 86400000);
  }

  /** Any two requests for different occurrences have different seeds. */
  lemma StampedSeedsDiffer(rec: Recurrence, run: Run, i: nat, a: nat, b: nat)
    requires ValidRun(rec, run) && i < |run.states|
    requires a < |run.states[i].sends| && b < |run.states[i].sends|
    requires run.states[i].sends[a].work.job.occurrenceId != run.states[i].sends[b].work.job.occurrenceId
    ensures SeedOf(Rfc3339, run.states[i].sends[a].work) != SeedOf(Rfc3339, run.states[i].sends[b].work)
  {
    var v, w := run.states[i].sends[a].work.job.key.scheduledAt, run.states[i].sends[b].work.job.key.scheduledAt;
    if Rfc3339(v) == Rfc3339(w) {
      Rfc3339IsInjective(v, w);
    }
    DifferentOccurrencesDifferentSeeds(rec, run, i, a, b, Rfc3339);
  }

  lemma StampOfDay(t: Instant, n: int, ms: int)
    requires t / 86400000 + EPOCH_DAY == n && t % 86400000 == ms && ValidDate(DateOf(n))
    ensures Rfc3339(t) == YearText(DateOf(n).year) + "-" + AfterYear(DateOf(n), ms)
  {
  }

  lemma DayOfInstant(t: int, day: int, ms: int)
    requires t == day * 86400000 + ms && 0 <= ms < 86400000
    ensures t / 86400000 == day && t % 86400000 == ms
  {
  }

  /** The text of an instant shows its UTC date and time of day. */
  lemma StampShows(t: Instant, d: Date, ms: int)
    requires ValidDate(d) && 0 <= ms < 86400000 && t == (DayNumber(d) - EPOCH_DAY) * 86400000 + ms
    ensures Rfc3339(t) == YearText(d.year) + "-" + AfterYear(d, ms)
  {
    DayOfInstant(t, DayNumber(d) - EPOCH_DAY, ms);
    DayOfDate(d);
    StampOfDay(t, DayNumber(d), ms);
  }
}
