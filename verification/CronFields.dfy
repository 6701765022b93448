/** Cron field syntax: lists of values, ranges and steps, and the set of numbers a field denotes. */
module CronFields {
  import opened Domain
  import opened Text

  newtype int64 = x: int | -0x8000_0000_0000_0000 <= x < 0x8000_0000_0000_0000

  /** Bounds and names of one field; `sunday` folds 7 to 0. */
  datatype Kind = Kind(min: int, max: int, names: map<string, int>, sunday: bool)

  const MINUTE := Kind(0, 59, map[], false)
  const HOUR := Kind(0, 23, map[], false)
  const DAY := Kind(1, 31, map[], false)
  const MONTH := Kind(1, 12, map["JAN" := 1, "FEB" := 2, "MAR" := 3, "APR" := 4, "MAY" := 5, "JUN" := 6,
                                 "JUL" := 7, "AUG" := 8, "SEP" := 9, "OCT" := 10, "NOV" := 11, "DEC" := 12], false)
  const WEEKDAY := Kind(0, 7,
    map["SUN" := 0, "MON" := 1, "TUE" := 2, "WED" := 3, "THU" := 4, "FRI" := 5, "SAT" := 6], true)

  predicate ProperKind(k: Kind) {
    0 <= k.min <= k.max <= 59 && (k.sunday ==> k.min == 0 && k.max == 7)
  }

  datatype CronField = CronField(allowed: set<int>, wildcard: bool)

  // ---- One list item ---------------------------------------------------------------------------

  /** An arithmetic progression start, start + step, ... up to end; `star` marks an unrestricted item. */
  datatype Progression = Progression(start: int, end: int, step: int)

  datatype Item = Item(run: Progression, star: bool)

  function SplitStep(item: string): Option<(string, int)> {
    var parts := Split(item, '/');
    if |parts| > 2 then None
    else if |parts| == 1 then Some((item, 1))
    else
      var step := Atoi(parts[1]);
      if step.None? || step.value < 1 then None else Some((parts[0], step.value))
  }

  function ParseValue(raw: string, names: map<string, int>): Option<int> {
    if raw in names then Some(names[raw]) else Atoi(raw)
  }

  function ParseRange(raw: string, k: Kind): Option<(int, int)> {
    if raw == "*" then Some((k.min, k.max))
    else
      var parts := Split(raw, '-');
      if |parts| > 2 then None
      else
        var start := ParseValue(parts[0], k.names);
        var end := if |parts| == 2 then ParseValue(parts[1], k.names) else start;
        if start.None? || end.None? then None
        else if start.value < k.min || start.value > k.max || end.value < k.min || end.value > k.max
                || start.value > end.value then None
        else Some((start.value, end.value))
  }

  function ParseItem(item: string, k: Kind): Option<Item> {
    if item == "" then None
    else
      var split := SplitStep(item);
      if split.None? then None
      else
        var (base, step) := split.value;
        var range := ParseRange(base, k);
        if range.None? then None
        else
          var (start, end) := range.value;
          var last := if '/' in item && base != "*" && '-' !in base then k.max else end;
          Some(Item(Progression(start, last, step), base == "*" && step == 1))
  }

  lemma ItemIsInRange(item: string, k: Kind)
    requires ProperKind(k) && ParseItem(item, k).Some?
    ensures var it := ParseItem(item, k).value;
            && k.min <= it.run.start <= it.run.end <= k.max && 1 <= it.run.step < 0x8000_0000_0000_0000
            && (it.star ==> it.run.start == k.min && it.run.end == k.max && it.run.step == 1)
  {
  }

  function Nth(p: Progression, n: nat): int {
    p.start + n * p.step
  }

  function Fold(k: Kind, v: int): int {
    if k.sunday && v == 7 then 0 else v
  }

  /** Some element of the progression, folded, is v. */
  ghost predicate RunDenotes(p: Progression, k: Kind, v: int) {
    exists n: nat :: Nth(p, n) <= p.end && Fold(k, Nth(p, n)) == v
  }

  lemma NthIncreases(p: Progression, m: nat, n: nat)
    requires p.step >= 1 && m <= n
    ensures Nth(p, n) - Nth(p, m) == (n - m) * p.step && Nth(p, m) <= Nth(p, n)
  {
    assert (n - m) * p.step >= 0;
  }

  /**
   * The value loop of parseCronField on machine integers: it stops before a step would leave the
   * range, so nothing overflows even with a step near the largest int, and marks exactly the progression.
   */
  method MarkItem(start: int64, end: int64, step: int64, k: Kind) returns (marked: set<int>)
    requires 0 <= start <= end && step >= 1
    ensures forall v :: v in marked <==> RunDenotes(Progression(start as int, end as int, step as int), k, v)
  {
    ghost var p := Progression(start as int, end as int, step as int);
    ghost var n: nat := 0;
    marked := {};
    var value := start;
    while value <= end
      invariant start <= value <= end && value as int == Nth(p, n)
      invariant forall v :: v in marked <==> exists m: nat :: m < n && Fold(k, Nth(p, m)) == v
      decreases end - value
    {
      marked := marked + {if k.sunday && value == 7 then 0 else value as int};
      assert forall v :: v in marked <==> exists m: nat :: m < n + 1 && Fold(k, Nth(p, m)) == v;
      if step > end - value {
        break;
      }
      NthIncreases(p, n, n + 1);
      value := value + step;
      n := n + 1;
    }
    forall v ensures v in marked <==> RunDenotes(p, k, v) {
      forall m: nat ensures m <= n <==> Nth(p, m) <= p.end {
        if m <= n {
          NthIncreases(p, m, n);
        } else {
          NthIncreases(p, n + 1, m);
          NthIncreases(p, n, n + 1);
        }
      }
    }
  }

  // ---- A whole field ---------------------------------------------------------------------------

  function ItemsOf(raw: string): seq<string> {
    Split(Upper(raw), ',')
  }

  predicate FieldParses(raw: string, k: Kind) {
    forall i | 0 <= i < |ItemsOf(raw)| :: ParseItem(ItemsOf(raw)[i], k).Some?
  }

  function ParsedItems(raw: string, k: Kind): seq<Item>
    requires FieldParses(raw, k)
  {
    seq(|ItemsOf(raw)|, i requires 0 <= i < |ItemsOf(raw)| => ParseItem(ItemsOf(raw)[i], k).value)
  }

  /** Some item denotes v. */
  ghost predicate Denotes(items: seq<Item>, k: Kind, v: int) {
    exists i | 0 <= i < |items| :: RunDenotes(items[i].run, k, v)
  }

  predicate HasStar(items: seq<Item>) {
    exists i | 0 <= i < |items| :: items[i].star
  }

  /** The field is the union of the items' progressions, and a wildcard if some item is unrestricted. */
  ghost predicate Collects(f: CronField, items: seq<Item>, k: Kind) {
    (forall v :: v in f.allowed <==> Denotes(items, k, v)) && (f.wildcard <==> HasStar(items))
  }

  ghost predicate IsFieldOf(f: CronField, raw: string, k: Kind) {
    FieldParses(raw, k) && Collects(f, ParsedItems(raw, k), k)
  }

  lemma CollectOne(f: CronField, items: seq<Item>, k: Kind, it: Item, marked: set<int>)
    requires Collects(f, items, k) && forall v :: v in marked <==> RunDenotes(it.run, k, v)
    ensures Collects(CronField(f.allowed + marked, f.wildcard || it.star), items + [it], k)
  {
    var more := items + [it];
    forall v ensures Denotes(more, k, v) <==> Denotes(items, k, v) || RunDenotes(it.run, k, v) {
      if Denotes(items, k, v) {
        var i :| 0 <= i < |items| && RunDenotes(items[i].run, k, v);
        assert more[i] == items[i];
      }
      if RunDenotes(it.run, k, v) {
        assert more[|items|] == it;
      }
    }
    assert HasStar(more) <==> HasStar(items) || it.star by {
      if HasStar(items) {
        var i :| 0 <= i < |items| && items[i].star;
        assert more[i].star;
      }
      assert more[|items|] == it;
    }
  }

  method MarkParsed(item: string, k: Kind) returns (marked: set<int>)
    requires ProperKind(k) && ParseItem(item, k).Some?
    ensures forall v :: v in marked <==> RunDenotes(ParseItem(item, k).value.run, k, v)
  {
    ItemIsInRange(item, k);
    var p := ParseItem(item, k).value.run;
    marked := MarkItem(p.start as int64, p.end as int64, p.step as int64, k);
  }

  /** `done` are the items read so far. */
  predicate Read(items: seq<string>, k: Kind, done: seq<Item>) {
    |done| <= |items| && forall j | 0 <= j < |done| :: ParseItem(items[j], k) == Some(done[j])
  }

  lemma ReadAll(raw: string, k: Kind, done: seq<Item>)
    requires Read(ItemsOf(raw), k, done) && |done| == |ItemsOf(raw)|
    ensures FieldParses(raw, k) && done == ParsedItems(raw, k)
  {
  }

  method ParseCronField(raw: string, k: Kind) returns (r: Option<CronField>)
    requires ProperKind(k)
    ensures r.Some? <==> FieldParses(raw, k)
    ensures r.Some? ==> IsFieldOf(r.value, raw, k)
  {
    var items := ItemsOf(raw);
    var field := CronField({}, false);
    ghost var done: seq<Item> := [];
    var i := 0;
    while i < |items|
      invariant 0 <= i <= |items| && |done| == i && Read(items, k, done)
      invariant Collects(field, done, k)
    {
      var parsed := ParseItem(items[i], k);
      if parsed.None? {
        return None;
      }
      var marked := MarkParsed(items[i], k);
      CollectOne(field, done, k, parsed.value, marked);
      field := CronField(field.allowed + marked, field.wildcard || parsed.value.star);
      done := done + [parsed.value];
      i := i + 1;
    }
    ReadAll(raw, k, done);
    return Some(field);
  }

  // ---- What every parsed field satisfies -------------------------------------------------------

  predicate InField(k: Kind, v: int) {
    k.min <= v <= if k.sunday then 6 else k.max
  }

  ghost predicate WellFormedField(f: CronField, k: Kind) {
    && (exists v :: v in f.allowed)
    && (forall v | v in f.allowed :: InField(k, v))
    && (f.wildcard ==> forall v | InField(k, v) :: v in f.allowed)
  }

  /** A parsed field is not empty, stays in its range, and a wildcard flag means the full range. */
  lemma ParsedFieldIsWellFormed(f: CronField, raw: string, k: Kind)
    requires ProperKind(k) && IsFieldOf(f, raw, k)
    ensures WellFormedField(f, k)
  {
    var items := ParsedItems(raw, k);
    forall i | 0 <= i < |items|
      ensures k.min <= items[i].run.start <= items[i].run.end <= k.max && 1 <= items[i].run.step
      ensures items[i].star ==> items[i].run.start == k.min && items[i].run.end == k.max && items[i].run.step == 1
    {
      ItemIsInRange(ItemsOf(raw)[i], k);
    }
    CollectedIsWellFormed(f, items, k);
  }

  lemma CollectedIsWellFormed(f: CronField, items: seq<Item>, k: Kind)
    requires ProperKind(k) && Collects(f, items, k) && |items| > 0
    requires forall i | 0 <= i < |items| :: k.min <= items[i].run.start <= items[i].run.end <= k.max
               && 1 <= items[i].run.step
    requires forall i | 0 <= i < |items| && items[i].star :: items[i].run.start == k.min
               && items[i].run.end == k.max && items[i].run.step == 1
    ensures WellFormedField(f, k)
  {
    assert Nth(items[0].run, 0) == items[0].run.start;
    assert RunDenotes(items[0].run, k, Fold(k, items[0].run.start));
    assert Fold(k, items[0].run.start) in f.allowed;
    forall v | v in f.allowed ensures InField(k, v) {
      var i :| 0 <= i < |items| && RunDenotes(items[i].run, k, v);
      var m: nat :| Nth(items[i].run, m) <= items[i].run.end && Fold(k, Nth(items[i].run, m)) == v;
      NthIncreases(items[i].run, 0, m);
    }
    if f.wildcard {
      var i :| 0 <= i < |items| && items[i].star;
      forall v | InField(k, v) ensures v in f.allowed {
        assert Nth(items[i].run, v - k.min) == v;
        assert RunDenotes(items[i].run, k, v);
      }
    }
  }
}
