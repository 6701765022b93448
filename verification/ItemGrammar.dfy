/** The grammar of one cron list item, and that parsing an item is reading that grammar: nothing less, nothing more. */
module ItemGrammar {
  import opened Domain
  import opened Text
  import opened CronFields

  /** `*`, a value, or a range of two values. */
  datatype Base = Any | One(x: string) | Span(x: string, y: string)

  /** A base, and a step if one is given after a slash. */
  datatype ItemText = ItemText(base: Base, step: Option<string>)

  function BaseText(b: Base): string {
    match b
    case Any => "*"
    case One(x) => x
    case Span(x, y) => x + ['-'] + y
  }

  function Written(t: ItemText): string {
    if t.step.None? then BaseText(t.base) else BaseText(t.base) + ['/'] + t.step.value
  }

  /** The names of a field are plain words of three letters. */
  predicate PlainNames(k: Kind) {
    forall n | n in k.names :: Plain(n)
  }

  predicate Plain(n: string) {
    |n| == 3 && '/' !in n && '-' !in n
  }

  /** A value: a name of the field, or a decimal numeral, possibly with a plus sign. */
  predicate ValueText(x: string, k: Kind) {
    '/' !in x && '-' !in x && (x in k.names || Atoi(x).Some?)
  }

  function Value(x: string, k: Kind): int
    requires ValueText(x, k)
  {
    if x in k.names then k.names[x] else Atoi(x).value
  }

  predicate StepText(n: string) {
    '/' !in n && Atoi(n).Some? && Atoi(n).value >= 1
  }

  predicate Legal(t: ItemText, k: Kind) {
    && (t.step.Some? ==> StepText(t.step.value))
    && match t.base
       case Any => true
       case One(x) => ValueText(x, k) && k.min <= Value(x, k) <= k.max
       case Span(x, y) => ValueText(x, k) && ValueText(y, k) && k.min <= Value(x, k) <= Value(y, k) <= k.max
  }

  /**
   * A value alone is itself, with a step n every n-th value from it to the end of the field; a span is
   * its range and a star the whole field, every n-th value of them with a step n.  Only a star with
   * step 1, written or not, counts as unrestricted.
   */
  function Meaning(t: ItemText, k: Kind): Item
    requires Legal(t, k)
  {
    var step := if t.step.Some? then Atoi(t.step.value).value else 1;
    match t.base
    case Any => Item(Progression(k.min, k.max, step), step == 1)
    case One(x) => Item(Progression(Value(x, k), if t.step.Some? then k.max else Value(x, k), step), false)
    case Span(x, y) => Item(Progression(Value(x, k), Value(y, k), step), false)
  }

  // ---- Splitting -------------------------------------------------------------------------------

  lemma {:induction false} SplitWhole(s: string, sep: char)
    requires sep !in s
    ensures Split(s, sep) == [s]
  {
    if |s| > 0 {
      SplitWhole(s[1..], sep);
      assert [s[0]] + s[1..] == s;
    }
  }

  lemma {:induction false} SplitOnce(a: string, b: string, sep: char)
    requires sep !in a && sep !in b
    ensures Split(a + [sep] + b, sep) == [a, b]
  {
    var s := a + [sep] + b;
    if |a| == 0 {
      assert s[1..] == b;
      SplitWhole(b, sep);
    } else {
      assert s[1..] == a[1..] + [sep] + b;
      SplitOnce(a[1..], b, sep);
      assert [a[0]] + a[1..] == a;
    }
  }

  /** A text split into one or two parts is that part, or the two with the separator between them. */
  lemma SplitShows(s: string, sep: char)
    ensures var parts := Split(s, sep);
            && (|parts| == 1 ==> s == parts[0] && sep !in s)
            && (|parts| == 2 ==> s == parts[0] + [sep] + parts[1] && sep !in parts[0] && sep !in parts[1])
  {
    SplitThenJoin(s, sep);
    var parts := Split(s, sep);
    if |parts| == 2 {
      assert parts[1..] == [parts[1]];
    }
  }

  // ---- Reading ---------------------------------------------------------------------------------

  lemma ValueIsRead(x: string, k: Kind)
    requires PlainNames(k) && ValueText(x, k)
    ensures x != "" && x != "*" && ParseValue(x, k.names) == Some(Value(x, k))
  {
  }

  lemma BaseIsRead(b: Base, k: Kind)
    requires ProperKind(k) && PlainNames(k) && Legal(ItemText(b, None), k)
    ensures BaseText(b) != "" && '/' !in BaseText(b)
    ensures BaseText(b) == "*" <==> b.Any?
    ensures b.One? ==> '-' !in BaseText(b)
    ensures b.Span? ==> '-' in BaseText(b)
    ensures var m := Meaning(ItemText(b, None), k).run;
            ParseRange(BaseText(b), k) == Some((m.start, m.end))
  {
    if b.One? {
      ValueIsRead(b.x, k);
      SplitWhole(b.x, '-');
    } else if b.Span? {
      ValueIsRead(b.x, k);
      ValueIsRead(b.y, k);
      SplitOnce(b.x, b.y, '-');
      assert BaseText(b)[|b.x|] == '-';
    }
  }

  lemma UnsteppedIsRead(t: ItemText, k: Kind)
    requires ProperKind(k) && PlainNames(k) && Legal(t, k) && t.step.None?
    ensures ParseItem(Written(t), k) == Some(Meaning(t, k))
  {
    BaseIsRead(t.base, k);
    SplitWhole(BaseText(t.base), '/');
  }

  lemma SteppedIsRead(t: ItemText, k: Kind)
    requires ProperKind(k) && PlainNames(k) && Legal(t, k) && t.step.Some?
    ensures ParseItem(Written(t), k) == Some(Meaning(t, k))
  {
    var b := BaseText(t.base);
    BaseIsRead(t.base, k);
    SplitOnce(b, t.step.value, '/');
    assert SplitStep(Written(t)) == Some((b, Atoi(t.step.value).value));
    assert Written(t)[|b|] == '/';
  }

  /** Every legal item is read, and as what it means. */
  lemma ItemIsRead(t: ItemText, k: Kind)
    requires ProperKind(k) && PlainNames(k) && Legal(t, k)
    ensures ParseItem(Written(t), k) == Some(Meaning(t, k))
  {
    if t.step.None? {
      UnsteppedIsRead(t, k);
    } else {
      SteppedIsRead(t, k);
    }
  }

  lemma BaseIsWritten(base: string, k: Kind) returns (b: Base)
    requires ProperKind(k) && PlainNames(k) && '/' !in base && ParseRange(base, k).Some?
    ensures Legal(ItemText(b, None), k) && BaseText(b) == base
  {
    if base == "*" {
      b := Any;
    } else {
      SplitShows(base, '-');
      var parts := Split(base, '-');
      if |parts| == 1 {
        b := One(base);
      } else {
        assert forall c | c in parts[0] :: c in base;
        assert forall c | c in parts[1] :: c in base;
        b := Span(parts[0], parts[1]);
      }
    }
  }

  /** And only legal items are read: any other text is refused. */
  lemma ItemIsLegal(item: string, k: Kind) returns (t: ItemText)
    requires ProperKind(k) && PlainNames(k) && ParseItem(item, k).Some?
    ensures Legal(t, k) && Written(t) == item && ParseItem(item, k) == Some(Meaning(t, k))
  {
    SplitShows(item, '/');
    var parts := Split(item, '/');
    if |parts| == 1 {
      var b := BaseIsWritten(item, k);
      t := ItemText(b, None);
    } else {
      var b := BaseIsWritten(parts[0], k);
      t := ItemText(b, Some(parts[1]));
    }
    ItemIsRead(t, k);
  }

  // ---- Values ----------------------------------------------------------------------------------

  lemma {:induction false} DecimalIsPlain(n: nat)
    ensures '/' !in Decimal(n) && '-' !in Decimal(n)
  {
    if n >= 10 {
      DecimalIsPlain(n / 10);
    }
  }

  /** A decimal numeral is a value of every field, its own number, unless it is a name. */
  lemma NumeralIsValue(n: nat, k: Kind)
    requires n < 0x8000_0000_0000_0000 && Decimal(n) !in k.names
    ensures ValueText(Decimal(n), k) && Value(Decimal(n), k) == n
  {
    DecimalIsPlain(n);
    AtoiReadsDecimals(n);
  }

  /** Three letters as one number, to tell names apart. */
  function Code(s: string): int {
    if |s| != 3 then 0 else s[0] as int * 65536 + s[1] as int * 256 + s[2] as int
  }

  predicate NameIs(k: Kind, n: string, v: int) {
    n in k.names && k.names[n] == v
  }

  /** Month names count from 1. */
  lemma MonthNames()
    ensures NameIs(MONTH, "JAN", 1) && NameIs(MONTH, "FEB", 2) && NameIs(MONTH, "MAR", 3) && NameIs(MONTH, "APR", 4)
    ensures NameIs(MONTH, "MAY", 5) && NameIs(MONTH, "JUN", 6) && NameIs(MONTH, "JUL", 7) && NameIs(MONTH, "AUG", 8)
    ensures NameIs(MONTH, "SEP", 9) && NameIs(MONTH, "OCT", 10) && NameIs(MONTH, "NOV", 11) && NameIs(MONTH, "DEC", 12)
  {
    assert Code("JAN") == 4866382;
    assert Code("FEB") == 4605250;
    assert Code("MAR") == 5062994;
    assert Code("APR") == 4280402;
    assert Code("MAY") == 5063001;
    assert Code("JUN") == 4871502;
    assert Code("JUL") == 4871500;
    assert Code("AUG") == 4281671;
    assert Code("SEP") == 5457232;
    assert Code("OCT") == 5194580;
    assert Code("NOV") == 5132118;
    assert Code("DEC") == 4474179;
  }

  lemma MonthsArePlain()
    ensures PlainNames(MONTH)
  {
    assert Plain("JAN");
    assert Plain("FEB");
    assert Plain("MAR");
    assert Plain("APR");
    assert Plain("MAY");
    assert Plain("JUN");
    assert Plain("JUL");
    assert Plain("AUG");
    assert Plain("SEP");
    assert Plain("OCT");
    assert Plain("NOV");
    assert Plain("DEC");
  }

  /** Weekday names count from 0, at Sunday. */
  lemma WeekdayNames()
    ensures NameIs(WEEKDAY, "SUN", 0) && NameIs(WEEKDAY, "MON", 1) && NameIs(WEEKDAY, "TUE", 2)
    ensures NameIs(WEEKDAY, "WED", 3)
    ensures NameIs(WEEKDAY, "THU", 4) && NameIs(WEEKDAY, "FRI", 5) && NameIs(WEEKDAY, "SAT", 6)
  {
    assert Code("SUN") == 5461326;
    assert Code("MON") == 5066574;
    assert Code("TUE") == 5526853;
    assert Code("WED") == 5719364;
    assert Code("THU") == 5523541;
    assert Code("FRI") == 4608585;
    assert Code("SAT") == 5456212;
  }

  lemma WeekdaysArePlain()
    ensures PlainNames(WEEKDAY)
  {
    assert Plain("SUN");
    assert Plain("MON");
    assert Plain("TUE");
    assert Plain("WED");
    assert Plain("THU");
    assert Plain("FRI");
    assert Plain("SAT");
  }

  /** The other fields have no names. */
  lemma NumbersOnly()
    ensures MINUTE.names == map[] && HOUR.names == map[] && DAY.names == map[]
    ensures PlainNames(MINUTE) && PlainNames(HOUR) && PlainNames(DAY)
  {
  }

  /** The bounds of the five fields; the day of week goes to 7, which is Sunday again. */
  lemma FieldBounds()
    ensures MINUTE.min == 0 && MINUTE.max == 59 && !MINUTE.sunday
    ensures HOUR.min == 0 && HOUR.max == 23 && !HOUR.sunday
    ensures DAY.min == 1 && DAY.max == 31 && !DAY.sunday
    ensures MONTH.min == 1 && MONTH.max == 12 && !MONTH.sunday
    ensures WEEKDAY.min == 0 && WEEKDAY.max == 7 && WEEKDAY.sunday
  {
  }

  // ---- Letter case and lists -------------------------------------------------------------------

  predicate Ascii(s: string) {
    forall i | 0 <= i < |s| :: s[i] < '\U{80}'
  }

  /** Fields are read without regard to letter case. */
  lemma CaseIsIgnored(raw: string, k: Kind)
    requires Ascii(raw)
    ensures FieldParses(Lower(raw), k) <==> FieldParses(raw, k)
    ensures FieldParses(raw, k) ==> ParsedItems(Lower(raw), k) == ParsedItems(raw, k)
  {
    assert Upper(Lower(raw)) == Upper(raw);
    assert ItemsOf(Lower(raw)) == ItemsOf(raw);
    if FieldParses(raw, k) {
      assert ParsedItems(Lower(raw), k) == ParsedItems(raw, k);
    }
  }
}
