/** What the descriptors of cron rules fire on. */
module Descriptors {
  import opened Domain
  import opened Text
  import opened CronFields
  import opened ItemGrammar
  import opened Cron

  /** A field that says nothing, or exactly one value. */
  datatype Slot = Every | At(v: int)

  predicate Allows(s: Slot, v: int) {
    s.At? ==> v == s.v
  }

  ghost predicate IsSlot(f: CronField, k: Kind, s: Slot) {
    && (f.wildcard <==> s.Every?)
    && forall v | InField(k, v) :: v in f.allowed <==> Allows(s, v)
  }

  // ---- Fields of one character -----------------------------------------------------------------

  lemma OneItem(c: char)
    requires c != ',' && UpperChar(c) == c
    ensures ItemsOf([c]) == [[c]]
  {
    assert Upper([c]) == [c];
    SplitWhole([c], ',');
  }

  lemma DigitIsValue(c: char, k: Kind)
    requires '0' <= c <= '9' && PlainNames(k)
    ensures ValueText([c], k) && Value([c], k) == c as int - '0' as int
  {
    assert [c][..0] == "";
    assert DecimalValue([c]) == 10 * DecimalValue([c][..0]) + (c as int - '0' as int);
  }

  /** A single digit in range denotes that value alone. */
  lemma DigitField(f: CronField, c: char, k: Kind)
    requires ProperKind(k) && PlainNames(k) && '0' <= c <= '9' && IsFieldOf(f, [c], k)
    requires InField(k, c as int - '0' as int)
    ensures IsSlot(f, k, At(c as int - '0' as int))
  {
    var d := c as int - '0' as int;
    OneItem(c);
    DigitIsValue(c, k);
    ItemIsRead(ItemText(One([c]), None), k);
    var items := ParsedItems([c], k);
    var p := Progression(d, d, 1);
    assert items == [Item(p, false)];
    assert Nth(p, 0) == d;
    forall v | InField(k, v) ensures v in f.allowed <==> v == d {
      assert Denotes(items, k, v) <==> RunDenotes(items[0].run, k, v);
    }
  }

  /** A star denotes every value. */
  lemma StarField(f: CronField, k: Kind)
    requires ProperKind(k) && PlainNames(k) && IsFieldOf(f, "*", k)
    ensures IsSlot(f, k, Every)
  {
    OneItem('*');
    assert "*" == ['*'];
    ItemIsRead(ItemText(Any, None), k);
    var items := ParsedItems("*", k);
    assert items == [Item(Progression(k.min, k.max, 1), true)];
    assert items[0].star;
    ParsedFieldIsWellFormed(f, "*", k);
  }

  // ---- Rules of five characters ----------------------------------------------------------------

  lemma WordThenBlank(c: char, rest: string)
    requires !Blank(c)
    ensures Fields([c] + " " + rest, "") == [[c]] + Fields(rest, "")
  {
    var s := [c] + " " + rest;
    assert s[1..] == " " + rest && (" " + rest)[1..] == rest;
    assert "" + [c] == [c];
  }

  lemma LastWord(c: char)
    requires !Blank(c)
    ensures Fields([c], "") == [[c]]
  {
    assert [c][1..] == "" && "" + [c] == [c];
  }

  lemma FiveWords(a: char, b: char, c: char, d: char, e: char)
    requires !Blank(a) && !Blank(b) && !Blank(c) && !Blank(d) && !Blank(e)
    ensures Fields([a, ' ', b, ' ', c, ' ', d, ' ', e], "") == [[a], [b], [c], [d], [e]]
  {
    assert [a, ' ', b, ' ', c, ' ', d, ' ', e] == [a] + " " + [b, ' ', c, ' ', d, ' ', e];
    assert [b, ' ', c, ' ', d, ' ', e] == [b] + " " + [c, ' ', d, ' ', e];
    assert [c, ' ', d, ' ', e] == [c] + " " + [d, ' ', e];
    assert [d, ' ', e] == [d] + " " + [e];
    WordThenBlank(a, [b, ' ', c, ' ', d, ' ', e]);
    WordThenBlank(b, [c, ' ', d, ' ', e]);
    WordThenBlank(c, [d, ' ', e]);
    WordThenBlank(d, [e]);
    LastWord(e);
  }

  function SlotOf(c: char): Slot {
    if c == '*' then Every else At(c as int - '0' as int)
  }

  predicate SlotChar(c: char, k: Kind) {
    c == '*' || ('0' <= c <= '9' && InField(k, c as int - '0' as int))
  }

  lemma CharField(f: CronField, c: char, k: Kind)
    requires ProperKind(k) && PlainNames(k) && SlotChar(c, k) && IsFieldOf(f, [c], k)
    ensures IsSlot(f, k, SlotOf(c))
  {
    if c == '*' {
      assert [c] == "*";
      StarField(f, k);
    } else {
      DigitField(f, c, k);
    }
  }

  /** A rule of single digits and stars matches where all its fields do, if at most one day field is restricted. */
  lemma CharRuleMatches(e: Expression, l: Local, a: char, b: char, c: char, d: char, w: char)
    requires IsExpressionOf(e, [[a], [b], [c], [d], [w]]) && ProperLocal(l) && (c == '*' || w == '*')
    requires SlotChar(a, MINUTE) && SlotChar(b, HOUR) && SlotChar(c, DAY) && SlotChar(d, MONTH) && SlotChar(w, WEEKDAY)
    ensures Matches(e, l) <==>
              && Allows(SlotOf(a), l.minute) && Allows(SlotOf(b), l.hour) && Allows(SlotOf(c), l.day)
              && Allows(SlotOf(d), l.month) && Allows(SlotOf(w), l.weekday)
  {
    NumbersOnly();
    MonthsArePlain();
    WeekdaysArePlain();
    CharField(e.minute, a, MINUTE);
    CharField(e.hour, b, HOUR);
    CharField(e.dayOfMonth, c, DAY);
    CharField(e.month, d, MONTH);
    CharField(e.dayOfWeek, w, WEEKDAY);
  }

  // ---- The descriptors -------------------------------------------------------------------------

  /** What each descriptor promises. */
  predicate FiresFor(d: string, l: Local) {
    && l.minute == 0
    && (d != "@hourly" ==> l.hour == 0)
    && (d == "@weekly" ==> l.weekday == 0)
    && (d == "@monthly" || d == "@yearly" || d == "@annually" ==> l.day == 1)
    && (d == "@yearly" || d == "@annually" ==> l.month == 1)
  }

  /** Length and second letter tell the descriptors apart. */
  function Mark(d: string): int {
    if |d| < 2 then 0 else |d| * 1000 + d[1] as int
  }

  lemma DescriptorMarks()
    ensures Mark("@yearly") == 7121 && Mark("@annually") == 9097 && Mark("@monthly") == 8109 && Mark("@weekly") == 7119
    ensures Mark("@daily") == 6100 && Mark("@midnight") == 9109 && Mark("@hourly") == 7104
  {
  }

  /** The five characters a descriptor stands for. */
  lemma DescriptorText(d: string) returns (a: char, b: char, c: char, m: char, w: char)
    requires d in DESCRIPTORS
    ensures DESCRIPTORS[d] == [a, ' ', b, ' ', c, ' ', m, ' ', w]
    ensures a == '0' && b == (if d == "@hourly" then '*' else '0')
    ensures c == (if d == "@monthly" || d == "@yearly" || d == "@annually" then '1' else '*')
    ensures m == (if d == "@yearly" || d == "@annually" then '1' else '*')
    ensures w == (if d == "@weekly" then '0' else '*')
  {
    DescriptorMarks();
    var t := DESCRIPTORS[d];
    a, b, c, m, w := t[0], t[2], t[4], t[6], t[8];
  }

  lemma DescriptorFields(rule: string) returns (a: char, b: char, c: char, m: char, w: char)
    requires Lower(Trim(rule)) in DESCRIPTORS
    ensures RuleFields(rule) == [[a], [b], [c], [m], [w]]
    ensures var d := Lower(Trim(rule));
            && a == '0' && b == (if d == "@hourly" then '*' else '0')
            && c == (if d == "@monthly" || d == "@yearly" || d == "@annually" then '1' else '*')
            && m == (if d == "@yearly" || d == "@annually" then '1' else '*')
            && w == (if d == "@weekly" then '0' else '*')
  {
    a, b, c, m, w := DescriptorText(Lower(Trim(rule)));
    FiveWords(a, b, c, m, w);
  }

  /** A descriptor, in any letter case and with blanks around it, fires exactly as promised. */
  lemma DescriptorFires(rule: string, e: Expression, l: Local)
    requires Lower(Trim(rule)) in DESCRIPTORS && IsExpressionOf(e, RuleFields(rule)) && ProperLocal(l)
    ensures Matches(e, l) <==> FiresFor(Lower(Trim(rule)), l)
  {
    var a, b, c, m, w := DescriptorFields(rule);
    DescriptorMarks();
    CharRuleMatches(e, l, a, b, c, m, w);
  }

  lemma CharParses(c: char, k: Kind)
    requires ProperKind(k) && PlainNames(k) && SlotChar(c, k)
    ensures FieldParses([c], k)
  {
    OneItem(c);
    if c == '*' {
      assert [c] == "*";
      ItemIsRead(ItemText(Any, None), k);
    } else {
      DigitIsValue(c, k);
      ItemIsRead(ItemText(One([c]), None), k);
    }
  }

  /** Every descriptor is accepted: its fields parse, and some date is possible. */
  lemma DescriptorIsAccepted(rule: string)
    requires Lower(Trim(rule)) in DESCRIPTORS
    ensures FieldsParse(RuleFields(rule))
    ensures forall e | IsExpressionOf(e, RuleFields(rule)) :: Feasible(e)
  {
    var a, b, c, m, w := DescriptorFields(rule);
    NumbersOnly();
    MonthsArePlain();
    WeekdaysArePlain();
    CharParses(a, MINUTE);
    CharParses(b, HOUR);
    CharParses(c, DAY);
    CharParses(m, MONTH);
    CharParses(w, WEEKDAY);
    forall e | IsExpressionOf(e, RuleFields(rule)) ensures Feasible(e) {
      CharField(e.dayOfMonth, c, DAY);
      CharField(e.month, m, MONTH);
      assert PossibleDay(e, 1, 1);
    }
  }
}
