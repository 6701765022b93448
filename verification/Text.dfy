/** Text as the parsers and the seed see it: blanks, separators, letter case and decimal numerals. */
module Text {
  import opened Domain

  // ---- Separators ------------------------------------------------------------------------------

  function Split(s: string, sep: char): (parts: seq<string>)
    ensures |parts| > 0
  {
    if |s| == 0 then [""]
    else
      var rest := Split(s[1..], sep);
      if s[0] == sep then [""] + rest else [[s[0]] + rest[0]] + rest[1..]
  }

  function Join(parts: seq<string>, sep: char): string
    requires |parts| > 0
  {
    if |parts| == 1 then parts[0] else parts[0] + [sep] + Join(parts[1..], sep)
  }

  /** Splitting loses nothing and leaves no separator behind. */
  lemma {:induction false} SplitThenJoin(s: string, sep: char)
    ensures Join(Split(s, sep), sep) == s
    ensures forall i | 0 <= i < |Split(s, sep)| :: sep !in Split(s, sep)[i]
  {
    if |s| > 0 {
      SplitThenJoin(s[1..], sep);
      var rest := Split(s[1..], sep);
      var parts := Split(s, sep);
      if s[0] == sep {
        assert parts[1..] == rest;
      } else {
        assert parts[0] == [s[0]] + rest[0] && parts[1..] == rest[1..];
        if |rest| > 1 {
          assert Join(parts, sep) == [s[0]] + (rest[0] + [sep] + Join(rest[1..], sep));
        }
      }
    }
  }

  /** A text is cut at the first separator in one way only. */
  lemma FirstSeparator(sep: char, a: string, x: string, b: string, y: string)
    requires a + [sep] + x == b + [sep] + y && sep !in a && sep !in b
    ensures a == b && x == y
  {
    var s := a + [sep] + x;
    assert s[|a|] == sep && s[|b|] == sep;
    assert |a| == |b|;
    assert a == s[..|a|] && b == s[..|b|];
    assert x == s[|a| + 1..] && y == s[|b| + 1..];
  }

  lemma Associates(a: string, b: string, c: string)
    ensures a + b + c == a + (b + c)
  {
  }

  lemma SplitAt(a: string, b: string, c: string, d: string)
    requires a + b == c + d && |a| == |c|
    ensures a == c && b == d
  {
    assert (a + b)[..|a|] == a && (c + d)[..|a|] == c;
    assert (a + b)[|a|..] == b && (c + d)[|a|..] == d;
  }

  // ---- Blanks ----------------------------------------------------------------------------------

  /** Unicode white space. */
  predicate Blank(c: char) {
    || '\U{9}' <= c <= '\U{D}' || c == ' ' || c == '\U{85}' || c == '\U{A0}' || c == '\U{1680}'
    || '\U{2000}' <= c <= '\U{200A}' || c == '\U{2028}' || c == '\U{2029}' || c == '\U{202F}'
    || c == '\U{205F}' || c == '\U{3000}'
  }

  predicate AllBlank(s: string) {
    forall i | 0 <= i < |s| :: Blank(s[i])
  }

  predicate NoBlank(s: string) {
    forall i | 0 <= i < |s| :: !Blank(s[i])
  }

  function TrimLeft(s: string): string {
    if |s| > 0 && Blank(s[0]) then TrimLeft(s[1..]) else s
  }

  function TrimRight(s: string): string {
    if |s| > 0 && Blank(s[|s| - 1]) then TrimRight(s[..|s| - 1]) else s
  }

  function Trim(s: string): string {
    TrimRight(TrimLeft(s))
  }

  /** No blank at either end. */
  predicate Trimmed(s: string) {
    |s| > 0 ==> !Blank(s[0]) && !Blank(s[|s| - 1])
  }

  lemma {:induction false} TrimLeftCuts(s: string) returns (a: string)
    ensures AllBlank(a) && s == a + TrimLeft(s)
    ensures |TrimLeft(s)| > 0 ==> !Blank(TrimLeft(s)[0])
  {
    a := "";
    if |s| > 0 && Blank(s[0]) {
      a := TrimLeftCuts(s[1..]);
      a := [s[0]] + a;
    }
  }

  lemma {:induction false} TrimRightCuts(s: string) returns (b: string)
    ensures AllBlank(b) && s == TrimRight(s) + b
    ensures |TrimRight(s)| > 0 ==> !Blank(TrimRight(s)[|TrimRight(s)| - 1])
  {
    b := "";
    if |s| > 0 && Blank(s[|s| - 1]) {
      b := TrimRightCuts(s[..|s| - 1]);
      b := b + [s[|s| - 1]];
    }
  }

  lemma TrimCuts(s: string) returns (a: string, b: string)
    ensures AllBlank(a) && AllBlank(b) && s == a + Trim(s) + b && Trimmed(Trim(s))
  {
    a := TrimLeftCuts(s);
    b := TrimRightCuts(TrimLeft(s));
    Associates(a, Trim(s), b);
    if |Trim(s)| > 0 {
      assert TrimLeft(s)[0] == Trim(s)[0];
    }
  }

  /** Trimming cuts blanks off both ends and nothing else, and leaves exactly the trimmed texts alone. */
  lemma TrimIsExact(s: string) returns (a: string, b: string)
    ensures AllBlank(a) && AllBlank(b) && s == a + Trim(s) + b
    ensures Trim(s) == s <==> Trimmed(s)
    ensures Trim(Trim(s)) == Trim(s) && Trimmed(Trim(s))
  {
    a, b := TrimCuts(s);
    TrimmedIsFixed(s);
    TrimmedIsFixed(Trim(s));
  }

  lemma TrimmedIsFixed(s: string)
    ensures Trimmed(s) ==> Trim(s) == s
  {
  }

  /** strings.Fields: the maximal blank-free pieces; `word` is the piece being read. */
  function Fields(s: string, word: string): seq<string> {
    if |s| == 0 then Flushed(word)
    else if Blank(s[0]) then Flushed(word) + Fields(s[1..], "")
    else Fields(s[1..], word + [s[0]])
  }

  function Flushed(word: string): seq<string> {
    if word == "" then [] else [word]
  }

  predicate Words(words: seq<string>) {
    forall i | 0 <= i < |words| :: words[i] != "" && NoBlank(words[i])
  }

  /** Words written one after the other, each with its own blank text around them. */
  function Spaced(words: seq<string>, gaps: seq<string>): string
    requires |gaps| == |words| + 1
  {
    if |words| == 0 then gaps[0] else gaps[0] + words[0] + Spaced(words[1..], gaps[1..])
  }

  lemma {:induction false} BlanksAreDropped(a: string, s: string)
    requires AllBlank(a)
    ensures Fields(a + s, "") == Fields(s, "")
  {
    if |a| > 0 {
      BlanksAreDropped(a[1..], s);
      assert (a + s)[1..] == a[1..] + s;
    } else {
      assert a + s == s;
    }
  }

  lemma {:induction false} WordIsRead(w: string, s: string, word: string)
    requires NoBlank(w)
    ensures Fields(w + s, word) == Fields(s, word + w)
  {
    if |w| > 0 {
      WordIsRead(w[1..], s, word + [w[0]]);
      assert (w + s)[1..] == w[1..] + s;
      assert word + [w[0]] + w[1..] == word + w;
    } else {
      assert w + s == s && word + w == word;
    }
  }

  lemma {:induction false} TrailingBlanksAreDropped(s: string, b: string, word: string)
    requires AllBlank(b)
    ensures Fields(s + b, word) == Fields(s, word)
    decreases |s|
  {
    if |s| > 0 {
      assert (s + b)[1..] == s[1..] + b;
      TrailingBlanksAreDropped(s[1..], b, if Blank(s[0]) then "" else word + [s[0]]);
    } else {
      assert s + b == b;
      if |b| > 0 {
        BlanksAreDropped(b[1..], "");
        assert b[1..] + "" == b[1..];
      }
    }
  }

  lemma TrimKeepsFields(s: string)
    ensures Fields(Trim(s), "") == Fields(s, "")
  {
    var a, b := TrimIsExact(s);
    Associates(a, Trim(s), b);
    BlanksAreDropped(a, Trim(s) + b);
    TrailingBlanksAreDropped(Trim(s), b, "");
  }

  /** However words are spaced, with at least one blank between neighbours, Fields reads them back. */
  lemma {:induction false} FieldsReadsWords(words: seq<string>, gaps: seq<string>)
    requires |gaps| == |words| + 1 && Words(words) && forall i | 0 <= i < |gaps| :: AllBlank(gaps[i])
    requires forall i | 0 < i < |words| :: gaps[i] != ""
    ensures Fields(Spaced(words, gaps), "") == words
    decreases |words|
  {
    if |words| == 0 {
      BlanksAreDropped(gaps[0], "");
      assert gaps[0] + "" == gaps[0];
    } else {
      var rest := Spaced(words[1..], gaps[1..]);
      BlanksAreDropped(gaps[0], words[0] + rest);
      assert gaps[0] + words[0] + rest == gaps[0] + (words[0] + rest);
      WordIsRead(words[0], rest, "");
      assert "" + words[0] == words[0];
      FieldsReadsWords(words[1..], gaps[1..]);
      if |words| == 1 && gaps[1] == "" {
        assert rest == "";
      } else {
        assert rest[0] == gaps[1][0];
        assert Fields(rest, "") == Fields(rest[1..], "");
      }
      assert words == [words[0]] + words[1..];
    }
  }

  // ---- Letter case -----------------------------------------------------------------------------

  /** The upper-case letter of c where that is ASCII; two letters outside ASCII have one. */
  function UpperChar(c: char): char {
    if 'a' <= c <= 'z' then (c as int - 32) as char
    else if c == '\U{131}' then 'I'
    else if c == '\U{17F}' then 'S'
    else c
  }

  function Upper(s: string): string {
    seq(|s|, i requires 0 <= i < |s| => UpperChar(s[i]))
  }

  /** The lower-case letter of c where that is ASCII; two letters outside ASCII have one. */
  function LowerChar(c: char): char {
    if 'A' <= c <= 'Z' then (c as int + 32) as char
    else if c == '\U{130}' then 'i'
    else if c == '\U{212A}' then 'k'
    else c
  }

  function Lower(s: string): string {
    seq(|s|, i requires 0 <= i < |s| => LowerChar(s[i]))
  }

  // ---- Decimal numerals ------------------------------------------------------------------------

  predicate Digits(s: string) {
    |s| > 0 && forall i | 0 <= i < |s| :: '0' <= s[i] <= '9'
  }

  function DecimalValue(s: string): (v: nat)
    requires forall i | 0 <= i < |s| :: '0' <= s[i] <= '9'
  {
    if |s| == 0 then 0 else 10 * DecimalValue(s[..|s| - 1]) + (s[|s| - 1] as int - '0' as int)
  }

  /** strconv.Atoi: an optional sign, digits, and the range of a 64-bit int. */
  function Atoi(s: string): Option<int> {
    var signed := |s| > 0 && (s[0] == '+' || s[0] == '-');
    var digits := if signed then s[1..] else s;
    if !Digits(digits) then None
    else
      var magnitude: int := DecimalValue(digits);
      var v := if signed && s[0] == '-' then -magnitude else magnitude;
      if -0x8000_0000_0000_0000 <= v < 0x8000_0000_0000_0000 then Some(v) else None
  }

  function Decimal(n: nat): string {
    if n < 10 then [('0' as int + n) as char] else Decimal(n / 10) + [('0' as int + n % 10) as char]
  }

  lemma {:induction false} DecimalIsRead(n: nat)
    ensures Digits(Decimal(n)) && DecimalValue(Decimal(n)) == n
  {
    var s := Decimal(n);
    if n >= 10 {
      DecimalIsRead(n / 10);
      assert s[..|s| - 1] == Decimal(n / 10);
    } else {
      assert s[..|s| - 1] == [];
    }
  }

  /** Every decimal numeral of a 64-bit int is read back exactly, with either sign; larger ones are errors. */
  lemma AtoiReadsDecimals(n: nat)
    ensures Atoi(Decimal(n)) == Atoi("+" + Decimal(n)) == if n < 0x8000_0000_0000_0000 then Some(n) else None
    ensures Atoi("-" + Decimal(n)) == if n <= 0x8000_0000_0000_0000 then Some(0 - n) else None
  {
    DecimalIsRead(n);
    assert ("+" + Decimal(n))[1..] == Decimal(n) && ("-" + Decimal(n))[1..] == Decimal(n);
  }
}
