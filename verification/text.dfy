/**
 * Character classes and string helpers shared by the parser, the printer and
 * the lint pass: `char::is_digit(10)`, `char::is_whitespace`, decimal
 * printing and parsing of integers, `Itertools::join`, `str::split` and
 * `str::lines`.
 */
module Text {

  /** `c.is_digit(10)`: the ASCII decimal digits only. */
  predicate IsDigit(c: char) { '0' <= c <= '9' }

  /** The `'a' <= c && c <= 'z'` tests of the parser. */
  predicate IsLower(c: char) { 'a' <= c <= 'z' }

  /** `char::is_whitespace`: the Unicode White_Space property. */
  predicate IsWhitespace(c: char) {
    var n := c as int;
    (9 <= n <= 13) || n == 32 || n == 0x85 || n == 0xA0 || n == 0x1680
    || (0x2000 <= n <= 0x200A) || n == 0x2028 || n == 0x2029 || n == 0x202F
    || n == 0x205F || n == 0x3000
  }

  /** The characters `parse_float` accepts into its buffer: digits and `. e + -`. */
  predicate IsFloatChar(c: char) { IsDigit(c) || c == '.' || c == 'e' || c == '+' || c == '-' }

  predicate AllDigits(s: string) { forall i | 0 <= i < |s| :: IsDigit(s[i]) }

  predicate AllLower(s: string) { forall i | 0 <= i < |s| :: IsLower(s[i]) }

  predicate AllFloatChars(s: string) { forall i | 0 <= i < |s| :: IsFloatChar(s[i]) }

  predicate AllWhitespace(s: string) { forall i | 0 <= i < |s| :: IsWhitespace(s[i]) }

  function DigitValue(c: char): (d: nat)
    requires IsDigit(c)
    ensures d < 10
  {
    (c as int) - ('0' as int)
  }

  function DigitChar(d: nat): (c: char)
    requires d < 10
    ensures IsDigit(c) && DigitValue(c) == d
  {
    ('0' as int + d) as char
  }

  /** The value of a string of decimal digits, most significant first (`str::parse::<u64>` before its range check). */
  function DecimalValue(s: string): nat
    requires AllDigits(s)
  {
    if s == [] then 0 else DecimalValue(s[..|s| - 1]) * 10 + DigitValue(s[|s| - 1])
  }

  /** A leading zero does not change the value of a numeral. */
  lemma {:induction false} DecimalValueLeadingZero(s: string)
    requires AllDigits(s)
    ensures AllDigits("0" + s) && DecimalValue("0" + s) == DecimalValue(s)
  {
    if s != [] {
      var p := s[..|s| - 1];
      DecimalValueLeadingZero(p);
      assert ("0" + s)[..|"0" + s| - 1] == "0" + p;
    }
  }

  /** `format!("{}", n)` for an unsigned integer: the shortest decimal numeral of `n`. */
  function NatToDecimal(n: nat): (s: string)
    ensures |s| >= 1 && AllDigits(s)
    ensures DecimalValue(s) == n
    ensures |s| > 1 ==> s[0] != '0'
  {
    if n < 10 then [DigitChar(n)]
    else
      var p := NatToDecimal(n / 10);
      var s := p + [DigitChar(n % 10)];
      assert s[..|s| - 1] == p;
      s
  }

  /** `Itertools::join(sep)`: the pieces with `sep` between consecutive ones. */
  function Join(sep: char, xs: seq<string>): string
  {
    if |xs| == 0 then ""
    else if |xs| == 1 then xs[0]
    else xs[0] + [sep] + Join(sep, xs[1..])
  }

  /** `str::split(sep)`: the maximal pieces between occurrences of `sep`; never empty. */
  function Split(s: string, sep: char): (r: seq<string>)
    ensures |r| >= 1
  {
    if s == [] then [""]
    else if s[0] == sep then [""] + Split(s[1..], sep)
    else
      var rest := Split(s[1..], sep);
      [[s[0]] + rest[0]] + rest[1..]
  }

  /** Joining the pieces of a split gives back the string. */
  lemma {:induction false} JoinSplit(s: string, sep: char)
    ensures Join(sep, Split(s, sep)) == s
  {
    if s == [] {
    } else if s[0] == sep {
      JoinSplit(s[1..], sep);
      assert s == [sep] + s[1..];
    } else {
      JoinSplit(s[1..], sep);
      var rest := Split(s[1..], sep);
      if |rest| == 1 {
        assert Split(s, sep) == [[s[0]] + rest[0]];
      } else {
        assert Split(s, sep) == [[s[0]] + rest[0]] + rest[1..];
        assert ([[s[0]] + rest[0]] + rest[1..])[1..] == rest[1..];
        assert Join(sep, rest) == rest[0] + [sep] + Join(sep, rest[1..]);
        assert s == [s[0]] + s[1..];
      }
    }
  }

  /** A string without `sep` is one piece. */
  lemma {:induction false} SplitNoSep(a: string, sep: char)
    requires sep !in a
    ensures Split(a, sep) == [a]
  {
    if a != [] {
      SplitNoSep(a[1..], sep);
      assert a == [a[0]] + a[1..];
    }
  }

  /** A piece without `sep` followed by `sep` starts a new piece. */
  lemma {:induction false} SplitAtSep(a: string, b: string, sep: char)
    requires sep !in a
    ensures Split(a + [sep] + b, sep) == [a] + Split(b, sep)
  {
    if a == [] {
      assert a + [sep] + b == [sep] + b;
      assert ([sep] + b)[1..] == b;
    } else {
      SplitAtSep(a[1..], b, sep);
      assert (a + [sep] + b)[1..] == a[1..] + [sep] + b;
      assert a == [a[0]] + a[1..];
    }
  }

  /** Splitting a join of separator-free pieces gives back the pieces. */
  lemma {:induction false} SplitJoin(xs: seq<string>, sep: char)
    requires |xs| >= 1
    requires forall i | 0 <= i < |xs| :: sep !in xs[i]
    ensures Split(Join(sep, xs), sep) == xs
  {
    if |xs| == 1 {
      SplitNoSep(xs[0], sep);
    } else {
      SplitJoin(xs[1..], sep);
      SplitAtSep(xs[0], Join(sep, xs[1..]), sep);
      assert xs == [xs[0]] + xs[1..];
    }
  }

  /**
   * `s.split(sep).last()`: the text after the last `sep`, or all of `s` when
   * it has none.
   */
  function LastField(s: string, sep: char): (r: string)
    ensures sep !in r
    ensures |r| <= |s| && s[|s| - |r|..] == r
    ensures |r| < |s| ==> s[|s| - |r| - 1] == sep
  {
    if s == [] then ""
    else if s[|s| - 1] == sep then ""
    else
      var p := LastField(s[..|s| - 1], sep);
      p + [s[|s| - 1]]
  }

  /** `line.strip_suffix('\r')` as `str::lines` applies it to every line. */
  function StripCarriageReturn(line: string): (r: string)
    ensures '\n' in r ==> '\n' in line
  {
    if |line| > 0 && line[|line| - 1] == '\r' then line[..|line| - 1] else line
  }

  function StripAll(pieces: seq<string>): (r: seq<string>)
    ensures |r| == |pieces|
    ensures forall i | 0 <= i < |r| :: r[i] == StripCarriageReturn(pieces[i])
  {
    if pieces == [] then [] else [StripCarriageReturn(pieces[0])] + StripAll(pieces[1..])
  }

  /**
   * `str::lines`: the pieces of `split_terminator('\n')` (a split whose last
   * piece is dropped when it is empty), each without a trailing `\r`.
   */
  function Lines(s: string): (r: seq<string>)
  {
    var pieces := Split(s, '\n');
    var kept := if pieces[|pieces| - 1] == "" then pieces[..|pieces| - 1] else pieces;
    StripAll(kept)
  }

  /** Three newline-terminated records read back as three lines, as the oracle's output is read. */
  lemma ThreeLines(a: string, b: string, c: string)
    requires '\n' !in a && '\n' !in b && '\n' !in c
    requires '\r' !in a && '\r' !in b && '\r' !in c
    ensures Lines(a + "\n" + b + "\n" + c + "\n") == [a, b, c]
  {
    var s := a + "\n" + b + "\n" + c + "\n";
    SplitAtSep(c, "", '\n');
    SplitAtSep(b, c + "\n", '\n');
    SplitAtSep(a, b + "\n" + c + "\n", '\n');
    assert c + "\n" == c + ['\n'] + "";
    assert b + "\n" + c + "\n" == b + ['\n'] + (c + "\n");
    assert s == a + ['\n'] + (b + "\n" + c + "\n");
    assert Split(s, '\n') == [a, b, c, ""];
    assert StripCarriageReturn(a) == a;
    assert StripCarriageReturn(b) == b;
    assert StripCarriageReturn(c) == c;
  }
}
