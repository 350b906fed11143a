/**
 * The string operations of the Kotlin/JVM standard library that the challenge-sheet
 * parser relies on, stated on `string` (= `seq<char>`), together with the printers that
 * invert them and the round trips between the two.
 */
module Text {
  import opened Wrappers

  /** Bounds of a 32-bit `Int`. */
  const IntMin: int := -0x8000_0000
  const IntMax: int := 0x7FFF_FFFF

  predicate IsDigit(c: char) {
    '0' <= c <= '9'
  }

  predicate AllDigits(s: string) {
    forall i :: 0 <= i < |s| ==> IsDigit(s[i])
  }

  function DigitValue(c: char): (d: nat)
    requires IsDigit(c)
    ensures d < 10
  {
    (c as int) - ('0' as int)
  }

  function DigitChar(d: nat): (c: char)
    requires d < 10
    ensures IsDigit(c) && DigitValue(c) == d
  {
    ('0' as int + d) as char
  }

  /** Value of a non-empty run of decimal digits, most significant digit first. */
  function DigitsValue(s: string): nat
    requires AllDigits(s)
  {
    if s == [] then 0 else DigitsValue(s[..|s| - 1]) * 10 + DigitValue(s[|s| - 1])
  }

  /** Decimal text of a natural number, as `Int.toString` prints it. */
  function Decimal(n: nat): (s: string)
    ensures 0 < |s| && AllDigits(s)
  {
    if n < 10 then [DigitChar(n)] else Decimal(n / 10) + [DigitChar(n % 10)]
  }

  /**
   * `String.toInt()` on the JVM, that is `java.lang.Integer.parseInt`: an optional `+` or
   * `-`, then at least one decimal digit and nothing else, and the value must fit in an `Int`.
   * `None` stands for the `NumberFormatException` it throws otherwise.
   */
  function ParseInt(s: string): (r: Option<int>)
    ensures r.Some? ==> IntMin <= r.value <= IntMax
    ensures r.Some? ==> 0 < |s| && AllDigits(s[1..]) && (IsDigit(s[0]) || s[0] == '-' || s[0] == '+')
  {
    var signed := 0 < |s| && (s[0] == '-' || s[0] == '+');
    var digits := if signed then s[1..] else s;
    if |digits| == 0 || !AllDigits(digits) then None
    else
      var v: int := if signed && s[0] == '-' then -(DigitsValue(digits) as int) else DigitsValue(digits);
      if IntMin <= v <= IntMax then Some(v) else None
  }

  lemma {:induction false} DecimalValue(n: nat)
    ensures DigitsValue(Decimal(n)) == n
    decreases n
  {
    var s := Decimal(n);
    if n >= 10 {
      DecimalValue(n / 10);
      assert s[..|s| - 1] == Decimal(n / 10);
    }
  }

  /** Every `Int` that is not negative survives printing and `toInt()`. */
  lemma ParseDecimal(n: nat)
    requires n <= IntMax
    ensures ParseInt(Decimal(n)) == Some(n)
  {
    DecimalValue(n);
  }

  /** A negative `Int`, printed with its minus sign, survives `toInt()`. */
  lemma ParseNegativeDecimal(n: nat)
    requires 0 < n <= -IntMin
    ensures ParseInt("-" + Decimal(n)) == Some(-(n as int))
  {
    DecimalValue(n);
    assert ("-" + Decimal(n))[1..] == Decimal(n);
  }

  /** `toInt()` rejects the empty string and a lone sign. */
  lemma ParseIntRejectsEmpty()
    ensures ParseInt("") == None && ParseInt("-") == None && ParseInt("+") == None
  {
  }

  /**
   * `CharSequence.split(sep)`: the text between consecutive separators, in order; empty
   * parts are kept, so there is always one part more than there are separators.
   */
  function Split(s: string, sep: char): (parts: seq<string>)
    ensures 0 < |parts|
    ensures forall i :: 0 <= i < |parts| ==> sep !in parts[i]
    decreases |s|
  {
    if |s| == 0 then [""]
    else
      var rest := Split(s[1..], sep);
      if s[0] == sep then [""] + rest
      else [[s[0]] + rest[0]] + rest[1..]
  }

  /** `joinToString(sep)`: the inverse of `Split`. */
  function Join(parts: seq<string>, sep: char): string
    requires 0 < |parts|
  {
    if |parts| == 1 then parts[0] else parts[0] + [sep] + Join(parts[1..], sep)
  }

  lemma {:induction false} SplitWithoutSeparator(s: string, sep: char)
    requires sep !in s
    ensures Split(s, sep) == [s]
    decreases |s|
  {
    if |s| > 0 {
      SplitWithoutSeparator(s[1..], sep);
      assert [s[0]] + s[1..] == s;
    }
  }

  /** Splitting a first part off: `p + sep + rest` splits into `p` followed by the parts of `rest`. */
  lemma {:induction false} SplitAfterPart(p: string, sep: char, rest: string)
    requires sep !in p
    ensures Split(p + [sep] + rest, sep) == [p] + Split(rest, sep)
    decreases |p|
  {
    if |p| == 0 {
      assert p + [sep] + rest == [sep] + rest;
      assert ([sep] + rest)[1..] == rest;
    } else {
      var s := p + [sep] + rest;
      assert s[1..] == p[1..] + [sep] + rest;
      SplitAfterPart(p[1..], sep, rest);
      assert [p[0]] + p[1..] == p;
    }
  }

  /** Splitting what was joined gives back the parts, provided no part holds the separator. */
  lemma {:induction false} SplitJoin(parts: seq<string>, sep: char)
    requires 0 < |parts|
    requires forall i :: 0 <= i < |parts| ==> sep !in parts[i]
    ensures Split(Join(parts, sep), sep) == parts
    decreases |parts|
  {
    if |parts| == 1 {
      SplitWithoutSeparator(parts[0], sep);
    } else {
      SplitJoin(parts[1..], sep);
      SplitAfterPart(parts[0], sep, Join(parts[1..], sep));
      assert [parts[0]] + parts[1..] == parts;
    }
  }

  /** Joining the parts of a split gives back the text. */
  lemma {:induction false} JoinSplit(s: string, sep: char)
    ensures Join(Split(s, sep), sep) == s
    decreases |s|
  {
    if |s| > 0 {
      JoinSplit(s[1..], sep);
      var rest := Split(s[1..], sep);
      if s[0] != sep {
        assert [s[0]] + s[1..] == s;
        if |rest| == 1 {
        } else {
          assert ([[s[0]] + rest[0]] + rest[1..])[1..] == rest[1..];
        }
      } else {
        assert ([""] + rest)[1..] == rest;
      }
    }
  }

  /**
   * `CharSequence.lines()`: the text split at every line break, where a line break is
   * `"\r\n"`, `"\n"` or `"\r"`; a trailing line break leaves an empty last line.
   */
  function Lines(s: string): (ls: seq<string>)
    ensures 0 < |ls|
    ensures forall i :: 0 <= i < |ls| ==> '\n' !in ls[i] && '\r' !in ls[i]
    decreases |s|
  {
    if |s| == 0 then [""]
    else if s[0] == '\n' then [""] + Lines(s[1..])
    else if s[0] == '\r' then
      if 1 < |s| && s[1] == '\n' then [""] + Lines(s[2..]) else [""] + Lines(s[1..])
    else
      var rest := Lines(s[1..]);
      [[s[0]] + rest[0]] + rest[1..]
  }

  /** Text without carriage returns has as its lines exactly its `'\n'`-separated parts. */
  lemma {:induction false} LinesWithoutCarriageReturn(s: string)
    requires '\r' !in s
    ensures Lines(s) == Split(s, '\n')
    decreases |s|
  {
    if |s| > 0 {
      LinesWithoutCarriageReturn(s[1..]);
    }
  }

  /** Lines joined with `'\n'` come back out of `lines()` unchanged. */
  lemma JoinedLines(ls: seq<string>)
    requires 0 < |ls|
    requires forall i :: 0 <= i < |ls| ==> '\n' !in ls[i] && '\r' !in ls[i]
    ensures Lines(Join(ls, '\n')) == ls
  {
    JoinHasNo(ls, '\n', '\r');
    LinesWithoutCarriageReturn(Join(ls, '\n'));
    SplitJoin(ls, '\n');
  }

  /** A joined text holds a character other than the separator only if a part holds it. */
  lemma {:induction false} JoinHasNo(parts: seq<string>, sep: char, c: char)
    requires 0 < |parts| && c != sep
    requires forall i :: 0 <= i < |parts| ==> c !in parts[i]
    ensures c !in Join(parts, sep)
    decreases |parts|
  {
    if |parts| > 1 {
      JoinHasNo(parts[1..], sep, c);
    }
  }

  /** `substringBefore(d)`: the text before the first `d`, or all of it when there is none. */
  function SubstringBefore(s: string, d: char): (r: string)
    ensures d !in r
    ensures |r| <= |s| && r == s[..|r|]
    ensures d !in s ==> r == s
    decreases |s|
  {
    if |s| == 0 || s[0] == d then "" else [s[0]] + SubstringBefore(s[1..], d)
  }

  /** `substringAfter(d)`: the text after the first `d`, or all of it when there is none. */
  function SubstringAfter(s: string, d: char): (r: string)
    ensures d !in s ==> r == s
    decreases |s|
  {
    if d !in s then s
    else if s[0] == d then s[1..]
    else SubstringAfter(s[1..], d)
  }

  /** Around the first delimiter the text is what comes before it, the delimiter, and what comes after. */
  lemma {:induction false} AroundFirstDelimiter(s: string, d: char)
    requires d in s
    ensures s == SubstringBefore(s, d) + [d] + SubstringAfter(s, d)
    decreases |s|
  {
    if s[0] != d {
      assert s == [s[0]] + s[1..];
      assert d in s[1..];
      AroundFirstDelimiter(s[1..], d);
    }
  }

  /** What a text `a + d + b` with no `d` in `a` holds before and after its first `d`. */
  lemma {:induction false} FirstDelimiterOf(a: string, d: char, b: string)
    requires d !in a
    ensures SubstringBefore(a + [d] + b, d) == a
    ensures SubstringAfter(a + [d] + b, d) == b
    decreases |a|
  {
    var s := a + [d] + b;
    assert s[|a|] == d;
    if |a| == 0 {
      assert s[1..] == b;
    } else {
      assert s[1..] == a[1..] + [d] + b;
      FirstDelimiterOf(a[1..], d, b);
      assert [a[0]] + a[1..] == a;
    }
  }
}
