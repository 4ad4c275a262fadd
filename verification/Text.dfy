/** Byte strings, white space and decimal numbers, as the C++ standard library treats them in the
classic locale. A `char` stands for one byte of a std::string; nothing depends on its width. */
module Text {
  import opened Wrappers

  type Bytes = string

  const TWO_64 := 0x1_0000_0000_0000_0000

  type U64 = n: nat | n < TWO_64

  // ---------------------------------------------------------------- white space

  /** std::isspace. */
  predicate IsSpace(c: char) {
    c == ' ' || c == '\t' || c == '\n' || c == '\r' || c == '\U{000B}' || c == '\U{000C}'
  }

  /** In the classic locale: the codes 9 to 13, and 32. */
  lemma SpaceCodes(c: char)
    ensures IsSpace(c) <==> 9 <= c as int <= 13 || c as int == 32
  {
  }

  predicate AllSpace(s: Bytes) { forall i | 0 <= i < |s| :: IsSpace(s[i]) }

  predicate NoSpace(s: Bytes) { forall i | 0 <= i < |s| :: !IsSpace(s[i]) }

  /** Neither begins nor ends with white space. */
  predicate Trimmed(s: Bytes) { s != [] ==> !IsSpace(s[0]) && !IsSpace(s[|s| - 1]) }

  /** `>> std::ws`: what is left after the leading white space. */
  function SkipSpace(s: Bytes): (r: Bytes)
    ensures |r| <= |s| && r == s[|s| - |r|..]
    ensures AllSpace(s[..|s| - |r|])
    ensures r != [] ==> !IsSpace(r[0])
  {
    if s != [] && IsSpace(s[0]) then
      var r := SkipSpace(s[1..]);
      assert s[..|s| - |r|] == [s[0]] + s[1..][..|s| - 1 - |r|];
      r
    else s
  }

  lemma {:induction false} SkipSpaceOver(pre: Bytes, s: Bytes)
    requires AllSpace(pre)
    ensures SkipSpace(pre + s) == SkipSpace(s)
  {
    if pre == [] {
      assert pre + s == s;
    } else {
      assert (pre + s)[1..] == pre[1..] + s;
      SkipSpaceOver(pre[1..], s);
    }
  }

  /** The white-space-delimited word `>> std::string` extracts, leading white space already skipped. */
  function Word(s: Bytes): (w: Bytes)
    ensures NoSpace(w) && w <= s
    ensures |w| < |s| ==> IsSpace(s[|w|])
  {
    if s == [] || IsSpace(s[0]) then [] else [s[0]] + Word(s[1..])
  }

  lemma {:induction false} WordOf(w: Bytes, rest: Bytes)
    requires NoSpace(w) && (rest != [] ==> IsSpace(rest[0]))
    ensures Word(w + rest) == w
  {
    if w == [] {
      assert w + rest == rest;
    } else {
      assert (w + rest)[1..] == w[1..] + rest;
      WordOf(w[1..], rest);
    }
  }

  /** The string without its outer white space. */
  function Strip(s: Bytes): (r: Bytes)
    ensures |r| <= |s|
    decreases |s|
  {
    if s != [] && IsSpace(s[0]) then Strip(s[1..])
    else if s != [] && IsSpace(s[|s| - 1]) then Strip(s[..|s| - 1])
    else s
  }

  lemma {:induction false} StripTrims(s: Bytes)
    ensures Trimmed(Strip(s))
    decreases |s|
  {
    if s != [] && IsSpace(s[0]) {
      StripTrims(s[1..]);
    } else if s != [] && IsSpace(s[|s| - 1]) {
      StripTrims(s[..|s| - 1]);
    }
  }

  lemma {:induction false} StripSubset(s: Bytes, c: char)
    requires c !in s
    ensures c !in Strip(s)
    decreases |s|
  {
    if s != [] && IsSpace(s[0]) {
      StripSubset(s[1..], c);
    } else if s != [] && IsSpace(s[|s| - 1]) {
      StripSubset(s[..|s| - 1], c);
    }
  }

  lemma {:induction false} StripBefore(pre: Bytes, s: Bytes)
    requires AllSpace(pre)
    ensures Strip(pre + s) == Strip(s)
  {
    if pre == [] {
      assert pre + s == s;
    } else {
      assert (pre + s)[1..] == pre[1..] + s;
      StripBefore(pre[1..], s);
    }
  }

  lemma {:induction false} StripAfter(s: Bytes, post: Bytes)
    requires AllSpace(post)
    ensures Strip(s + post) == Strip(s)
    decreases |s| + |post|
  {
    if post == [] {
      assert s + post == s;
    } else if s != [] && IsSpace(s[0]) {
      assert (s + post)[1..] == s[1..] + post;
      StripAfter(s[1..], post);
    } else if s == [] {
      assert s + post == post;
      assert post == post + [];
      StripBefore(post, []);
    } else {
      var n := |post| - 1;
      assert (s + post)[..|s| + n] == s + post[..n];
      StripAfter(s, post[..n]);
    }
  }

  /** Outer white space is irrelevant to Strip, and a trimmed string is its own Strip. */
  lemma StripOuter(pre: Bytes, s: Bytes, post: Bytes)
    requires AllSpace(pre) && AllSpace(post)
    ensures Strip(pre + s + post) == Strip(s)
    ensures Trimmed(s) ==> Strip(s) == s
  {
    StripAfter(pre + s, post);
    StripBefore(pre, s);
  }

  // ---------------------------------------------------------------- case

  /** std::toupper. */
  function ToUpper(c: char): char { if 'a' <= c <= 'z' then c - 'a' + 'A' else c }

  function Upper(s: Bytes): (r: Bytes)
    ensures |r| == |s|
    ensures forall i | 0 <= i < |s| :: r[i] == ToUpper(s[i])
  {
    seq(|s|, i requires 0 <= i < |s| => ToUpper(s[i]))
  }

  /** The word, letter by letter in either case. */
  predicate Spells(s: Bytes, capitals: Bytes, smalls: Bytes)
    requires |capitals| == |smalls|
  {
    |s| == |capitals| && forall i | 0 <= i < |s| :: s[i] == capitals[i] || s[i] == smalls[i]
  }

  const SMALLS := "abcdefghijklmnopqrstuvwxyz"
  const CAPITALS := "ABCDEFGHIJKLMNOPQRSTUVWXYZ"

  lemma LettersOf(c: char)
    ensures 'a' <= c <= 'z' ==> (c - 'a') as int < 26 && SMALLS[(c - 'a') as int] == c
    ensures 'a' <= c <= 'z' ==> CAPITALS[(c - 'a') as int] == ToUpper(c)
    ensures c in SMALLS <==> 'a' <= c <= 'z'
  {
    if 'a' <= c <= 'z' { assert SMALLS[(c - 'a') as int] == c; }
  }

  /** A small letter is raised to the capital at its place in the alphabet, anything else is kept. */
  lemma UpperLetters(s: Bytes, i: nat)
    requires i < |s|
    ensures s[i] !in SMALLS ==> Upper(s)[i] == s[i]
    ensures forall k | 0 <= k < 26 && s[i] == SMALLS[k] :: Upper(s)[i] == CAPITALS[k]
  {
    LettersOf(s[i]);
    assert forall k | 0 <= k < 26 :: SMALLS[k] as int == 97 + k;
  }

  // ---------------------------------------------------------------- decimal numbers

  predicate IsDigit(c: char) { '0' <= c <= '9' }

  predicate AllDigits(s: Bytes) { forall i | 0 <= i < |s| :: IsDigit(s[i]) }

  /** std::to_string and `<<` on unsigned integers. */
  function Print(n: nat): (s: Bytes)
    ensures s != [] && AllDigits(s)
  {
    (if n < 10 then [] else Print(n / 10)) + ['0' + (n % 10) as char]
  }

  function Value(s: Bytes): nat
    requires AllDigits(s)
  {
    if s == [] then 0 else 10 * Value(s[..|s| - 1]) + (s[|s| - 1] - '0') as nat
  }

  lemma {:induction false} ValueOfPrint(n: nat)
    ensures Value(Print(n)) == n
  {
    var s := Print(n);
    if n < 10 {
      assert s[..|s| - 1] == [];
    } else {
      assert s[..|s| - 1] == Print(n / 10);
      ValueOfPrint(n / 10);
    }
  }

  /** Decimal notation: one digit for a number below ten, and the last digit after those of the rest. */
  lemma PrintDigits(n: nat, d: nat)
    requires d < 10
    ensures Print(d) == ["0123456789"[d]]
    ensures n > 0 ==> Print(10 * n + d) == Print(n) + ["0123456789"[d]]
  {
    assert "0123456789"[d] == '0' + d as char;
    assert (10 * n + d) / 10 == n && (10 * n + d) % 10 == d;
  }

  function Pow10(k: nat): nat { if k == 0 then 1 else 10 * Pow10(k - 1) }

  lemma {:induction false} PrintLength(n: nat, k: nat)
    requires 0 < k && n < Pow10(k)
    ensures |Print(n)| <= k
  {
    if n >= 10 {
      assert Pow10(k) == 10 * Pow10(k - 1);
      PrintLength(n / 10, k - 1);
    }
  }

  lemma U64Length(n: U64)
    ensures |Print(n)| <= 20
  {
    assert Pow10(5) == 100000;
    assert Pow10(10) == 10000000000 by { assert Pow10(7) == 10000000; }
    assert Pow10(15) == 1000000000000000 by { assert Pow10(12) == 1000000000000; }
    assert Pow10(20) == 100000000000000000000 by { assert Pow10(17) == 100000000000000000; }
    PrintLength(n, 20);
  }

  /** The longest run of digits at the head of s. */
  function Digits(s: Bytes): (d: Bytes)
    ensures AllDigits(d) && d <= s
    ensures |d| < |s| ==> !IsDigit(s[|d|])
  {
    if s == [] || !IsDigit(s[0]) then [] else [s[0]] + Digits(s[1..])
  }

  lemma {:induction false} DigitsOf(d: Bytes, rest: Bytes)
    requires AllDigits(d) && (rest != [] ==> !IsDigit(rest[0]))
    ensures Digits(d + rest) == d
  {
    if d == [] {
      assert d + rest == rest;
    } else {
      assert (d + rest)[1..] == d[1..] + rest;
      DigitsOf(d[1..], rest);
    }
  }

  /** What `>> n` leaves in an unsigned 64-bit n, and whether the stream is still good. */
  datatype Extracted = Extracted(value: U64, ok: bool)

  /** `>>` into a uint64_t: white space, an optional sign, digits. No digits store 0, too large a
      number stores the maximum, and both fail; a minus sign negates modulo 2^64. */
  function ExtractU64(s: Bytes): Extracted { Numeral(SkipSpace(s)) }

  function Unsigned(t: Bytes): Bytes { if t != [] && (t[0] == '-' || t[0] == '+') then t[1..] else t }

  function Numeral(t: Bytes): Extracted {
    var d := Digits(Unsigned(t));
    if d == [] then Extracted(0, false)
    else if Value(d) >= TWO_64 then Extracted(TWO_64 - 1, false)
    else if t[0] == '-' && Value(d) != 0 then Extracted(TWO_64 - Value(d), true)
    else Extracted(Value(d), true)
  }

  lemma NumeralOf(d: Bytes, rest: Bytes)
    requires d != [] && AllDigits(d) && (rest != [] ==> !IsDigit(rest[0])) && Value(d) < TWO_64
    ensures Numeral(d + rest) == Extracted(Value(d), true)
  {
    var t := d + rest;
    assert IsDigit(t[0]);
    assert Unsigned(t) == t;
    DigitsOf(d, rest);
  }

  lemma SkipToDigits(pre: Bytes, d: Bytes, rest: Bytes)
    requires d != [] && IsDigit(d[0]) && AllSpace(pre)
    ensures SkipSpace(pre + d + rest) == d + rest
  {
    var t := d + rest;
    assert pre + d + rest == pre + t;
    SkipSpaceOver(pre, t);
    assert IsDigit(t[0]);
    assert SkipSpace(t) == t;
  }

  /** Printing and extracting are inverse for every 64-bit number, whatever non-digit follows. */
  lemma DecimalRoundTrip(pre: Bytes, n: U64, rest: Bytes)
    requires AllSpace(pre) && (rest != [] ==> !IsDigit(rest[0]))
    ensures ExtractU64(pre + Print(n) + rest) == Extracted(n, true)
  {
    var d := Print(n);
    ValueOfPrint(n);
    SkipToDigits(pre, d, rest);
    NumeralOf(d, rest);
  }

  /** With a sign, or too large for 64 bits: a minus sign negates modulo 2^64, a number that does not fit
      gives the largest and fails, and what begins with neither a sign nor a digit gives zero and fails. */
  lemma SignedNumbers(pre: Bytes, n: nat, rest: Bytes)
    requires AllSpace(pre) && (rest != [] ==> !IsDigit(rest[0]))
    ensures var limit := 18446744073709551616;
      && ExtractU64(pre + ("+" + Print(n)) + rest) == (if n < limit then Extracted(n, true) else Extracted(limit - 1, false))
      && ExtractU64(pre + ("-" + Print(n)) + rest) ==
           if n >= limit then Extracted(limit - 1, false) else Extracted(if n == 0 then 0 else limit - n, true)
    ensures rest == [] || (!IsSpace(rest[0]) && rest[0] != '+' && rest[0] != '-') ==> ExtractU64(pre + rest) == Extracted(0, false)
  {
    hide Print, Value;
    ValueOfPrint(n);
    SignedNumeral(pre, '+', Print(n), rest);
    SignedNumeral(pre, '-', Print(n), rest);
    SkipSpaceOver(pre, rest);
  }

  lemma SignedNumeral(pre: Bytes, sign: char, d: Bytes, rest: Bytes)
    requires AllSpace(pre) && sign in "+-" && d != [] && AllDigits(d) && (rest != [] ==> !IsDigit(rest[0]))
    ensures ExtractU64(pre + ([sign] + d) + rest) ==
      if Value(d) >= TWO_64 then Extracted(TWO_64 - 1, false)
      else if sign == '-' && Value(d) != 0 then Extracted(TWO_64 - Value(d), true) else Extracted(Value(d), true)
  {
    hide Value, Numeral, Digits, SkipSpace;
    var t := [sign] + d + rest;
    assert pre + ([sign] + d) + rest == pre + t;
    SkipSpaceOver(pre, t);
    SignStays(sign, d + rest);
    assert [sign] + (d + rest) == t;
    DigitsOf(d, rest);
    NumeralCases(t, d);
  }

  lemma SignStays(sign: char, rest: Bytes)
    requires sign in "+-"
    ensures SkipSpace([sign] + rest) == [sign] + rest && Unsigned([sign] + rest) == rest
  {
    assert ([sign] + rest)[1..] == rest;
  }

  lemma NumeralCases(t: Bytes, d: Bytes)
    requires t != [] && d != [] && Digits(Unsigned(t)) == d
    ensures Numeral(t) ==
      if Value(d) >= TWO_64 then Extracted(TWO_64 - 1, false)
      else if t[0] == '-' && Value(d) != 0 then Extracted(TWO_64 - Value(d), true) else Extracted(Value(d), true)
  {
    hide Value, Digits;
  }

  lemma DecimalAlone(n: U64)
    ensures ExtractU64(Print(n)) == Extracted(n, true)
  {
    var d := Print(n);
    ValueOfPrint(n);
    SkipToDigits([], d, []);
    NumeralOf(d, []);
    NothingAround(d);
  }

  lemma NothingAround(d: Bytes)
    ensures [] + d + [] == d && d + [] == d
  {
  }

  // ---------------------------------------------------------------- lines

  /** The index of the first newline, or the length. */
  function NewlineAt(s: Bytes): (k: nat)
    ensures k <= |s|
    ensures '\n' !in s[..k]
    ensures k < |s| ==> s[k] == '\n'
  {
    if s == [] || s[0] == '\n' then 0
    else
      var k := 1 + NewlineAt(s[1..]);
      assert s[..k] == [s[0]] + s[1..][..k - 1];
      k
  }

  lemma {:induction false} NewlineAfter(line: Bytes, rest: Bytes)
    requires '\n' !in line
    ensures NewlineAt(line + rest) == |line| + NewlineAt(rest)
  {
    if line == [] {
      assert line + rest == rest;
    } else {
      assert (line + rest)[1..] == line[1..] + rest;
      NewlineAfter(line[1..], rest);
    }
  }

  /** A line and what follows it in the stream. */
  datatype Line = Line(text: Bytes, rest: Bytes)

  /** recv_line's limit. */
  const MAX_LINE := 4096

  function StripCr(s: Bytes): Bytes { if s != [] && s[|s| - 1] == '\r' then s[..|s| - 1] else s }

  /** The next line of a stream that ends where `s` ends: its bytes up to a newline within the
      limit, less one trailing carriage return; or the unterminated rest at the end of the stream,
      as it is. None when there is no byte left or no newline within the limit. */
  function TakeLine(s: Bytes): Option<Line> {
    var k := NewlineAt(s);
    if k >= MAX_LINE then None
    else if k < |s| then Some(Line(StripCr(s[..k]), s[k + 1..]))
    else if s != [] then Some(Line(s, []))
    else None
  }

  /** A terminated line is taken off the front of any stream exactly when it is short enough. */
  lemma TakeLineOf(line: Bytes, rest: Bytes)
    requires '\n' !in line
    ensures TakeLine(line + "\n" + rest) == if |line| < MAX_LINE then Some(Line(StripCr(line), rest)) else None
  {
    var s := line + "\n" + rest;
    assert s == line + ("\n" + rest);
    NewlineAfter(line, "\n" + rest);
    assert s[..|line|] == line && s[|line| + 1..] == rest;
  }

  /** A line sent with a carriage return and a newline is taken without either; of several carriage
      returns before the newline one is taken off. */
  lemma TakeCrLfLine(text: Bytes, rest: Bytes)
    requires '\n' !in text
    ensures TakeLine(text + "\r\n" + rest) == if |text| + 1 < MAX_LINE then Some(Line(text, rest)) else None
    ensures text == [] || text[|text| - 1] != '\r' ==>
      TakeLine(text + "\n" + rest) == if |text| < MAX_LINE then Some(Line(text, rest)) else None
  {
    hide TakeLine;
    var line := text + "\r";
    assert text + "\r\n" + rest == line + "\n" + rest;
    TakeLineOf(line, rest);
    TakeLineOf(text, rest);
    assert line[..|line| - 1] == text;
  }

  /** At the end of the stream the unterminated rest is a line, unless it is empty or too long. */
  lemma TakeLastLine(line: Bytes)
    requires '\n' !in line
    ensures TakeLine(line) == if line != [] && |line| < MAX_LINE then Some(Line(line, [])) else None
  {
    NewlineAfter(line, []);
    assert line + [] == line;
  }

  lemma TakeLineTooLong(line: Bytes, rest: Bytes)
    requires '\n' !in line && |line| >= MAX_LINE
    ensures TakeLine(line + rest) == None
  {
    NewlineAfter(line, rest);
  }
}
