/**
  The pieces of Go's `fmt` package that the topic codec relies on:
  `Sprintf("%d", n)` for a Go `int`, and `Sscanf` with literal text, `%d`
  (into an `int`) and `%s` (into a `string`).

  Go's `int` is 64 bits wide here, so `%d` rejects a number outside the
  `int64` range. `Sscanf` treats `'\n'` as an error where it would skip
  white space, and skips every other character of Go's white-space table.
*/
module Fmt {
  import opened Wrappers

  const MinInt64: int := -0x8000_0000_0000_0000
  const MaxInt64: int := 0x7fff_ffff_ffff_ffff

  /** Go's `int` on a 64-bit platform. */
  type Int64 = x: int | MinInt64 <= x <= MaxInt64

  /** Why a scan step failed; Sscanf reports each as a plain error. */
  datatype ScanError =
    | UnexpectedEOF
    | UnexpectedNewline
    | InputDoesNotMatchFormat
    | ExpectedInteger
    | IntegerOutOfRange

  /** The white-space table of Go's fmt scanner. */
  predicate IsSpace(c: char) {
    var n := c as int;
    (0x09 <= n <= 0x0d) || n == 0x20 || n == 0x85 || n == 0xa0 || n == 0x1680
    || (0x2000 <= n <= 0x200a) || n == 0x2028 || n == 0x2029 || n == 0x202f
    || n == 0x205f || n == 0x3000
  }

  predicate NoSpace(s: string) {
    forall i :: 0 <= i < |s| ==> !IsSpace(s[i])
  }

  predicate IsDigit(c: char) {
    '0' <= c <= '9'
  }

  predicate AllDigits(s: string) {
    forall i :: 0 <= i < |s| ==> IsDigit(s[i])
  }

  function DigitValue(c: char): (d: nat)
    requires IsDigit(c)
    ensures d < 10
  {
    c as int - '0' as int
  }

  function DigitChar(d: nat): (c: char)
    requires d < 10
    ensures IsDigit(c) && DigitValue(c) == d
  {
    ('0' as int + d) as char
  }

  // ---------------------------------------------------------------- Sprintf

  /** The decimal digits of `n`, most significant first, without leading zeros. */
  function Digits(n: nat): (s: string)
    ensures |s| > 0 && AllDigits(s)
    ensures s[0] != '0' || n == 0
  {
    if n < 10 then [DigitChar(n)] else Digits(n / 10) + [DigitChar(n % 10)]
  }

  /** `fmt.Sprintf("%d", n)`: a minus sign for a negative number, then its digits. */
  function FormatInt(n: int): (s: string)
    ensures |s| > 0 && NoSpace(s)
    ensures s[0] == '-' <==> n < 0
    ensures n >= 0 ==> s == Digits(n)
  {
    if n < 0 then "-" + Digits(-n) else Digits(n)
  }

  // ---------------------------------------------------------------- Sscanf

  /** The value of a decimal digit string (base 10, most significant first). */
  function DigitsValue(s: string): nat
    requires AllDigits(s)
  {
    if s == [] then 0 else 10 * DigitsValue(s[..|s| - 1]) + DigitValue(s[|s| - 1])
  }

  /** How many decimal digits `s` starts with. */
  function DigitRunLength(s: string): (n: nat)
    ensures n <= |s|
    ensures forall i :: 0 <= i < n ==> IsDigit(s[i])
    ensures n < |s| ==> !IsDigit(s[n])
  {
    if s == [] || !IsDigit(s[0]) then 0 else 1 + DigitRunLength(s[1..])
  }

  /** How many non-space characters `s` starts with. */
  function WordLength(s: string): (n: nat)
    ensures n <= |s|
    ensures forall i :: 0 <= i < n ==> !IsSpace(s[i])
    ensures n < |s| ==> IsSpace(s[n])
  {
    if s == [] || IsSpace(s[0]) then 0 else 1 + WordLength(s[1..])
  }

  /** How many white-space characters `s` starts with. */
  function SpaceRunLength(s: string): (n: nat)
    ensures n <= |s|
    ensures forall i :: 0 <= i < n ==> IsSpace(s[i])
    ensures n < |s| ==> !IsSpace(s[n])
  {
    if s == [] || !IsSpace(s[0]) then 0 else 1 + SpaceRunLength(s[1..])
  }

  /** A newline among the white space that `s` starts with. */
  predicate NewlineInLeadingSpace(s: string) {
    exists i :: 0 <= i < SpaceRunLength(s) && s[i] == '\n'
  }

  /** The scanner's SkipSpace: drop leading white space, but fail on a newline. */
  function SkipSpace(s: string): (r: Result<string, ScanError>)
    ensures r.Failure? <==> NewlineInLeadingSpace(s)
    ensures r.Failure? ==> r.error == UnexpectedNewline
    ensures r.Success? ==> r.value == s[SpaceRunLength(s)..]
  {
    if s == [] then Success(s)
    else if s[0] == '\n' then
      assert SpaceRunLength(s) > 0;
      Failure(UnexpectedNewline)
    else if IsSpace(s[0]) then
      NewlineAfterSpace(s);
      SkipSpace(s[1..])
    else Success(s)
  }

  lemma NewlineAfterSpace(s: string)
    requires s != [] && IsSpace(s[0]) && s[0] != '\n'
    ensures NewlineInLeadingSpace(s) <==> NewlineInLeadingSpace(s[1..])
  {
    if NewlineInLeadingSpace(s) {
      var i :| 0 <= i < SpaceRunLength(s) && s[i] == '\n';
      assert s[1..][i - 1] == '\n';
    }
    if NewlineInLeadingSpace(s[1..]) {
      var j :| 0 <= j < SpaceRunLength(s[1..]) && s[1..][j] == '\n';
      assert s[j + 1] == '\n';
    }
  }

  /** Literal format text: the input must continue with exactly `lit`. */
  function MatchLiteral(lit: string, s: string): (r: Result<string, ScanError>)
    ensures r.Success? <==> lit <= s
    ensures r.Success? ==> s == lit + r.value
  {
    if lit <= s then Success(s[|lit|..])
    else if s < lit then Failure(UnexpectedEOF)
    else Failure(InputDoesNotMatchFormat)
  }

  /** The length of the sign that `%d` accepts at the start of `t`: one `+` or `-`, or none. */
  function SignLength(t: string): (k: nat)
    ensures k <= |t|
  {
    if t != [] && (t[0] == '+' || t[0] == '-') then 1 else 0
  }

  /** The digits of the `%d` token at the start of `t`: all the digits that follow the sign. */
  function TokenDigits(t: string): (d: string)
    ensures AllDigits(d)
  {
    var k := SignLength(t);
    t[k..k + DigitRunLength(t[k..])]
  }

  /** The number the `%d` token at the start of `t` spells: negative after a `-`. */
  function TokenValue(t: string): int {
    if t != [] && t[0] == '-' then 0 - DigitsValue(TokenDigits(t)) else DigitsValue(TokenDigits(t))
  }

  /**
    The `%d` verb into a Go `int`: skip white space, accept one optional
    `+` or `-`, then one or more decimal digits (as many as there are);
    the value must fit in 64 bits. Returns the value and the unread input.
  */
  function ScanInt(s: string): (r: Result<(Int64, string), ScanError>)
    ensures r.Success? <==>
      (!NewlineInLeadingSpace(s)
       && var t := s[SpaceRunLength(s)..];
          TokenDigits(t) != [] && MinInt64 <= TokenValue(t) <= MaxInt64)
    ensures r.Success? ==>
      var t := s[SpaceRunLength(s)..];
      r.value == (TokenValue(t), t[SignLength(t) + |TokenDigits(t)|..])
    ensures r.Success? ==> |r.value.1| < |s| && r.value.1 == s[|s| - |r.value.1|..]
    ensures r.Success? ==> r.value.1 == [] || !IsDigit(r.value.1[0])
  {
    var skipped := SkipSpace(s);
    if skipped.Failure? then Failure(skipped.error)
    else
      var t := skipped.value;
      assert t == s[SpaceRunLength(s)..];
      ScanSignedNumber(t)
  }

  /** What `%d` does once white space is skipped: an optional sign, then the digits. */
  function ScanSignedNumber(t: string): (r: Result<(Int64, string), ScanError>)
    ensures r.Success? <==> TokenDigits(t) != [] && MinInt64 <= TokenValue(t) <= MaxInt64
    ensures r.Success? ==> r.value == (TokenValue(t), t[SignLength(t) + |TokenDigits(t)|..])
    ensures r.Failure? && TokenDigits(t) != [] ==> r.error == IntegerOutOfRange
    ensures r.Success? ==> |r.value.1| < |t| && r.value.1 == t[|t| - |r.value.1|..]
    ensures r.Success? ==> r.value.1 == [] || !IsDigit(r.value.1[0])
  {
    if t == [] then Failure(UnexpectedEOF)
    else
      var u := t[SignLength(t)..];
      assert u[..DigitRunLength(u)] == TokenDigits(t);
      var number := ScanNumber(u);
      if number.Failure? then Failure(number.error)
      else
        var (magnitude, rest) := number.value;
        assert rest == t[|t| - |rest|..];
        var v := if t[0] == '-' then 0 - magnitude else magnitude;
        if MinInt64 <= v <= MaxInt64 then Success((v, rest)) else Failure(IntegerOutOfRange)
  }

  /** One or more decimal digits, as many as there are, and their value. */
  function ScanNumber(u: string): (r: Result<(nat, string), ScanError>)
    ensures r.Success? <==> DigitRunLength(u) > 0
    ensures r.Success? ==> r.value == (DigitsValue(u[..DigitRunLength(u)]), u[DigitRunLength(u)..])
    ensures r.Success? ==> |r.value.1| < |u| && r.value.1 == u[|u| - |r.value.1|..]
    ensures r.Success? ==> r.value.1 == [] || !IsDigit(r.value.1[0])
  {
    var n := DigitRunLength(u);
    if u == [] then Failure(UnexpectedEOF)
    else if n == 0 then Failure(ExpectedInteger)
    else Success((DigitsValue(u[..n]), u[n..]))
  }

  /**
    The `%s` verb: skip white space, then take the longest run of
    non-space characters, which must not be empty.
  */
  function ScanWord(s: string): (r: Result<(string, string), ScanError>)
    ensures r.Success? <==> !NewlineInLeadingSpace(s) && SpaceRunLength(s) < |s|
    ensures r.Success? ==>
      var t := s[SpaceRunLength(s)..];
      r.value == (t[..WordLength(t)], t[WordLength(t)..])
    ensures r.Success? ==> r.value.0 != [] && NoSpace(r.value.0)
    ensures r.Success? ==> r.value.1 == [] || IsSpace(r.value.1[0])
    ensures r.Success? ==> |r.value.0 + r.value.1| <= |s| && r.value.0 + r.value.1 == s[|s| - |r.value.0 + r.value.1|..]
  {
    var skipped := SkipSpace(s);
    if skipped.Failure? then Failure(skipped.error)
    else
      var t := skipped.value;
      assert t == s[SpaceRunLength(s)..];
      if t == [] then Failure(UnexpectedEOF)
      else
        var n := WordLength(t);
        assert t[..n] + t[n..] == t;
        Success((t[..n], t[n..]))
  }

  // ---------------------------------------------------------------- lemmas

  /** Reading back the digits that Digits writes gives the number again. */
  lemma {:induction false} DigitsValueOfDigits(n: nat)
    ensures DigitsValue(Digits(n)) == n
  {
    if n >= 10 {
      var d := Digits(n);
      assert d[..|d| - 1] == Digits(n / 10);
      DigitsValueOfDigits(n / 10);
    }
  }

  lemma {:induction false} DigitRunOfDigits(d: string, rest: string)
    requires AllDigits(d)
    requires rest == [] || !IsDigit(rest[0])
    ensures DigitRunLength(d + rest) == |d|
  {
    if d != [] {
      assert (d + rest)[1..] == d[1..] + rest;
      DigitRunOfDigits(d[1..], rest);
    }
  }

  /** A string free of white space is one whole `%s` word. */
  lemma {:induction false} WordOfNoSpace(s: string)
    requires NoSpace(s)
    ensures WordLength(s) == |s|
  {
    if s != [] {
      WordOfNoSpace(s[1..]);
    }
  }

  /**
    `%d` reads back what `Sprintf("%d")` wrote, for every 64-bit value,
    provided the next character is not a digit.
  */
  lemma ScanFormatInt(n: Int64, rest: string)
    requires rest == [] || !IsDigit(rest[0])
    ensures ScanInt(FormatInt(n) + rest) == Success((n, rest))
  {
    var s := FormatInt(n) + rest;
    assert !IsSpace(s[0]);
    assert SkipSpace(s) == Success(s);
    if n < 0 {
      ScanNegative(n, rest);
    } else {
      ScanNonNegative(n, rest);
    }
  }

  lemma ScanNegative(n: Int64, rest: string)
    requires n < 0
    requires rest == [] || !IsDigit(rest[0])
    ensures ScanSignedNumber(FormatInt(n) + rest) == Success((n, rest))
  {
    var m: nat := -(n as int);
    var t := FormatInt(n) + rest;
    NegativeTail(n, rest);
    ScanNumberOfDigits(m, rest);
    ScanMinus(t, m, rest);
  }

  lemma NegativeTail(n: Int64, rest: string)
    requires n < 0
    ensures var t := FormatInt(n) + rest; t[0] == '-' && t[1..] == Digits(-(n as int)) + rest
  {
    assert FormatInt(n) == "-" + Digits(-(n as int));
  }

  lemma ScanMinus(t: string, m: nat, rest: string)
    requires t != [] && t[0] == '-'
    requires ScanNumber(t[1..]) == Success((m, rest))
    requires m <= -MinInt64
    ensures ScanSignedNumber(t) == Success((0 - m, rest))
  {
    assert SignLength(t) == 1;
  }

  lemma ScanNonNegative(n: Int64, rest: string)
    requires n >= 0
    requires rest == [] || !IsDigit(rest[0])
    ensures ScanSignedNumber(FormatInt(n) + rest) == Success((n, rest))
  {
    ScanNumberOfDigits(n, rest);
    assert (Digits(n) + rest)[0] != '+';
  }

  /** Literal text followed by anything matches, leaving what follows. */
  lemma MatchLiteralThen(lit: string, x: string)
    ensures MatchLiteral(lit, lit + x) == Success(x)
  {
    assert (lit + x)[..|lit|] == lit;
    assert (lit + x)[|lit|..] == x;
  }

  lemma ScanNumberOfDigits(m: nat, rest: string)
    requires rest == [] || !IsDigit(rest[0])
    ensures ScanNumber(Digits(m) + rest) == Success((m, rest))
  {
    var d := Digits(m);
    var u := d + rest;
    DigitRunOfDigits(d, rest);
    assert u[..|d|] == d;
    assert u[|d|..] == rest;
    DigitsValueOfDigits(m);
  }

  /** `%s` on white-space-free text takes all of it. */
  lemma ScanWordOfNoSpace(s: string)
    requires s != [] && NoSpace(s)
    ensures ScanWord(s) == Success((s, []))
  {
    assert SkipSpace(s) == Success(s);
    WordOfNoSpace(s);
    assert s[..|s|] == s && s[|s|..] == [];
  }
}
