/**
 * JavaScript's `parseInt(text, 10)` and the `parseInt(...) || default` idiom the
 * list middleware reads `page` and `limit` with.
 *
 * `parseInt` skips leading white space (the `StrWhiteSpaceChar` class of
 * ECMAScript), reads an optional sign and then the longest run of decimal
 * digits; with no digit at all the result is `NaN`, written `None` here.
 * Anything after the digits is ignored.
 */
module ParseInt {
  import opened Options
  import opened Text

  /** A `StrWhiteSpaceChar` of ECMAScript: white space or a line terminator. */
  predicate IsStrWhiteSpace(c: char) {
    || c == '\t' || c == '\n' || c == '\U{B}' || c == '\U{C}' || c == '\r' || c == ' '
    || c == '\U{A0}' || c == '\U{1680}' || ('\U{2000}' <= c <= '\U{200A}')
    || c == '\U{2028}' || c == '\U{2029}' || c == '\U{202F}' || c == '\U{205F}'
    || c == '\U{3000}' || c == '\U{FEFF}'
  }

  predicate IsDigit(c: char) {
    '0' <= c <= '9'
  }

  predicate AllWhiteSpace(s: string) {
    forall i :: 0 <= i < |s| ==> IsStrWhiteSpace(s[i])
  }

  /** The text without its leading white space. */
  function TrimStart(s: string): (r: string)
    ensures |r| <= |s| && r == s[|s| - |r|..]
    ensures r == [] || !IsStrWhiteSpace(r[0])
    ensures AllWhiteSpace(s[..|s| - |r|])
  {
    if s != [] && IsStrWhiteSpace(s[0]) then TrimStart(s[1..]) else s
  }

  /** Length of the run of decimal digits at the start of `s`. */
  function DigitRun(s: string): (n: nat)
    ensures n <= |s|
    ensures forall i :: 0 <= i < n ==> IsDigit(s[i])
    ensures n == |s| || !IsDigit(s[n])
  {
    if s == [] || !IsDigit(s[0]) then 0 else 1 + DigitRun(s[1..])
  }

  predicate AllDigits(d: string) {
    forall i :: 0 <= i < |d| ==> IsDigit(d[i])
  }

  /** The number a string of decimal digits denotes, read most significant digit first. */
  function DecimalValue(d: string): nat
    requires AllDigits(d)
  {
    if d == [] then 0 else 10 * DecimalValue(d[..|d| - 1]) + (d[|d| - 1] as int - '0' as int)
  }

  /** `parseInt(s, 10)`; `None` stands for `NaN`. */
  function Parse(s: string): (r: Option<int>)
    // `NaN` exactly when no digit follows the white space and the optional sign
    ensures r.None? <==> (var t := TrimStart(s); var b := if t != [] && (t[0] == '-' || t[0] == '+') then t[1..] else t;
                          b == [] || !IsDigit(b[0]))
    // a negative result needs a minus sign as the first non-blank character
    ensures r.Some? && r.value < 0 ==> TrimStart(s) != [] && TrimStart(s)[0] == '-'
  {
    ParseSigned(TrimStart(s))
  }

  /** The sign and the digits that follow it, once the white space is skipped. */
  function ParseSigned(t: string): Option<int> {
    if t != [] && t[0] == '-' then
      match ParseDigits(t[1..])
      case Some(v) => Some(-v)
      case None => None
    else if t != [] && t[0] == '+' then ParseDigits(t[1..])
    else ParseDigits(t)
  }

  /** The leading run of digits as a number, `NaN` when there is none. */
  function ParseDigits(body: string): Option<int> {
    var n := DigitRun(body);
    if n == 0 then None else Some(DecimalValue(body[..n]))
  }

  /** `parseInt(s, 10) || default`: `NaN` and zero are falsy, so both give the default. */
  function ParseOr(s: string, default: int): (r: int)
    ensures r == default || Parse(s) == Some(r)
    ensures r == default <== Parse(s) == None || Parse(s) == Some(0)
    ensures Parse(s).Some? && Parse(s).value != 0 ==> r == Parse(s).value
    ensures default != 0 ==> r != 0
  {
    match Parse(s)
    case Some(v) => if v != 0 then v else default
    case None => default
  }

  /** The decimal digits of `n`, as `String(n)` writes them. */
  function Digits(n: nat): (d: string)
    ensures |d| >= 1 && AllDigits(d)
    ensures |d| > 1 ==> d[0] != '0'
  {
    if n < 10 then [('0' as int + n) as char]
    else Digits(n / 10) + [('0' as int + n % 10) as char]
  }

  /** `String(n)` for an integer. */
  function Show(n: int): string {
    if n < 0 then "-" + Digits(-n) else Digits(n)
  }

  lemma {:induction false} DecimalValueOfDigits(n: nat)
    ensures DecimalValue(Digits(n)) == n
  {
    if n >= 10 {
      var d := Digits(n);
      DecimalValueOfDigits(n / 10);
      assert d[..|d| - 1] == Digits(n / 10);
    }
  }

  /** A digit run followed by something that is not a digit is read up to its end. */
  lemma {:induction false} DigitRunOfDigits(d: string, rest: string)
    requires AllDigits(d)
    requires rest == [] || !IsDigit(rest[0])
    ensures DigitRun(d + rest) == |d|
  {
    if d != [] {
      TailOfConcat(d, rest);
      DigitRunOfDigits(d[1..], rest);
    }
  }

  /** Leading white space is skipped up to the first other character. */
  lemma {:induction false} TrimStartOfSpace(ws: string, t: string)
    requires AllWhiteSpace(ws)
    requires t == [] || !IsStrWhiteSpace(t[0])
    ensures TrimStart(ws + t) == t
  {
    if ws != [] {
      TrimStartOfSpace(ws[1..], t);
      TrimStartSkip(ws[0], ws[1..] + t);
      HeadTail(ws);
      Reassociate([ws[0]], ws[1..], t);
    }
  }

  /** One white-space character in front is skipped. */
  lemma TrimStartSkip(c: char, r: string)
    requires IsStrWhiteSpace(c)
    ensures TrimStart([c] + r) == TrimStart(r)
  {
    ConcatParts([c], r);
  }

  lemma ParseDigitsOf(d: string, rest: string)
    requires |d| >= 1 && AllDigits(d)
    requires rest == [] || !IsDigit(rest[0])
    ensures ParseDigits(d + rest) == Some(DecimalValue(d))
  {
    DigitRunOfDigits(d, rest);
    ConcatParts(d, rest);
  }

  /** Digits after leading white space are read up to the first non-digit. */
  lemma ParseUnsigned(ws: string, d: string, rest: string)
    requires AllWhiteSpace(ws)
    requires |d| >= 1 && AllDigits(d)
    requires rest == [] || !IsDigit(rest[0])
    ensures Parse(ws + (d + rest)) == Some(DecimalValue(d))
  {
    ParseDigitsOf(d, rest);
    ParseAfterSpace(ws, d + rest);
  }

  /** A plus sign and digits after leading white space are read as the digits' value. */
  lemma ParsePositive(ws: string, d: string, rest: string)
    requires AllWhiteSpace(ws)
    requires |d| >= 1 && AllDigits(d)
    requires rest == [] || !IsDigit(rest[0])
    ensures Parse(ws + (['+'] + (d + rest))) == Some(DecimalValue(d))
  {
    var t := ['+'] + (d + rest);
    assert t[0] == '+' && t[1..] == d + rest;
    ParseDigitsOf(d, rest);
    ParseAfterSpace(ws, t);
  }

  lemma ParseSignedMinus(t: string, v: int)
    requires t != [] && t[0] == '-' && ParseDigits(t[1..]) == Some(v)
    ensures ParseSigned(t) == Some(-v)
  {
  }

  /** White space in front of a text does not change what `parseInt` reads from it. */
  lemma ParseAfterSpace(ws: string, t: string)
    requires AllWhiteSpace(ws)
    requires t == [] || !IsStrWhiteSpace(t[0])
    ensures Parse(ws + t) == ParseSigned(t)
  {
    TrimStartOfSpace(ws, t);
  }

  /** A minus sign and digits after leading white space are read as a negative number. */
  lemma ParseNegative(ws: string, d: string, rest: string, v: int)
    requires AllWhiteSpace(ws)
    requires |d| >= 1 && AllDigits(d) && v == DecimalValue(d)
    requires rest == [] || !IsDigit(rest[0])
    ensures Parse(ws + (['-'] + (d + rest))) == Some(-v)
  {
    var t := ['-'] + (d + rest);
    assert t[0] == '-' && t[1..] == d + rest;
    ParseDigitsOf(d, rest);
    ParseSignedMinus(t, v);
    ParseAfterSpace(ws, t);
  }

  /**
   * Reading back what `String(n)` writes, after any leading white space and
   * before any text that does not start with a digit, gives `n` again.
   */
  lemma ParseShow(ws: string, n: int, rest: string)
    requires AllWhiteSpace(ws)
    requires rest == [] || !IsDigit(rest[0])
    ensures Parse(ws + Show(n) + rest) == Some(n)
  {
    if n < 0 {
      ParseShowNegative(ws, n, rest);
    } else {
      var d := Digits(n);
      DecimalValueOfDigits(n);
      ParseUnsigned(ws, d, rest);
      Reassociate(ws, d, rest);
    }
  }

  lemma ParseShowNegative(ws: string, n: int, rest: string)
    requires AllWhiteSpace(ws)
    requires rest == [] || !IsDigit(rest[0])
    requires n < 0
    ensures Parse(ws + Show(n) + rest) == Some(n)
  {
    var d := Digits(-n);
    DecimalValueOfDigits(-n);
    ParseNegative(ws, d, rest, -n);
    assert Show(n) == ['-'] + d;
    Reassociate(['-'], d, rest);
    Reassociate(ws, ['-'] + d, rest);
  }

  /** A non-zero number written out is what `parseInt(...) || default` gives back, whatever the default. */
  lemma ParseOrShow(n: int, default: int)
    requires n != 0
    ensures ParseOr(Show(n), default) == n
  {
    ParseShow("", n, "");
    assert "" + Show(n) + "" == Show(n);
  }

  /** A text whose first non-blank character is neither a digit nor a sign followed by a digit is `NaN`. */
  lemma NotANumber(s: string)
    requires var t := TrimStart(s);
      t == [] || (!IsDigit(t[0]) && ((t[0] != '-' && t[0] != '+') || |t| == 1 || !IsDigit(t[1])))
    ensures Parse(s) == None
  {
  }
}
