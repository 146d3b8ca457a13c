/**
 * The two pieces of PHP string semantics the mapper relies on: the `(int)`
 * cast it applies to a driver's error code before re-throwing, and `sprintf`
 * with `%s` conversions, which assembles its SELECT statements.
 */
module Php {

  predicate IsDigit(c: char) {
    '0' <= c <= '9'
  }

  /** The characters PHP skips before a numeric prefix: space, \t, \n, \r, \v and \f. */
  predicate IsWhitespace(c: char) {
    c == ' ' || c == '\t' || c == '\n' || c == '\r' || c == '\U{0B}' || c == '\U{0C}'
  }

  predicate AllDigits(s: string) {
    forall i :: 0 <= i < |s| ==> IsDigit(s[i])
  }

  function DigitValue(c: char): (d: nat)
    requires IsDigit(c)
    ensures d < 10
  {
    c as int - '0' as int
  }

  function DigitChar(d: nat): (c: char)
    requires d < 10
    ensures IsDigit(c) && DigitValue(c) == d
  {
    (d + '0' as int) as char
  }

  /** The length of the longest prefix of `s` made of decimal digits. */
  function DigitRun(s: string): (n: nat)
    ensures n <= |s|
    ensures AllDigits(s[..n])
    ensures n < |s| ==> !IsDigit(s[n])
  {
    if s != [] && IsDigit(s[0]) then
      var k := DigitRun(s[1..]);
      assert s[..1 + k] == [s[0]] + s[1..][..k];
      1 + k
    else
      0
  }

  /** The number a string of decimal digits denotes, most significant digit first. */
  function DecimalValue(ds: string): nat
    requires AllDigits(ds)
  {
    if ds == [] then 0 else 10 * DecimalValue(ds[..|ds| - 1]) + DigitValue(ds[|ds| - 1])
  }

  /** PHP's decimal rendering of a natural number: no sign, no leading zeros. */
  function DecimalString(n: nat): (s: string)
    ensures 0 < |s| && AllDigits(s)
  {
    if n < 10 then [DigitChar(n)] else DecimalString(n / 10) + [DigitChar(n % 10)]
  }

  /** PHP's rendering of an integer: a minus sign before the digits of a negative one. */
  function IntString(n: int): string {
    if n < 0 then "-" + DecimalString(-n) else DecimalString(n)
  }

  /** `s` without its leading whitespace. */
  function TrimLeadingWhitespace(s: string): (t: string)
    ensures |t| <= |s| && t == s[|s| - |t|..]
    ensures forall i :: 0 <= i < |s| - |t| ==> IsWhitespace(s[i])
    ensures t == [] || !IsWhitespace(t[0])
  {
    if s != [] && IsWhitespace(s[0]) then TrimLeadingWhitespace(s[1..]) else s
  }

  /** The value of an optional sign followed by the leading digits of `t`; 0 when no digit comes first. */
  function SignedPrefixValue(t: string): int {
    if t != [] && (t[0] == '-' || t[0] == '+') then
      var v: int := DecimalValue(t[1..][..DigitRun(t[1..])]);
      if t[0] == '-' then -v else v
    else
      DecimalValue(t[..DigitRun(t)])
  }

  /**
   * PHP's `(int)` cast of a string: leading whitespace is skipped, then an
   * optional sign and the longest run of decimal digits give the value; a
   * string without such a prefix casts to 0.
   */
  function IntCast(s: string): int {
    SignedPrefixValue(TrimLeadingWhitespace(s))
  }

  lemma {:induction false} DecimalValueOfDecimalString(n: nat)
    ensures DecimalValue(DecimalString(n)) == n
  {
    if n >= 10 {
      var s := DecimalString(n);
      assert s[..|s| - 1] == DecimalString(n / 10);
      DecimalValueOfDecimalString(n / 10);
    }
  }

  /** A run of digits followed by a non-digit (or nothing) is exactly the digit run. */
  lemma {:induction false} DigitRunStopsAtNonDigit(ds: string, rest: string)
    requires AllDigits(ds)
    requires rest == [] || !IsDigit(rest[0])
    ensures DigitRun(ds + rest) == |ds|
  {
    if ds == [] {
      assert ds + rest == rest;
    } else {
      assert (ds + rest)[1..] == ds[1..] + rest;
      DigitRunStopsAtNonDigit(ds[1..], rest);
    }
  }

  /**
   * Nothing at the head of `rest` continues a numeric string: no digit, no
   * decimal point and no exponent mark.
   */
  predicate EndsNumber(rest: string) {
    rest == [] || (!IsDigit(rest[0]) && rest[0] != '.' && rest[0] != 'e' && rest[0] != 'E')
  }

  /**
   * Casting PHP's rendering of an integer, followed by anything that does
   * not continue a number, gives the integer back: "23000" casts to 23000,
   * "42S02" to 42, "-7" to -7.
   */
  lemma IntCastOfRendering(n: int, rest: string)
    requires EndsNumber(rest)
    ensures IntCast(IntString(n) + rest) == n
  {
    if n < 0 {
      var a: nat := -n;
      var ds := DecimalString(a);
      assert IntString(n) == "-" + ds;
      assert IntString(n) + rest == "-" + (ds + rest);
      IntCastOfNegative(a, rest);
    } else {
      var ds := DecimalString(n);
      assert IntString(n) == ds;
      IntCastOfNatural(n, rest);
    }
  }

  lemma IntCastOfNatural(a: nat, rest: string)
    requires rest == [] || !IsDigit(rest[0])
    ensures IntCast(DecimalString(a) + rest) == a
  {
    var t := DecimalString(a) + rest;
    assert IsDigit(t[0]);
    assert TrimLeadingWhitespace(t) == t;
    DigitsValueThenRest(a, rest);
  }

  lemma IntCastOfNegative(a: nat, rest: string)
    requires rest == [] || !IsDigit(rest[0])
    ensures IntCast("-" + (DecimalString(a) + rest)) == -(a as int)
  {
    var t := DecimalString(a) + rest;
    var s := "-" + t;
    assert TrimLeadingWhitespace(s) == s;
    assert s[1..] == t;
    DigitsValueThenRest(a, rest);
  }

  /** The leading digit run of a natural number's rendering followed by a non-digit denotes that number. */
  lemma DigitsValueThenRest(a: nat, rest: string)
    requires rest == [] || !IsDigit(rest[0])
    ensures var t := DecimalString(a) + rest;
      DigitRun(t) == |DecimalString(a)| && DecimalValue(t[..DigitRun(t)]) == a
  {
    var ds := DecimalString(a);
    DigitRunStopsAtNonDigit(ds, rest);
    DecimalValueOfDecimalString(a);
    assert (ds + rest)[..|ds|] == ds;
  }

  /** A non-empty string of digits casts to the number it denotes. */
  lemma IntCastOfDigits(ds: string)
    requires ds != [] && AllDigits(ds)
    ensures IntCast(ds) == DecimalValue(ds)
  {
    DigitRunStopsAtNonDigit(ds, []);
    assert ds + [] == ds;
    assert TrimLeadingWhitespace(ds) == ds;
    assert ds[..|ds|] == ds;
  }

  /**
   * A string that starts with neither whitespace, a sign, a digit nor a
   * decimal point, such as the SQLSTATE "HY000", casts to 0.
   */
  lemma IntCastOfNonNumeric(s: string)
    requires s != [] && !IsWhitespace(s[0]) && !IsDigit(s[0]) && s[0] != '-' && s[0] != '+' && s[0] != '.'
    ensures IntCast(s) == 0
  {
    assert TrimLeadingWhitespace(s) == s;
  }

  /** The number of `%s` conversions in a format string. */
  function Conversions(format: string): nat {
    if |format| < 2 then 0
    else if format[0] == '%' && format[1] == 's' then 1 + Conversions(format[2..])
    else Conversions(format[1..])
  }

  /**
   * PHP's `sprintf` for formats in which every `%` starts a `%s`
   * conversion: each `%s` is replaced by the next argument taken verbatim,
   * every other character is copied. PHP refuses a format with more
   * conversions than arguments. `%%` and the other conversions are not
   * modelled.
   */
  function Sprintf(format: string, args: seq<string>): string
    requires Conversions(format) <= |args|
    decreases |format|
  {
    if |format| < 2 then format
    else if format[0] == '%' && format[1] == 's' then args[0] + Sprintf(format[2..], args[1..])
    else [format[0]] + Sprintf(format[1..], args)
  }

  /** A `%s` after a literal without `%` is one more conversion than the rest has. */
  lemma {:induction false} ConversionsLiteralThenConversion(lit: string, rest: string)
    requires forall i :: 0 <= i < |lit| ==> lit[i] != '%'
    ensures Conversions(lit + "%s" + rest) == 1 + Conversions(rest)
  {
    var f := lit + "%s" + rest;
    if lit == [] {
      assert f == "%s" + rest;
      assert f[2..] == rest;
    } else {
      assert f[0] == lit[0];
      assert f[1..] == lit[1..] + "%s" + rest;
      ConversionsLiteralThenConversion(lit[1..], rest);
    }
  }

  /** A literal without `%` before a `%s` is copied, and the `%s` takes the first argument. */
  lemma {:induction false} SprintfLiteralThenConversion(lit: string, rest: string, args: seq<string>)
    requires forall i :: 0 <= i < |lit| ==> lit[i] != '%'
    requires 1 + Conversions(rest) <= |args|
    ensures Conversions(lit + "%s" + rest) == 1 + Conversions(rest)
    ensures Sprintf(lit + "%s" + rest, args) == lit + args[0] + Sprintf(rest, args[1..])
  {
    ConversionsLiteralThenConversion(lit, rest);
    var f := lit + "%s" + rest;
    if lit == [] {
      assert f == "%s" + rest;
      assert f[2..] == rest;
    } else {
      assert f[0] == lit[0];
      assert f[1..] == lit[1..] + "%s" + rest;
      ConversionsLiteralThenConversion(lit[1..], rest);
      SprintfLiteralThenConversion(lit[1..], rest, args);
      var tail := Sprintf(rest, args[1..]);
      assert Sprintf(f, args) == [lit[0]] + (lit[1..] + args[0] + tail);
      assert [lit[0]] + (lit[1..] + args[0] + tail) == lit + args[0] + tail;
    }
  }

  lemma SprintfOneConversion(l: string, c: string)
    requires forall i :: 0 <= i < |l| ==> l[i] != '%'
    ensures Conversions(l + "%s") == 1
    ensures Sprintf(l + "%s", [c]) == l + c
  {
    assert l + "%s" == l + "%s" + "";
    SprintfLiteralThenConversion(l, "", [c]);
    assert l + c + Sprintf("", []) == l + c;
  }

  lemma SprintfTwoConversions(l2: string, l3: string, b: string, c: string)
    requires forall i :: 0 <= i < |l2| ==> l2[i] != '%'
    requires forall i :: 0 <= i < |l3| ==> l3[i] != '%'
    ensures Conversions(l2 + "%s" + (l3 + "%s")) == 2
    ensures Sprintf(l2 + "%s" + (l3 + "%s"), [b, c]) == l2 + b + (l3 + c)
  {
    SprintfOneConversion(l3, c);
    SprintfLiteralThenConversion(l2, l3 + "%s", [b, c]);
    assert [b, c][1..] == [c];
  }

  lemma Reassociate<T>(a: seq<T>, b: seq<T>, c: seq<T>, d: seq<T>, e: seq<T>, f: seq<T>)
    ensures a + b + c + d + e + f == a + b + (c + d + (e + f))
  {
  }

  /** A format of three percent-free literals each followed by `%s` interleaves them with its three arguments. */
  lemma SprintfThreeConversions(l1: string, l2: string, l3: string, a: string, b: string, c: string)
    requires forall i :: 0 <= i < |l1| ==> l1[i] != '%'
    requires forall i :: 0 <= i < |l2| ==> l2[i] != '%'
    requires forall i :: 0 <= i < |l3| ==> l3[i] != '%'
    ensures Conversions(l1 + "%s" + l2 + "%s" + l3 + "%s") == 3
    ensures Sprintf(l1 + "%s" + l2 + "%s" + l3 + "%s", [a, b, c]) == l1 + a + l2 + b + l3 + c
  {
    Reassociate(l1, "%s", l2, "%s", l3, "%s");
    Reassociate(l1, a, l2, b, l3, c);
    SprintfTwoConversions(l2, l3, b, c);
    SprintfLiteralThenConversion(l1, l2 + "%s" + (l3 + "%s"), [a, b, c]);
    assert [a, b, c][1..] == [b, c];
  }
}
