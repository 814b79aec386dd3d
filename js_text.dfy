/**
 * The pieces of the JavaScript string library that the contact form relies on:
 * the whitespace set shared by `String.prototype.trim` and the regular-expression
 * class `\s`, `trim` itself, the UTF-16 `length` of a string, the decimal text of a
 * number (template-literal interpolation) and the global `parseInt` with no radix.
 */
module JsText {
  import opened Wrappers

  /** ECMAScript WhiteSpace and LineTerminator code points. */
  predicate IsJsWhitespace(c: char) {
    if c <= ' ' then c == ' ' || '\t' <= c <= '\r'
    else
      && '\U{00A0}' <= c
      && (|| c == '\U{00A0}' || c == '\U{1680}' || '\U{2000}' <= c <= '\U{200A}'
          || c == '\U{2028}' || c == '\U{2029}' || c == '\U{202F}' || c == '\U{205F}'
          || c == '\U{3000}' || c == '\U{FEFF}')
  }

  /** Every character is whitespace (the empty string included). */
  predicate Blank(s: string) {
    forall i :: 0 <= i < |s| ==> IsJsWhitespace(s[i])
  }

  /** `s` does not begin or end with whitespace. */
  predicate Tight(s: string) {
    s == [] || (!IsJsWhitespace(s[0]) && !IsJsWhitespace(s[|s| - 1]))
  }

  /**
   * Drops the leading whitespace: what is dropped is blank and what is kept
   * does not start with whitespace. `TrimStartSuffix` shows the result is a
   * suffix of `s`.
   */
  function TrimStart(s: string): (r: string)
    ensures |r| <= |s|
    ensures forall i :: 0 <= i < |s| - |r| ==> IsJsWhitespace(s[i])
    ensures r == [] || !IsJsWhitespace(r[0])
  {
    if |s| > 0 && IsJsWhitespace(s[0]) then
      var r := TrimStart(s[1..]);
      assert forall i :: 1 <= i < |s| ==> s[i] == s[1..][i - 1];
      r
    else s
  }

  /**
   * Drops the trailing whitespace: what is dropped is blank and what is kept
   * does not end with whitespace. `TrimEndPrefix` shows the result is a
   * prefix of `s`.
   */
  function TrimEnd(s: string): (r: string)
    ensures |r| <= |s|
    ensures forall i :: |r| <= i < |s| ==> IsJsWhitespace(s[i])
    ensures r == [] || !IsJsWhitespace(r[|r| - 1])
  {
    if |s| > 0 && IsJsWhitespace(s[|s| - 1]) then
      var r := TrimEnd(s[..|s| - 1]);
      assert forall i :: 0 <= i < |s| - 1 ==> s[i] == s[..|s| - 1][i];
      r
    else s
  }

  /** `TrimStart` keeps a suffix of its argument. */
  lemma {:induction false} TrimStartSuffix(s: string)
    ensures TrimStart(s) == s[|s| - |TrimStart(s)|..]
  {
    if |s| > 0 && IsJsWhitespace(s[0]) {
      TrimStartSuffix(s[1..]);
      assert s[1..][|s| - 1 - |TrimStart(s)|..] == s[|s| - |TrimStart(s)|..];
    }
  }

  /** `TrimEnd` keeps a prefix of its argument. */
  lemma {:induction false} TrimEndPrefix(s: string)
    ensures TrimEnd(s) == s[..|TrimEnd(s)|]
  {
    if |s| > 0 && IsJsWhitespace(s[|s| - 1]) {
      TrimEndPrefix(s[..|s| - 1]);
      assert s[..|s| - 1][..|TrimEnd(s)|] == s[..|TrimEnd(s)|];
    }
  }

  /** `String.prototype.trim`. */
  function Trim(s: string): (r: string)
    ensures |r| <= |s|
    ensures r == [] <==> Blank(s)
    ensures Tight(r)
  {
    var t := TrimStart(s);
    var r := TrimEnd(t);
    TrimStartSuffix(s);
    TrimEndPrefix(t);
    assert r == [] ==> Blank(s) by {
      if r == [] {
        assert t == [];
      }
    }
    r
  }

  /** Leading blanks in front of a string that does not start with one are exactly what `TrimStart` drops. */
  lemma TrimStartPadded(a: string, m: string)
    requires Blank(a) && (m == [] || !IsJsWhitespace(m[0]))
    ensures TrimStart(a + m) == m
  {
    var s := a + m;
    var t := TrimStart(s);
    var k := |s| - |t|;
    TrimStartSuffix(s);
    if t != [] { assert t[0] == s[k]; }
    if m != [] { assert s[|a|] == m[0]; }
    assert k == |a|;
  }

  /** Trailing blanks after a string that does not end with one are exactly what `TrimEnd` drops. */
  lemma TrimEndPadded(m: string, b: string)
    requires Blank(b) && (m == [] || !IsJsWhitespace(m[|m| - 1]))
    ensures TrimEnd(m + b) == m
  {
    var s := m + b;
    var r := TrimEnd(s);
    TrimEndPrefix(s);
    if r != [] { assert r[|r| - 1] == s[|r| - 1]; }
    if m != [] { assert s[|m| - 1] == m[|m| - 1]; }
    assert |r| == |m|;
  }

  /**
   * Trim has exactly one answer: whatever blank padding surrounds a tight
   * string, trimming gives back that string.
   */
  lemma TrimPadded(a: string, m: string, b: string)
    requires Blank(a) && Blank(b) && Tight(m)
    ensures Trim(a + m + b) == m
  {
    var s := a + m + b;
    if m == [] {
      assert Blank(s) by {
        forall i | 0 <= i < |s| ensures IsJsWhitespace(s[i]) {
          if i < |a| { assert s[i] == a[i]; } else { assert s[i] == b[i - |a|]; }
        }
      }
    } else {
      assert s == a + (m + b);
      assert (m + b)[0] == m[0];
      TrimStartPadded(a, m + b);
      TrimEndPadded(m, b);
    }
  }

  /** A string with no whitespace at either end is its own trim. */
  lemma TrimTight(s: string)
    requires Tight(s)
    ensures Trim(s) == s
  {
    TrimPadded([], s, []);
    assert [] + s + [] == s;
  }

  /** Trimming twice is trimming once. */
  lemma TrimIdempotent(s: string)
    ensures Trim(Trim(s)) == Trim(s)
  {
    TrimTight(Trim(s));
  }

  /** The number of UTF-16 code units of one character. */
  function CodeUnits(c: char): nat {
    if c as int <= 0xFFFF then 1 else 2
  }

  /** The JavaScript `length` of a string: its UTF-16 code-unit count. */
  function Utf16Length(s: string): (n: nat)
    ensures |s| <= n <= 2 * |s|
    ensures n == |s| <==> forall i :: 0 <= i < |s| ==> s[i] as int <= 0xFFFF
  {
    if s == [] then 0
    else
      var n := CodeUnits(s[0]) + Utf16Length(s[1..]);
      assert forall i :: 1 <= i < |s| ==> s[i] == s[1..][i - 1];
      n
  }

  predicate IsDecimalDigit(c: char) {
    '0' <= c <= '9'
  }

  /** The digit character of a value below ten. */
  function DigitChar(d: nat): (c: char)
    requires d < 10
    ensures IsDecimalDigit(c) && DigitValue(c, 10) == Some(d)
  {
    ('0' as int + d) as char
  }

  /** The decimal text of a natural number, as `${n}` renders it. */
  function Decimal(n: nat): (s: string)
    ensures |s| >= 1
    ensures forall i :: 0 <= i < |s| ==> IsDecimalDigit(s[i])
    ensures s[0] == '0' <==> n == 0
  {
    if n < 10 then [DigitChar(n)] else Decimal(n / 10) + [DigitChar(n % 10)]
  }

  /** The value of one digit in the given radix (10 or 16), if it is one. */
  function DigitValue(c: char, radix: nat): (d: Option<nat>)
    ensures d.Some? ==> d.value < radix
  {
    if '0' <= c <= '9' && (c as int - '0' as int) < radix then Some(c as int - '0' as int)
    else if radix == 16 && 'a' <= c <= 'f' then Some(c as int - 'a' as int + 10)
    else if radix == 16 && 'A' <= c <= 'F' then Some(c as int - 'A' as int + 10)
    else None
  }

  predicate AllDigits(s: string, radix: nat) {
    forall i :: 0 <= i < |s| ==> DigitValue(s[i], radix).Some?
  }

  /** The longest prefix of `s` made of digits of the radix. */
  function DigitPrefix(s: string, radix: nat): (p: string)
    ensures |p| <= |s| && p == s[..|p|]
    ensures AllDigits(p, radix)
    ensures |p| < |s| ==> DigitValue(s[|p|], radix).None?
  {
    if s != [] && DigitValue(s[0], radix).Some? then
      var p := [s[0]] + DigitPrefix(s[1..], radix);
      assert forall i :: 1 <= i < |p| ==> p[i] == s[1..][i - 1];
      p
    else []
  }

  /** The value of a digit string, most significant digit first. */
  function DigitsValue(ds: string, radix: nat): nat
    requires AllDigits(ds, radix)
  {
    if ds == [] then 0
    else DigitsValue(ds[..|ds| - 1], radix) * radix + DigitValue(ds[|ds| - 1], radix).value
  }

  /**
   * The unsigned part of `parseInt`: a `0x` or `0X` prefix switches to radix
   * 16, then the longest run of digits is read; no digit at all gives NaN
   * (`None`).
   */
  function ParseUnsigned(u: string): Option<nat> {
    var hex := |u| >= 2 && u[0] == '0' && (u[1] == 'x' || u[1] == 'X');
    var radix := if hex then 16 else 10;
    var ds := DigitPrefix(if hex then u[2..] else u, radix);
    if ds == [] then None else Some(DigitsValue(ds, radix))
  }

  /**
   * The global `parseInt(s)` with no radix: leading whitespace is skipped and
   * one sign is taken before the unsigned part. The result is an exact
   * integer; JavaScript rounds it to a double, which only matters beyond 2^53.
   */
  function ParseInt(s: string): Option<int> {
    var t := TrimStart(s);
    var negative := |t| > 0 && t[0] == '-';
    var u := if |t| > 0 && (t[0] == '-' || t[0] == '+') then t[1..] else t;
    match ParseUnsigned(u)
    case None => None
    case Some(v) => Some(if negative then -(v as int) else v)
  }

  /** A string of digits followed by anything that is not a digit reads as those digits. */
  lemma {:induction false} DigitPrefixStops(d: string, rest: string, radix: nat)
    requires AllDigits(d, radix)
    requires rest == [] || DigitValue(rest[0], radix).None?
    ensures DigitPrefix(d + rest, radix) == d
  {
    if d != [] {
      assert (d + rest)[1..] == d[1..] + rest;
      DigitPrefixStops(d[1..], rest, radix);
    } else {
      assert d + rest == rest;
    }
  }

  /** Reading the decimal text of `n` gives back `n`. */
  lemma {:induction false} DecimalValue(n: nat)
    ensures AllDigits(Decimal(n), 10) && DigitsValue(Decimal(n), 10) == n
  {
    if n >= 10 {
      DecimalValue(n / 10);
      var s := Decimal(n);
      assert s[..|s| - 1] == Decimal(n / 10);
    }
  }

  /** The unsigned reader reads back decimal text followed by a non-digit. */
  lemma ParseUnsignedDecimal(n: nat, rest: string)
    requires rest == [] || !IsDecimalDigit(rest[0])
    requires n == 0 && rest != [] ==> rest[0] != 'x' && rest[0] != 'X'
    ensures ParseUnsigned(Decimal(n) + rest) == Some(n)
  {
    var u := Decimal(n) + rest;
    assert u[0] == Decimal(n)[0];
    assert n == 0 ==> Decimal(n) == ['0'];
    assert n == 0 && rest != [] ==> u[1] == rest[0];
    DecimalValue(n);
    DigitPrefixStops(Decimal(n), rest, 10);
  }

  /**
   * `parseInt` reads back the decimal text of a number, also when other text
   * follows, unless that text continues the number (a digit) or, after a lone
   * `0`, turns it into a hexadecimal prefix.
   */
  lemma ParseIntDecimal(n: nat, rest: string)
    requires rest == [] || !IsDecimalDigit(rest[0])
    requires n == 0 && rest != [] ==> rest[0] != 'x' && rest[0] != 'X'
    ensures ParseInt(Decimal(n) + rest) == Some(n)
  {
    var s := Decimal(n) + rest;
    assert s[0] == Decimal(n)[0];
    ParseIntUnsigned(s);
    ParseUnsignedDecimal(n, rest);
  }

  /** Text that starts with neither whitespace nor a sign is read by the unsigned reader alone. */
  lemma ParseIntUnsigned(s: string)
    requires s != [] && IsDecimalDigit(s[0])
    ensures ParseInt(s) == match ParseUnsigned(s) case None => None case Some(v) => Some(v as int)
  {
    assert TrimStart(s) == s;
  }

  /** `parseInt` reads a plus sign in front of a decimal numeral. */
  lemma ParseIntPlus(n: nat)
    ensures ParseInt(['+'] + Decimal(n)) == Some(n)
  {
    var s := ['+'] + Decimal(n);
    assert TrimStart(s) == s;
    assert s[1..] == Decimal(n) + [];
    ParseUnsignedDecimal(n, []);
  }

  /** `parseInt` reads a minus sign in front of a decimal numeral. */
  lemma ParseIntNegative(n: nat)
    ensures ParseInt(['-'] + Decimal(n)) == Some(-(n as int))
  {
    var s := ['-'] + Decimal(n);
    assert TrimStart(s) == s;
    assert s[1..] == Decimal(n) + [];
    ParseUnsignedDecimal(n, []);
  }
}
