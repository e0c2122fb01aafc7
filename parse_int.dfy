/**
 * JavaScript's global `parseInt(string)` called with no radix, and the decimal
 * digits of a non-negative integer.  The scoring function tests `parseInt(id)`
 * for truthiness and multiplies by it, so both the value and the NaN case
 * matter.
 *
 * A returned `None` stands for NaN.  Numbers are unbounded integers here: a
 * digit prefix of 2^1024 or more, which JavaScript rounds to Infinity, and the
 * rounding of prefixes above 2^53 are not modelled.
 *
 * The decimal digits of `n` agree with JavaScript's `String(n)` only for
 * `n < 10^21`; from there on `String(n)` uses exponent form.  The model uses
 * them only for the faces 0..6, as the property keys of the tally.
 */
module ParseInt {

  datatype Option<T> = None | Some(value: T)

  /** The characters `parseInt` skips at the front: ECMAScript WhiteSpace and LineTerminator. */
  predicate IsSpace(c: char) {
    var n := c as int;
    n == 0x09 || n == 0x0A || n == 0x0B || n == 0x0C || n == 0x0D || n == 0x20 ||
    n == 0xA0 || n == 0x1680 || (0x2000 <= n <= 0x200A) || n == 0x2028 || n == 0x2029 ||
    n == 0x202F || n == 0x205F || n == 0x3000 || n == 0xFEFF
  }

  predicate IsDecimalDigit(c: char) {
    '0' <= c <= '9'
  }

  /** A digit of the given radix; `parseInt` without a radix uses 10, or 16 after a `0x` prefix. */
  predicate IsRadixDigit(c: char, radix: int) {
    if radix == 16 then IsDecimalDigit(c) || 'a' <= c <= 'f' || 'A' <= c <= 'F'
    else IsDecimalDigit(c)
  }

  function DigitOf(c: char): (d: nat)
    requires IsRadixDigit(c, 16)
    ensures d < 16
    ensures IsDecimalDigit(c) ==> d < 10
  {
    if IsDecimalDigit(c) then c as int - '0' as int
    else if 'a' <= c <= 'f' then c as int - 'a' as int + 10
    else c as int - 'A' as int + 10
  }

  /** The character of a decimal digit value. */
  function DigitChar(d: int): (c: char)
    requires 0 <= d < 10
    ensures IsDecimalDigit(c) && DigitOf(c) == d
  {
    ('0' as int + d) as char
  }

  /** Drops the leading white space. */
  function TrimStart(s: string): (t: string)
    ensures |t| <= |s| && t == s[|s| - |t|..]
    ensures forall i :: 0 <= i < |s| - |t| ==> IsSpace(s[i])
    ensures t == [] || !IsSpace(t[0])
  {
    if s != [] && IsSpace(s[0]) then TrimStart(s[1..]) else s
  }

  /** The longest prefix of `s` made of digits of `radix`. */
  function DigitPrefix(s: string, radix: int): (z: string)
    ensures z <= s
    ensures forall i :: 0 <= i < |z| ==> IsRadixDigit(z[i], radix)
    ensures |z| < |s| ==> !IsRadixDigit(s[|z|], radix)
  {
    if s != [] && IsRadixDigit(s[0], radix) then [s[0]] + DigitPrefix(s[1..], radix) else []
  }

  predicate AllDigits(z: string, radix: int) {
    forall i :: 0 <= i < |z| ==> IsRadixDigit(z[i], radix)
  }

  /** The number a digit string denotes in `radix`, most significant digit first. */
  function ValueOf(z: string, radix: int): nat
    requires radix == 10 || radix == 16
    requires AllDigits(z, radix)
  {
    if z == [] then 0
    else ValueOf(z[..|z| - 1], radix) * radix + DigitOf(z[|z| - 1])
  }

  /**
   * `parseInt(s)`: skip white space, take an optional sign, switch to radix 16
   * after `0x`/`0X`, read the longest run of digits; no digit gives NaN.
   * A negative zero is returned as 0 (both are falsy).
   */
  function ParseIntPrefix(s: string): Option<int> {
    ParseTrimmed(TrimStart(s))
  }

  /** `parseInt` after the white space is gone: an optional sign. */
  function ParseTrimmed(t: string): Option<int> {
    if t != [] && t[0] == '-' then
      match ParseUnsigned(t[1..])
      case None => None
      case Some(n) => Some(-n)
    else if t != [] && t[0] == '+' then ParseUnsigned(t[1..])
    else ParseUnsigned(t)
  }

  /** `parseInt` after the sign: the radix prefix and the digits. */
  function ParseUnsigned(u: string): Option<int> {
    var hex := |u| >= 2 && u[0] == '0' && (u[1] == 'x' || u[1] == 'X');
    var radix := if hex then 16 else 10;
    var z := DigitPrefix(if hex then u[2..] else u, radix);
    if z == [] then None else Some(ValueOf(z, radix))
  }

  /** JavaScript truthiness of a number: NaN and zero are falsy. */
  predicate Truthy(r: Option<int>) {
    r.Some? && r.value != 0
  }

  /** The decimal digits of `n`, no leading zero; `String(n)` for `n < 10^21`. */
  function DecimalString(n: nat): (s: string)
    ensures s != [] && AllDigits(s, 10)
    ensures s[0] == '0' ==> n == 0
  {
    if n < 10 then [DigitChar(n)] else DecimalString(n / 10) + [DigitChar(n % 10)]
  }

  // ---------------------------------------------------------------------------
  // Properties

  lemma {:induction false} DigitPrefixOfDigits(ds: string, rest: string, radix: int)
    requires AllDigits(ds, radix)
    requires rest == [] || !IsRadixDigit(rest[0], radix)
    ensures DigitPrefix(ds + rest, radix) == ds
  {
    if ds != [] {
      assert (ds + rest)[0] == ds[0];
      assert (ds + rest)[1..] == ds[1..] + rest;
      DigitPrefixOfDigits(ds[1..], rest, radix);
    } else {
      assert ds + rest == rest;
    }
  }

  lemma UnsignedDecimalThen(ds: string, rest: string)
    requires ds != [] && AllDigits(ds, 10)
    requires rest == [] || !IsDecimalDigit(rest[0])
    requires !(ds == "0" && rest != [] && (rest[0] == 'x' || rest[0] == 'X'))
    ensures ParseUnsigned(ds + rest) == Some(ValueOf(ds, 10))
  {
    var u := ds + rest;
    assert u[0] == ds[0];
    if |u| >= 2 && u[0] == '0' {
      if |ds| >= 2 {
        assert u[1] == ds[1];
      } else {
        assert ds == "0";
        assert u[1] == rest[0];
      }
    }
    DigitPrefixOfDigits(ds, rest, 10);
  }

  /** A run of decimal digits followed by a non-digit parses to the run's value. */
  lemma ParseDecimalThen(ds: string, rest: string)
    requires ds != [] && AllDigits(ds, 10)
    requires rest == [] || !IsDecimalDigit(rest[0])
    requires !(ds == "0" && rest != [] && (rest[0] == 'x' || rest[0] == 'X'))
    ensures ParseIntPrefix(ds + rest) == Some(ValueOf(ds, 10))
  {
    var s := ds + rest;
    assert s[0] == ds[0];
    assert !IsSpace(s[0]);
    assert TrimStart(s) == s;
    UnsignedDecimalThen(ds, rest);
  }

  /** A minus sign negates whatever follows it. */
  lemma ParseMinus(u: string)
    ensures ParseIntPrefix("-" + u) == match ParseUnsigned(u) { case None => None case Some(n) => Some(-n) }
  {
    var s := "-" + u;
    assert s[0] == '-' && s[1..] == u;
    assert TrimStart(s) == s;
  }

  /** A `0x` prefix switches to hexadecimal digits. */
  lemma ParseHexThen(hs: string, rest: string)
    requires hs != [] && AllDigits(hs, 16)
    requires rest == [] || !IsRadixDigit(rest[0], 16)
    ensures ParseIntPrefix("0x" + hs + rest) == Some(ValueOf(hs, 16))
  {
    var s := "0x" + hs + rest;
    assert s[0] == '0' && s[1] == 'x';
    assert !IsSpace(s[0]);
    assert TrimStart(s) == s;
    assert s[2..] == hs + rest;
    DigitPrefixOfDigits(hs, rest, 16);
  }

  /** Leading white space does not change the result. */
  lemma ParseSkipsSpace(c: char, s: string)
    requires IsSpace(c)
    ensures ParseIntPrefix([c] + s) == ParseIntPrefix(s)
  {
    assert ([c] + s)[1..] == s;
    assert TrimStart([c] + s) == TrimStart(s);
  }

  /** A string that starts with a letter is NaN. */
  lemma ParseLeadingLetter(s: string)
    requires s != [] && ('a' <= s[0] <= 'z' || 'A' <= s[0] <= 'Z')
    ensures ParseIntPrefix(s) == None
  {
    assert !IsSpace(s[0]);
    assert TrimStart(s) == s;
    assert DigitPrefix(s, 10) == [];
  }

  lemma {:induction false} DecimalStringValue(n: nat)
    ensures ValueOf(DecimalString(n), 10) == n
  {
    var s := DecimalString(n);
    if n >= 10 {
      DecimalStringValue(n / 10);
      assert s[..|s| - 1] == DecimalString(n / 10);
    } else {
      assert s[..0] == [];
    }
  }

  /** `parseInt` reads the decimal digits of `n` back as `n`. */
  lemma DecimalStringRoundTrip(n: nat)
    ensures ParseIntPrefix(DecimalString(n)) == Some(n)
  {
    var s := DecimalString(n);
    assert s + [] == s;
    DecimalStringValue(n);
    ParseDecimalThen(s, []);
  }

  /** The decimal string of a single-digit number is that digit. */
  lemma DecimalStringSmall(n: nat)
    requires n < 10
    ensures DecimalString(n) == [DigitChar(n)]
  {
  }

  lemma DecimalStringInjective(m: nat, n: nat)
    requires DecimalString(m) == DecimalString(n)
    ensures m == n
  {
    DecimalStringValue(m);
    DecimalStringValue(n);
  }
}
