/**
 * The pieces of JavaScript's string handling that `parseTimeframe` and the
 * query route rely on:
 * `toLowerCase`, the regular-expression classes `\d` and `\s`, and
 * `parseInt` with no radix.
 */
module JsText {
  import opened Chain

  /** `\d`: an ASCII decimal digit. */
  predicate IsDigit(c: char) {
    '0' <= c <= '9'
  }

  /**
   * `\s`: the WhiteSpace and LineTerminator characters of ECMAScript, which
   * are also the characters `parseInt` trims.
   */
  predicate IsSpace(c: char) {
    || c == '\t' || c == '\n' || c == '\U{0B}' || c == '\U{0C}' || c == '\r' || c == ' '
    || c == '\U{A0}' || c == '\U{1680}' || '\U{2000}' <= c <= '\U{200A}'
    || c == '\U{2028}' || c == '\U{2029}' || c == '\U{202F}' || c == '\U{205F}'
    || c == '\U{3000}' || c == '\U{FEFF}'
  }

  predicate IsHexDigit(c: char) {
    IsDigit(c) || 'a' <= c <= 'f' || 'A' <= c <= 'F'
  }

  predicate AllDigits(s: string) {
    forall i :: 0 <= i < |s| ==> IsDigit(s[i])
  }

  predicate AllSpaces(s: string) {
    forall i :: 0 <= i < |s| ==> IsSpace(s[i])
  }

  /**
   * The lower-case form of one character, as far as it matters to the
   * patterns matched after `toLowerCase`: ASCII capitals, and the Kelvin
   * sign, whose lower-case form is the ASCII letter k.
   */
  function LowerChar(c: char): (r: char)
    ensures IsDigit(r) <==> IsDigit(c)
    ensures IsSpace(r) <==> IsSpace(c)
    ensures 'a' <= r <= 'z' <==> 'a' <= c <= 'z' || 'A' <= c <= 'Z' || c == '\U{212A}'
    ensures IsDigit(c) || IsSpace(c) || 'a' <= c <= 'z' ==> r == c
    ensures 'A' <= c <= 'Z' ==> r as int == c as int + 32
    ensures c == '\U{212A}' ==> r == 'k'
  {
    if 'A' <= c <= 'Z' then (c as int + 32) as char
    else if c == '\U{212A}' then 'k'
    else c
  }

  /** `s.toLowerCase()`. */
  function Lower(s: string): (r: string)
    ensures |r| == |s| && forall i :: 0 <= i < |s| ==> r[i] == LowerChar(s[i])
  {
    seq(|s|, i requires 0 <= i < |s| => LowerChar(s[i]))
  }

  /** Lower-casing twice changes nothing more. */
  lemma LowerIdempotent(s: string)
    ensures Lower(Lower(s)) == Lower(s)
  {
    assert forall i :: 0 <= i < |s| ==> LowerChar(LowerChar(s[i])) == LowerChar(s[i]);
  }

  /** Text already in lower case is left as it is. */
  lemma LowerOfLowerCase(s: string)
    requires forall i :: 0 <= i < |s| ==> !('A' <= s[i] <= 'Z') && s[i] != '\U{212A}'
    ensures Lower(s) == s
  {
  }

  /** The length of the run of decimal digits at the front of `s`. */
  function DigitRunLength(s: string): (n: nat)
    ensures n <= |s| && AllDigits(s[..n]) && (n < |s| ==> !IsDigit(s[n]))
  {
    if s != [] && IsDigit(s[0]) then 1 + DigitRunLength(s[1..]) else 0
  }

  /** The length of the run of `\s` characters at the front of `s`. */
  function SpaceRunLength(s: string): (n: nat)
    ensures n <= |s| && AllSpaces(s[..n]) && (n < |s| ==> !IsSpace(s[n]))
  {
    if s != [] && IsSpace(s[0]) then 1 + SpaceRunLength(s[1..]) else 0
  }

  /** The length of the run of hexadecimal digits at the front of `s`. */
  function HexRunLength(s: string): (n: nat)
    ensures n <= |s| && (forall i :: 0 <= i < n ==> IsHexDigit(s[i])) && (n < |s| ==> !IsHexDigit(s[n]))
  {
    if s != [] && IsHexDigit(s[0]) then 1 + HexRunLength(s[1..]) else 0
  }

  function DigitValue(c: char): nat
    requires IsHexDigit(c)
  {
    if IsDigit(c) then c as int - '0' as int
    else if 'a' <= c <= 'f' then c as int - 'a' as int + 10
    else c as int - 'A' as int + 10
  }

  /** The number a string of digits denotes in base `radix`. */
  function Value(ds: string, radix: nat): nat
    requires forall i :: 0 <= i < |ds| ==> IsHexDigit(ds[i])
  {
    if ds == [] then 0
    else Value(ds[..|ds| - 1], radix) * radix + DigitValue(ds[|ds| - 1])
  }

  /** The decimal value of a string of digits, as `parseInt` reads it. */
  function DecimalValue(ds: string): nat
    requires AllDigits(ds)
  {
    Value(ds, 10)
  }

  /**
   * `parseInt(s)` with no radix: skip leading white space, read an optional
   * sign, read a hexadecimal number after `0x`/`0X` and a decimal one
   * otherwise, stopping at the first character that is not a digit; no
   * digit at all gives NaN.
   */
  function ParseInt(s: string): (r: Num)
    ensures r.Int? ==> exists i :: 0 <= i < |s| && IsDigit(s[i])
  {
    var k := SpaceRunLength(s);
    var r := Signed(s[k..]);
    if r.Int? then
      var i :| 0 <= i < |s[k..]| && IsDigit(s[k..][i]);
      assert IsDigit(s[k + i]);
      r
    else r
  }

  /** The optional sign, then the magnitude. */
  function Signed(t: string): (r: Num)
    ensures r.Int? ==> exists i :: 0 <= i < |t| && IsDigit(t[i])
  {
    if t != [] && (t[0] == '-' || t[0] == '+') then
      var m := Unsigned(t[1..]);
      if m.NaN? then NaN
      else
        assert IsDigit(t[1]);
        Int(if t[0] == '-' then -m.n else m.n)
    else Unsigned(t)
  }

  /** The hexadecimal digits at the front of `w`, as a number. */
  function HexNumber(w: string): Num {
    var n := HexRunLength(w);
    if n == 0 then NaN else Int(Value(w[..n], 16))
  }

  /** The digits after the sign: hexadecimal after `0x`/`0X`, decimal otherwise. */
  function Unsigned(u: string): (r: Num)
    ensures r.Int? ==> u != [] && IsDigit(u[0])
  {
    if |u| >= 2 && u[0] == '0' && (u[1] == 'x' || u[1] == 'X') then HexNumber(u[2..])
    else
      var n := DigitRunLength(u);
      if n == 0 then NaN else assert u[..n][0] == u[0]; Int(DecimalValue(u[..n]))
  }

  lemma {:induction false} DigitRunOf(digits: string, rest: string)
    requires AllDigits(digits)
    requires rest == [] || !IsDigit(rest[0])
    ensures DigitRunLength(digits + rest) == |digits|
  {
    if digits != [] {
      assert (digits + rest)[1..] == digits[1..] + rest;
      DigitRunOf(digits[1..], rest);
    }
  }

  /**
   * On a non-empty run of decimal digits, `parseInt` gives the number the
   * digits denote, which is what the timeframe parser relies on when it
   * converts a captured `(\d+)` group.
   */
  lemma ParseIntDigits(ds: string)
    requires ds != [] && AllDigits(ds)
    ensures ParseInt(ds) == Int(DecimalValue(ds))
  {
    assert !IsSpace(ds[0]);
    assert ds[SpaceRunLength(ds)..] == ds;
    DigitRunOf(ds, []);
    assert ds + [] == ds;
    assert ds[..|ds|] == ds;
  }

  lemma {:induction false} SpaceRunOf(spaces: string, rest: string)
    requires AllSpaces(spaces)
    requires rest == [] || !IsSpace(rest[0])
    ensures SpaceRunLength(spaces + rest) == |spaces|
  {
    if spaces != [] {
      assert (spaces + rest)[1..] == spaces[1..] + rest;
      SpaceRunOf(spaces[1..], rest);
    }
  }

  lemma {:induction false} HexRunOf(hex: string, rest: string)
    requires forall i :: 0 <= i < |hex| ==> IsHexDigit(hex[i])
    requires rest == [] || !IsHexDigit(rest[0])
    ensures HexRunLength(hex + rest) == |hex|
  {
    if hex != [] {
      assert (hex + rest)[1..] == hex[1..] + rest;
      HexRunOf(hex[1..], rest);
    }
  }

  /** An optional sign as `parseInt` reads it, and the factor it stands for. */
  predicate IsSign(sign: string) {
    sign == "" || sign == "+" || sign == "-"
  }

  function SignFactor(sign: string): int {
    if sign == "-" then -1 else 1
  }

  /** Leading white space is skipped. */
  lemma SkipsSpaces(ws: string, t: string)
    requires AllSpaces(ws)
    requires t == [] || !IsSpace(t[0])
    ensures ParseInt(ws + t) == Signed(t)
  {
    SpaceRunOf(ws, t);
    assert (ws + t)[|ws|..] == t;
  }

  /** A sign, or none, in front of the magnitude. */
  lemma SignedOf(sign: string, u: string)
    requires IsSign(sign)
    requires sign == "" && u != [] ==> u[0] != '+' && u[0] != '-'
    ensures Signed(sign + u) == (match Unsigned(u) case NaN => NaN case Int(m) => Int(SignFactor(sign) * m))
  {
    if sign != "" {
      assert (sign + u)[1..] == u;
    } else {
      assert sign + u == u;
    }
  }

  /**
   * Leading white space, an optional sign and the longest run of decimal
   * digits after it: `parseInt` gives the signed value of those digits and
   * ignores whatever follows, as in " 20", "-5" or "20 items".
   */
  lemma ParseIntPrefix(ws: string, sign: string, digits: string, rest: string)
    requires AllSpaces(ws) && IsSign(sign)
    requires digits != [] && AllDigits(digits)
    requires rest == [] || !IsDigit(rest[0])
    requires !(digits == "0" && rest != [] && (rest[0] == 'x' || rest[0] == 'X'))
    ensures ParseInt(ws + sign + digits + rest) == Int(SignFactor(sign) * DecimalValue(digits))
  {
    var u := digits + rest;
    var t := sign + u;
    assert ws + sign + digits + rest == ws + t;
    assert t[0] == if sign == "" then digits[0] else sign[0];
    SkipsSpaces(ws, t);
    SignedOf(sign, u);
    if |u| >= 2 && u[0] == '0' {
      assert u[1] == if |digits| >= 2 then digits[1] else rest[0];
    }
    DigitRunOf(digits, rest);
    assert u[..|digits|] == digits;
  }

  /**
   * Leading white space, an optional sign, `0x` or `0X` and the longest run
   * of hexadecimal digits after it: `parseInt` gives their signed value in
   * base 16.
   */
  lemma ParseIntHexPrefix(ws: string, sign: string, x: char, hex: string, rest: string)
    requires AllSpaces(ws) && IsSign(sign) && (x == 'x' || x == 'X')
    requires hex != [] && forall i :: 0 <= i < |hex| ==> IsHexDigit(hex[i])
    requires rest == [] || !IsHexDigit(rest[0])
    ensures ParseInt(ws + sign + ['0', x] + hex + rest) == Int(SignFactor(sign) * Value(hex, 16))
  {
    var h := hex + rest;
    var u := ['0', x] + h;
    var t := sign + u;
    Regroup(ws, sign, ['0', x], hex, rest);
    assert t[0] == if sign == "" then '0' else sign[0];
    SkipsSpaces(ws, t);
    SignedOf(sign, u);
    UnsignedHex(u);
    assert u[2..] == h;
    HexNumberOf(hex, rest);
  }

  /**
   * `0x` or `0X` with no hexadecimal digit after it, as in "0x", "-0x" or
   * "0xg": `parseInt` gives NaN.
   */
  lemma ParseIntHexNoDigit(ws: string, sign: string, x: char, rest: string)
    requires AllSpaces(ws) && IsSign(sign) && (x == 'x' || x == 'X')
    requires rest == [] || !IsHexDigit(rest[0])
    ensures ParseInt(ws + sign + ['0', x] + rest) == NaN
  {
    var u := ['0', x] + rest;
    var t := sign + u;
    assert ws + sign + ['0', x] + rest == ws + t;
    assert t[0] == if sign == "" then '0' else sign[0];
    SkipsSpaces(ws, t);
    SignedOf(sign, u);
    UnsignedHex(u);
    assert u[2..] == rest;
  }

  lemma Regroup(a: string, b: string, c: string, d: string, e: string)
    ensures a + b + c + d + e == a + (b + (c + (d + e)))
  {
  }

  lemma UnsignedHex(u: string)
    requires |u| >= 2 && u[0] == '0' && (u[1] == 'x' || u[1] == 'X')
    ensures Unsigned(u) == HexNumber(u[2..])
  {
  }

  lemma HexNumberOf(hex: string, rest: string)
    requires hex != [] && forall i :: 0 <= i < |hex| ==> IsHexDigit(hex[i])
    requires rest == [] || !IsHexDigit(rest[0])
    ensures HexNumber(hex + rest) == Int(Value(hex, 16))
  {
    HexRunOf(hex, rest);
    assert (hex + rest)[..|hex|] == hex;
  }

  /**
   * When what follows the leading white space and the optional sign is not
   * a digit, as in "last 20" or "-x", `parseInt` gives NaN.
   */
  lemma ParseIntNoDigit(ws: string, sign: string, rest: string)
    requires AllSpaces(ws) && IsSign(sign)
    requires rest == [] || !IsDigit(rest[0])
    requires sign == "" && rest != [] ==> !IsSpace(rest[0]) && rest[0] != '+' && rest[0] != '-'
    ensures ParseInt(ws + sign + rest) == NaN
  {
    var t := sign + rest;
    assert ws + sign + rest == ws + t;
    assert Unsigned(rest).NaN?;
    if t != [] {
      assert t[0] == if sign == "" then rest[0] else sign[0];
    }
    SkipsSpaces(ws, t);
    SignedOf(sign, rest);
  }
}
