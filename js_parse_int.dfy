/**
 * JavaScript's global `parseInt(string)` called without a radix, and the `||`
 * operator on the numbers it returns, as the new-bill controller uses them to
 * turn the amount and percentage inputs into numbers.
 *
 * The algorithm is the one of section 19.2.5 of ECMA-262 (13th edition):
 * skip leading white space, read an optional sign, strip a `0x`/`0X` prefix
 * (switching to radix 16), take the longest prefix of radix digits, and give
 * NaN when that prefix is empty.
 */
module JsParseInt {
  import opened Wrappers

  /** A JavaScript number as `parseInt` can produce it: NaN or an integer. */
  datatype Num = NaN | Int(value: int)

  /** JavaScript truthiness of such a number: NaN and 0 are falsy. */
  predicate Truthy(n: Num) {
    n.Int? && n.value != 0
  }

  /**
   * `a || b` on numbers: one of the operands, truthy exactly when one of them
   * is; the left one whenever it is truthy, the right one otherwise.
   */
  function Or(a: Num, b: Num): (r: Num)
    ensures r == a || r == b
    ensures Truthy(r) <==> Truthy(a) || Truthy(b)
    ensures Truthy(a) ==> r == a
    ensures !Truthy(a) ==> r == b
  {
    if Truthy(a) then a else b
  }

  /**
   * The code points ECMA-262 calls WhiteSpace and LineTerminator, which
   * `parseInt` skips at the start of its argument: TAB, VT, FF, SP, NBSP,
   * ZWNBSP, the other space separators of Unicode category Zs, LF, CR,
   * LINE SEPARATOR and PARAGRAPH SEPARATOR.
   */
  predicate IsWhiteSpace(c: char) {
    var k := c as int;
    k == 0x09 || k == 0x0B || k == 0x0C || k == 0x20 || k == 0xA0 || k == 0xFEFF
    || k == 0x1680 || (0x2000 <= k <= 0x200A) || k == 0x202F || k == 0x205F || k == 0x3000
    || k == 0x0A || k == 0x0D || k == 0x2028 || k == 0x2029
  }

  /**
   * The argument without its leading white space: a suffix of `s` that does
   * not start with white space, and everything cut off was white space.
   */
  function TrimStart(s: string): (r: string)
    ensures |r| <= |s| && r == s[|s| - |r|..]
    ensures r == [] || !IsWhiteSpace(r[0])
    ensures forall i :: 0 <= i < |s| - |r| ==> IsWhiteSpace(s[i])
  {
    if s != [] && IsWhiteSpace(s[0]) then TrimStart(s[1..]) else s
  }

  predicate IsDecimalDigit(c: char) {
    '0' <= c <= '9'
  }

  /** A digit of radix 10 or 16; hexadecimal letters in either case. */
  predicate IsRadixDigit(c: char, radix: nat) {
    IsDecimalDigit(c) || (radix == 16 && ('a' <= c <= 'f' || 'A' <= c <= 'F'))
  }

  function DigitValue(c: char, radix: nat): (d: nat)
    requires radix == 10 || radix == 16
    requires IsRadixDigit(c, radix)
    ensures d < radix
  {
    if IsDecimalDigit(c) then c as nat - '0' as nat
    else if 'a' <= c <= 'f' then c as nat - 'a' as nat + 10
    else c as nat - 'A' as nat + 10
  }

  predicate AllDigits(z: string, radix: nat) {
    forall i :: 0 <= i < |z| ==> IsRadixDigit(z[i], radix)
  }

  /** The longest prefix of `s` made of radix digits. */
  function DigitPrefix(s: string, radix: nat): (z: string)
    ensures |z| <= |s| && z == s[..|z|]
    ensures AllDigits(z, radix)
    ensures |z| == |s| || !IsRadixDigit(s[|z|], radix)
  {
    if s == [] || !IsRadixDigit(s[0], radix) then [] else [s[0]] + DigitPrefix(s[1..], radix)
  }

  /** The number a string of digits denotes, most significant digit first. */
  function ValueOf(z: string, radix: nat): nat
    requires radix == 10 || radix == 16
    requires AllDigits(z, radix)
  {
    if z == [] then 0 else ValueOf(z[..|z| - 1], radix) * radix + DigitValue(z[|z| - 1], radix)
  }

  /**
   * What follows the sign: with a `0x`/`0X` prefix the hexadecimal digits
   * after it, otherwise the decimal digits; None (NaN) when there are none.
   */
  function ParseMagnitude(u: string): Option<nat> {
    var hex := |u| >= 2 && u[0] == '0' && (u[1] == 'x' || u[1] == 'X');
    var radix: nat := if hex then 16 else 10;
    var z := DigitPrefix(if hex then u[2..] else u, radix);
    if z == [] then None else Some(ValueOf(z, radix))
  }

  /** An optional `-` or `+`, then the magnitude. */
  function ParseSigned(t: string): Num {
    var negative := t != [] && t[0] == '-';
    var u := if t != [] && (t[0] == '-' || t[0] == '+') then t[1..] else t;
    match ParseMagnitude(u)
    case None => NaN
    case Some(m) => Int(if negative then -(m as int) else m)
  }

  /**
   * `parseInt(s)` with no radix argument. It gives a number only when a
   * decimal digit follows the leading white space and the optional sign.
   */
  function ParseInt(s: string): (r: Num)
    ensures r.Int? ==> var t := TrimStart(s);
                       var u := if t != [] && (t[0] == '-' || t[0] == '+') then t[1..] else t;
                       u != [] && IsDecimalDigit(u[0])
  {
    ParseSigned(TrimStart(s))
  }

  // ---------------------------------------------------------------------
  // A reference rendering of integers in decimal, the partner of ParseInt.

  function DigitChar(d: nat): (c: char)
    requires d < 10
    ensures IsDecimalDigit(c) && DigitValue(c, 10) == d
  {
    ['0', '1', '2', '3', '4', '5', '6', '7', '8', '9'][d]
  }

  /** The decimal digits of `n`, without leading zeros. */
  function DecimalDigits(n: nat): (r: string)
    ensures r != [] && AllDigits(r, 10)
    ensures r[0] == '0' ==> n == 0 && r == "0"
  {
    if n < 10 then [DigitChar(n)] else DecimalDigits(n / 10) + [DigitChar(n % 10)]
  }

  /** `String(n)` for an integer `n`: an optional minus sign, then the digits. */
  function Decimal(n: int): string {
    if n < 0 then "-" + DecimalDigits(-n) else DecimalDigits(n)
  }

  lemma {:induction false} ValueOfDecimalDigits(n: nat)
    ensures ValueOf(DecimalDigits(n), 10) == n
  {
    if n >= 10 {
      var w := DecimalDigits(n);
      assert w[..|w| - 1] == DecimalDigits(n / 10);
      ValueOfDecimalDigits(n / 10);
    }
  }

  lemma {:induction false} DigitPrefixOfDigits(z: string, rest: string, radix: nat)
    requires AllDigits(z, radix)
    requires rest == [] || !IsRadixDigit(rest[0], radix)
    ensures DigitPrefix(z + rest, radix) == z
  {
    if z != [] {
      assert (z + rest)[1..] == z[1..] + rest;
      DigitPrefixOfDigits(z[1..], rest, radix);
    }
  }

  lemma ParseMagnitudeDecimal(m: nat, rest: string)
    requires rest == [] || (!IsDecimalDigit(rest[0]) && (m == 0 ==> rest[0] != 'x' && rest[0] != 'X'))
    ensures ParseMagnitude(DecimalDigits(m) + rest) == Some(m)
  {
    var ds := DecimalDigits(m);
    var u := ds + rest;
    assert u[0] == ds[0];
    assert |ds| == 1 ==> u[1..] == rest;
    assert !(|u| >= 2 && u[0] == '0' && (u[1] == 'x' || u[1] == 'X'));
    DigitPrefixOfDigits(ds, rest, 10);
    ValueOfDecimalDigits(m);
  }

  lemma ParseSignedMinus(u: string)
    ensures ParseSigned(['-'] + u) == match ParseMagnitude(u)
                                      case None => NaN
                                      case Some(m) => Int(-(m as int))
  {
    var t := ['-'] + u;
    assert t[0] == '-';
    assert t[1..] == u;
  }

  lemma ParseSignedNegative(n: int, rest: string)
    requires n < 0
    requires rest == [] || !IsDecimalDigit(rest[0])
    ensures ParseSigned(Decimal(n) + rest) == Int(n)
  {
    var m: nat := -n;
    var u := DecimalDigits(m) + rest;
    NegativeRendering(n, m, rest);
    ParseMagnitudeDecimal(m, rest);
    ParseSignedMinus(u);
  }

  lemma NegativeRendering(n: int, m: nat, rest: string)
    requires n < 0 && m == -n
    ensures Decimal(n) + rest == ['-'] + (DecimalDigits(m) + rest)
  {
    assert Decimal(n) == "-" + DecimalDigits(m);
  }

  lemma ParseSignedNonNegative(n: nat, rest: string)
    requires rest == [] || (!IsDecimalDigit(rest[0]) && (n == 0 ==> rest[0] != 'x' && rest[0] != 'X'))
    ensures ParseSigned(DecimalDigits(n) + rest) == Int(n)
  {
    var s := DecimalDigits(n) + rest;
    assert s[0] == DecimalDigits(n)[0];
    assert IsDecimalDigit(s[0]);
    ParseMagnitudeDecimal(n, rest);
  }

  lemma DecimalStart(n: int, rest: string)
    ensures Decimal(n) + rest != [] && !IsWhiteSpace((Decimal(n) + rest)[0])
  {
    var s := Decimal(n) + rest;
    assert s[0] == Decimal(n)[0];
    assert n >= 0 ==> IsDecimalDigit(DecimalDigits(n)[0]);
  }

  /**
   * `parseInt` reads back the decimal rendering of any integer, and stops at
   * the first character that cannot continue it (`"12.5"` gives 12).
   */
  lemma ParseIntDecimal(n: int, rest: string)
    requires rest == [] || (!IsDecimalDigit(rest[0]) && (n == 0 ==> rest[0] != 'x' && rest[0] != 'X'))
    ensures ParseInt(Decimal(n) + rest) == Int(n)
  {
    DecimalStart(n, rest);
    if n < 0 { ParseSignedNegative(n, rest); } else { ParseSignedNonNegative(n, rest); }
    assert TrimStart(Decimal(n) + rest) == Decimal(n) + rest;
  }

  lemma {:induction false} TrimStartSkipsWhiteSpace(ws: string, s: string)
    requires forall i :: 0 <= i < |ws| ==> IsWhiteSpace(ws[i])
    ensures TrimStart(ws + s) == TrimStart(s)
  {
    if ws != [] {
      assert (ws + s)[0] == ws[0];
      assert (ws + s)[1..] == ws[1..] + s;
      assert TrimStart(ws + s) == TrimStart(ws[1..] + s);
      TrimStartSkipsWhiteSpace(ws[1..], s);
    } else {
      assert ws + s == s;
    }
  }

  /** Leading white space never changes what `parseInt` returns. */
  lemma ParseIntIgnoresLeadingWhiteSpace(ws: string, s: string)
    requires forall i :: 0 <= i < |ws| ==> IsWhiteSpace(ws[i])
    ensures ParseInt(ws + s) == ParseInt(s)
  {
    TrimStartSkipsWhiteSpace(ws, s);
  }

  lemma ParseMagnitudeDigits(z: string, rest: string)
    requires z != [] && AllDigits(z, 10)
    requires rest == [] || !IsDecimalDigit(rest[0])
    requires |z| == 1 && z[0] == '0' && rest != [] ==> rest[0] != 'x' && rest[0] != 'X'
    ensures ParseMagnitude(z + rest) == Some(ValueOf(z, 10))
  {
    var u := z + rest;
    assert !(|u| >= 2 && u[0] == '0' && (u[1] == 'x' || u[1] == 'X')) by {
      if |u| >= 2 {
        if |z| >= 2 {
          assert u[1] == z[1] && IsRadixDigit(z[1], 10);
        } else {
          assert u[0] == z[0] && u[1] == rest[0];
        }
      }
    }
    DigitPrefixOfDigits(z, rest, 10);
    assert DigitPrefix(u, 10) == z;
  }

  /** An optional sign: nothing, `+` or `-`. */
  predicate IsSign(sign: string) {
    |sign| <= 1 && (sign != [] ==> sign[0] == '+' || sign[0] == '-')
  }

  /** The value `parseInt` gives for the digits `z` after `sign`. */
  function Signed(sign: string, z: string): int
    requires AllDigits(z, 10)
  {
    if sign != [] && sign[0] == '-' then -(ValueOf(z, 10) as int) else ValueOf(z, 10)
  }

  lemma ParseSignedDigits(sign: string, z: string, rest: string)
    requires IsSign(sign)
    requires z != [] && AllDigits(z, 10)
    requires rest == [] || !IsDecimalDigit(rest[0])
    requires |z| == 1 && z[0] == '0' && rest != [] ==> rest[0] != 'x' && rest[0] != 'X'
    ensures ParseSigned(sign + (z + rest)) == Int(Signed(sign, z))
  {
    var u := z + rest;
    ParseMagnitudeDigits(z, rest);
    assert u[0] == z[0];
    if sign == [] {
      assert sign + u == u;
      ParseSignedUnsigned(u);
    } else if sign[0] == '-' {
      assert sign == ['-'];
      ParseSignedMinus(u);
    } else {
      assert sign == ['+'];
      ParseSignedPlus(u);
    }
  }

  lemma SignOrDigitNotWhiteSpace(c: char)
    requires c == '+' || c == '-' || IsDecimalDigit(c)
    ensures !IsWhiteSpace(c)
  {
  }

  lemma ParseSignedPlus(u: string)
    ensures ParseSigned(['+'] + u) == match ParseMagnitude(u)
                                      case None => NaN
                                      case Some(m) => Int(m)
  {
    var t := ['+'] + u;
    assert t[0] == '+';
    assert t[1..] == u;
  }

  lemma ParseSignedUnsigned(u: string)
    requires u != [] && IsDecimalDigit(u[0])
    ensures ParseSigned(u) == match ParseMagnitude(u)
                              case None => NaN
                              case Some(m) => Int(m)
  {
  }

  /**
   * White space, an optional sign, decimal digits (leading zeros allowed),
   * then anything that is not a digit: `parseInt` gives the digits' value,
   * negated after `-` (`" +007kg"` gives 7). Only a lone `0` followed by
   * `x` or `X` is read differently, as a hexadecimal prefix.
   */
  lemma ParseIntDigits(ws: string, sign: string, z: string, rest: string)
    requires forall i :: 0 <= i < |ws| ==> IsWhiteSpace(ws[i])
    requires IsSign(sign)
    requires z != [] && AllDigits(z, 10)
    requires rest == [] || !IsDecimalDigit(rest[0])
    requires |z| == 1 && z[0] == '0' && rest != [] ==> rest[0] != 'x' && rest[0] != 'X'
    ensures ParseInt(ws + sign + z + rest) == Int(Signed(sign, z))
  {
    var t := sign + (z + rest);
    ParseSignedDigits(sign, z, rest);
    assert ParseInt(ws + t) == ParseSigned(t) by {
      TrimStartSkipsWhiteSpace(ws, t);
      assert t[0] == if sign != [] then sign[0] else z[0];
      SignOrDigitNotWhiteSpace(t[0]);
      assert TrimStart(t) == t;
    }
    Regroup(ws, sign, z, rest);
  }

  lemma Regroup(a: string, b: string, c: string, d: string)
    ensures a + b + c + d == a + (b + (c + d))
  {
    assert a + b + c == a + (b + c);
    assert a + (b + c) + d == a + (b + c + d);
    assert b + c + d == b + (c + d);
  }

  /** A string with no digit right after the white space and sign gives NaN. */
  lemma ParseIntNaN(s: string)
    requires var t := TrimStart(s);
             var u := if t != [] && (t[0] == '-' || t[0] == '+') then t[1..] else t;
             u == [] || !IsDecimalDigit(u[0])
    ensures ParseInt(s) == NaN
  {
  }
}
