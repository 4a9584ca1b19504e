/** Numbers as the pages write and read them: `String(n)` for a natural number,
    and the global `parseInt(s)` with no radix argument. */
module Numerals {

  import opened Common
  import opened FieldRules

  /** Decimal digits of a natural number, without leading zeros: `String(n)`. */
  function NatToString(n: nat): (s: string)
    ensures |s| >= 1
    ensures forall i :: 0 <= i < |s| ==> '0' <= s[i] <= '9'
    decreases n
  {
    if n < 10 then [(n + '0' as int) as char] else NatToString(n / 10) + [((n % 10) + '0' as int) as char]
  }

  /** The number a string of decimal digits denotes. */
  function DigitsValue(s: string): nat
    requires forall i :: 0 <= i < |s| ==> '0' <= s[i] <= '9'
    decreases |s|
  {
    if s == [] then 0 else DigitsValue(s[..|s| - 1]) * 10 + (s[|s| - 1] as int - '0' as int)
  }

  /** Reading back the digits of `n` gives `n`. */
  lemma {:induction false} NatToStringRoundTrip(n: nat)
    ensures DigitsValue(NatToString(n)) == n
    decreases n
  {
    if n >= 10 {
      NatToStringRoundTrip(n / 10);
      var s := NatToString(n);
      assert s[..|s| - 1] == NatToString(n / 10);
    }
  }

  /** Only zero is written with a leading '0'. */
  lemma {:induction false} NoLeadingZero(n: nat)
    ensures NatToString(n)[0] == '0' <==> n == 0
    decreases n
  {
    if n >= 10 {
      NoLeadingZero(n / 10);
    }
  }

  function Pow10(k: nat): nat {
    if k == 0 then 1 else 10 * Pow10(k - 1)
  }

  /** A number with `k` digits is written with `k` characters. */
  lemma {:induction false} NatToStringLength(n: nat, k: nat)
    requires k >= 1
    requires Pow10(k - 1) <= n < Pow10(k) || (k == 1 && n < 10)
    ensures |NatToString(n)| == k
    decreases k
  {
    if n >= 10 {
      NatToStringLength(n / 10, k - 1);
    }
  }

  /** The value of `c` as a digit in base `radix`: '0'-'9', then 'a'-'z' or
      'A'-'Z' for ten and up; nothing when that value is not below `radix`. */
  function DigitOf(c: char, radix: nat): (d: Option<nat>)
    ensures d.Some? ==> d.value < radix
    ensures radix == 10 ==> (d.Some? <==> '0' <= c <= '9')
    ensures radix == 10 && d.Some? ==> d.value == c as int - '0' as int
  {
    var v :=
      if '0' <= c <= '9' then c as int - '0' as int
      else if 'a' <= c <= 'z' then c as int - 'a' as int + 10
      else if 'A' <= c <= 'Z' then c as int - 'A' as int + 10
      else 36;
    if v < radix then Some(v) else None
  }

  predicate IsDigitIn(c: char, radix: nat) {
    DigitOf(c, radix).Some?
  }

  /** Length of the longest prefix of `s` made of base-`radix` digits. */
  function DigitRun(s: string, radix: nat): (k: nat)
    ensures k <= |s|
    ensures forall i :: 0 <= i < k ==> IsDigitIn(s[i], radix)
    ensures k < |s| ==> !IsDigitIn(s[k], radix)
    decreases |s|
  {
    if s != [] && IsDigitIn(s[0], radix) then 1 + DigitRun(s[1..], radix) else 0
  }

  /** The number a string of base-`radix` digits denotes, most significant first. */
  function ValueIn(s: string, radix: nat): nat
    requires forall i :: 0 <= i < |s| ==> IsDigitIn(s[i], radix)
    decreases |s|
  {
    if s == [] then 0
    else
      assert IsDigitIn(s[|s| - 1], radix);
      ValueIn(s[..|s| - 1], radix) * radix + DigitOf(s[|s| - 1], radix).value
  }

  /** A JavaScript number as `parseInt` can produce it. */
  datatype Num = Int(value: int) | NaN

  /** `parseInt(s)`: skip leading white space, take an optional sign, read base 16
      after a `0x`/`0X` prefix and base 10 otherwise, and convert the longest run
      of digits that follows; NaN when that run is empty. Anything after the run
      is ignored. */
  function ParseInt(s: string): Num {
    ParseSigned(TrimStart(s))
  }

  function ParseSigned(t: string): Num {
    if |t| > 0 && t[0] == '-' then Negate(ParseUnsigned(t[1..]))
    else if |t| > 0 && t[0] == '+' then ParseUnsigned(t[1..])
    else ParseUnsigned(t)
  }

  function Negate(n: Num): Num {
    match n
    case NaN => NaN
    case Int(v) => Int(-v)
  }

  function ParseUnsigned(u: string): Num {
    if |u| >= 2 && u[0] == '0' && (u[1] == 'x' || u[1] == 'X') then ParseDigits(u[2..], 16)
    else ParseDigits(u, 10)
  }

  /** The leading run of base-`radix` digits of `d`, read as a number. */
  function ParseDigits(d: string, radix: nat): (n: Num)
    ensures n.NaN? <==> d == [] || !IsDigitIn(d[0], radix)
  {
    var k := DigitRun(d, radix);
    if k == 0 then NaN else Int(ValueIn(d[..k], radix))
  }

  /** The longest digit run of digits followed by a non-digit is those digits. */
  lemma {:induction false} DigitRunOfAppend(p: string, tail: string, radix: nat)
    requires forall i :: 0 <= i < |p| ==> IsDigitIn(p[i], radix)
    requires tail == [] || !IsDigitIn(tail[0], radix)
    ensures DigitRun(p + tail, radix) == |p|
    decreases |p|
  {
    if p != [] {
      assert (p + tail)[1..] == p[1..] + tail;
      DigitRunOfAppend(p[1..], tail, radix);
    } else {
      assert p + tail == tail;
    }
  }

  /** Base ten read by `parseInt` agrees with the decimal reading. */
  lemma {:induction false} DecimalValue(s: string)
    requires forall i :: 0 <= i < |s| ==> '0' <= s[i] <= '9'
    ensures ValueIn(s, 10) == DigitsValue(s)
    decreases |s|
  {
    if s != [] {
      DecimalValue(s[..|s| - 1]);
    }
  }

  /** Unsigned text is read as it stands. */
  lemma ParseSignedPlain(u: string)
    requires u == [] || (u[0] != '-' && u[0] != '+')
    ensures ParseSigned(u) == ParseUnsigned(u)
  {
  }

  /** A leading minus negates what follows. */
  lemma ParseSignedMinus(u: string)
    ensures ParseSigned("-" + u) == Negate(ParseUnsigned(u))
  {
    assert ("-" + u)[1..] == u;
  }

  /** The digits of `n`, followed by a non-digit, are read back as `n`. */
  lemma ParseUnsignedDecimal(n: nat, tail: string)
    requires tail == [] || !('0' <= tail[0] <= '9')
    requires n == 0 ==> tail == [] || (tail[0] != 'x' && tail[0] != 'X')
    ensures ParseUnsigned(NatToString(n) + tail) == Int(n)
  {
    var p := NatToString(n);
    var u := p + tail;
    NoLeadingZero(n);
    NatToStringRoundTrip(n);
    DecimalValue(p);
    DigitRunOfAppend(p, tail, 10);
    assert u[..|p|] == p;
    assert u[0] == p[0];
    assert |u| >= 2 && u[0] == '0' ==> u[1] == tail[0];
  }

  /** `parseInt` reads back what `String(n)` wrote, with or without a minus sign
      and whatever non-digit text follows; the one exception is a tail starting
      with 'x' after "0", which turns the text into a hex prefix. */
  lemma DecimalPrefix(n: nat, tail: string)
    requires tail == [] || !('0' <= tail[0] <= '9')
    requires n == 0 ==> tail == [] || (tail[0] != 'x' && tail[0] != 'X')
    ensures ParseInt(NatToString(n) + tail) == Int(n)
    ensures ParseInt("-" + NatToString(n) + tail) == Int(-(n as int))
  {
    ParseUnsignedDecimal(n, tail);
    PlainDecimal(NatToString(n) + tail, n);
    NegatedDecimal(NatToString(n), tail, n);
  }

  lemma PlainDecimal(u: string, n: nat)
    requires u != [] && '0' <= u[0] <= '9' && ParseUnsigned(u) == Int(n)
    ensures ParseInt(u) == Int(n)
  {
    UnsignedText(u);
  }

  lemma NegatedDecimal(p: string, tail: string, n: nat)
    requires ParseUnsigned(p + tail) == Int(n)
    ensures ParseInt("-" + p + tail) == Int(-(n as int))
  {
    DropSign(p, tail);
    NegativeText("-" + p + tail);
  }

  lemma DropSign(p: string, tail: string)
    ensures ("-" + p + tail)[0] == '-' && ("-" + p + tail)[1..] == p + tail
  {
  }

  /** Text starting with a digit is read without trimming or sign. */
  lemma UnsignedText(u: string)
    requires u != [] && '0' <= u[0] <= '9'
    ensures ParseInt(u) == ParseUnsigned(u)
  {
    TrimStartNoSpace(u);
    ParseSignedPlain(u);
  }

  /** A minus sign directly in front negates the rest. */
  lemma NegativeText(t: string)
    requires t != [] && t[0] == '-'
    ensures ParseInt(t) == Negate(ParseUnsigned(t[1..]))
  {
    TrimStartNoSpace(t);
  }

  /** `parseInt` ignores leading white space. */
  lemma ParseIntSkipsSpace(ws: string, s: string)
    requires IsBlank(ws)
    ensures ParseInt(ws + s) == ParseInt(s)
  {
    TrimStartSkipsBlank(ws, s);
  }

  /** Text with no digit at all, such as "" or "   ", is NaN. */
  lemma BlankIsNaN(s: string)
    requires IsBlank(s)
    ensures ParseInt(s) == NaN
  {
    BlankTrimsToEmpty(s);
    ParseSignedPlain([]);
  }

  /** Text starting with `0x` or `0X` is read in base 16 from the third character. */
  lemma HexText(u: string)
    requires |u| >= 2 && u[0] == '0' && (u[1] == 'x' || u[1] == 'X')
    ensures ParseInt(u) == ParseDigits(u[2..], 16)
  {
    UnsignedText(u);
  }

  lemma DropTwo(p: string, d: string)
    requires |p| == 2
    ensures (p + d)[0] == p[0] && (p + d)[1] == p[1] && (p + d)[2..] == d
  {
  }

  /** A `0x` or `0X` prefix switches to base 16. */
  lemma HexPrefix(d: string)
    ensures ParseInt("0x" + d) == ParseDigits(d, 16)
    ensures ParseInt("0X" + d) == ParseDigits(d, 16)
  {
    DropTwo("0x", d);
    HexText("0x" + d);
    DropTwo("0X", d);
    HexText("0X" + d);
  }

  /** The sign goes before the hex prefix. */
  lemma NegativeHexPrefix(d: string)
    ensures ParseInt("-0x" + d) == Negate(ParseDigits(d, 16))
  {
    DropSign("0x", d);
    assert "-" + "0x" + d == "-0x" + d;
    NegativeText("-0x" + d);
    DropTwo("0x", d);
  }

  /** A hex prefix with no digit after it is NaN, not zero. */
  lemma EmptyHexIsNaN()
    ensures ParseInt("0x") == NaN
  {
    HexPrefix([]);
    assert "0x" + [] == "0x";
  }
}
