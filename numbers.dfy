/**
 * Number <-> text as the conversion code uses it: Python's `float(str)` and
 * `int(str)` on plain decimal text, `int(x)` truncation, and the
 * `'{:.3f}'.format(x)` rendering of the value block, on exact reals.
 */
module Numbers {
  import opened Base
  import opened Strings

  predicate IsDigit(c: char) {
    '0' <= c <= '9'
  }

  predicate AllDigits(s: string) {
    forall i :: 0 <= i < |s| ==> IsDigit(s[i])
  }

  function DigitValue(c: char): nat
    requires IsDigit(c)
  {
    c as int - '0' as int
  }

  function DigitChar(d: nat): (c: char)
    requires d < 10
    ensures IsDigit(c) && DigitValue(c) == d
  {
    ('0' as int + d) as char
  }

  /** The value of a run of decimal digits, most significant first. */
  function DigitsValue(s: string): nat
    requires AllDigits(s)
    decreases |s|
  {
    if s == [] then 0 else 10 * DigitsValue(s[..|s| - 1]) + DigitValue(s[|s| - 1])
  }

  /** Decimal rendering of a natural number, without leading zeros. */
  function NatToString(n: nat): (r: string)
    ensures |r| >= 1 && AllDigits(r)
  {
    if n < 10 then [DigitChar(n)] else NatToString(n / 10) + [DigitChar(n % 10)]
  }

  /** `str(i)` for a Python int. */
  function IntToString(i: int): string {
    if i < 0 then "-" + NatToString(-i) else NatToString(i)
  }

  function Pow10(k: nat): (p: nat)
    ensures p >= 1
  {
    if k == 0 then 1 else 10 * Pow10(k - 1)
  }

  /** The state of a left-to-right scan of a decimal numeral: the digits read as one number, how many of them follow the point, whether a point was read, and the digit count. */
  datatype Scan = Scan(mantissa: nat, scale: nat, point: bool, digits: nat)

  /** Scans digits with at most one point (none unless `allowPoint`); `None` at any other character. */
  function ScanNumber(t: string, allowPoint: bool): Option<Scan>
    decreases |t|
  {
    if t == [] then Some(Scan(0, 0, false, 0))
    else
      match ScanNumber(t[..|t| - 1], allowPoint)
      case None => None
      case Some(sc) =>
        var c := t[|t| - 1];
        if IsDigit(c) then
          Some(Scan(10 * sc.mantissa + DigitValue(c), if sc.point then sc.scale + 1 else sc.scale, sc.point, sc.digits + 1))
        else if c == '.' && allowPoint && !sc.point then Some(sc.(point := true))
        else None
  }

  /** Digits with an optional decimal point, at least one digit: the unsigned part of a float literal. */
  function ParseUnsigned(t: string): Option<real> {
    match ScanNumber(t, true)
    case Some(sc) => if sc.digits == 0 then None else Some(sc.mantissa as real / Pow10(sc.scale) as real)
    case None => None
  }

  /**
   * `float(s)` on decimal text: surrounding whitespace and a sign are allowed;
   * `None` stands for the ValueError Python raises on anything else.
   */
  function ParseFloat(s: string): Option<real> {
    var t := Strip(s);
    if t != "" && (t[0] == '-' || t[0] == '+') then
      match ParseUnsigned(t[1..])
      case None => None
      case Some(v) => Some(if t[0] == '-' then -v else v)
    else ParseUnsigned(t)
  }

  /** At least one digit and nothing else. */
  function ParseDigits(t: string): Option<nat> {
    match ScanNumber(t, false)
    case Some(sc) => if sc.digits == 0 then None else Some(sc.mantissa)
    case None => None
  }

  /** `int(s)` on decimal text: surrounding whitespace and a sign are allowed. */
  function ParseInt(s: string): Option<int> {
    var t := Strip(s);
    if t != "" && (t[0] == '-' || t[0] == '+') then
      match ParseDigits(t[1..])
      case None => None
      case Some(n) => Some(if t[0] == '-' then -(n as int) else n)
    else
      match ParseDigits(t)
      case None => None
      case Some(n) => Some(n)
  }

  /** `int(x)` on a Python float: truncation toward zero. */
  function Trunc(x: real): (n: int)
    ensures 0.0 <= x ==> n == x.Floor
    ensures x < 0.0 ==> n == -((-x).Floor)
  {
    if x < 0.0 then -((-x).Floor) else x.Floor
  }

  function Abs(x: real): real {
    if x < 0.0 then -x else x
  }

  /** Nearest integer, ties to the even one (the rounding of Python's fixed-point format). */
  function RoundHalfEven(x: real): (n: int)
    ensures x - 0.5 <= n as real <= x + 0.5
  {
    var f := x.Floor;
    var d := x - f as real;
    if d < 0.5 then f else if d > 0.5 then f + 1 else if f % 2 == 0 then f else f + 1
  }

  /** Thousandths in `|x|`, rounded half to even. */
  function Thousandths(x: real): nat {
    var n := RoundHalfEven(Abs(x) * 1000.0);
    assert n >= 0 by { assert Abs(x) * 1000.0 >= 0.0; }
    n
  }

  /** Three zero-padded digits. */
  function Pad3(k: nat): (r: string)
    requires k < 1000
    ensures |r| == 3 && AllDigits(r)
  {
    [DigitChar(k / 100), DigitChar(k / 10 % 10), DigitChar(k % 10)]
  }

  /** `'{:.3f}'.format(x)`: a `-` for a negative value, the integer part, a point and three decimals. */
  function Format3(x: real): string {
    var q := Thousandths(x);
    (if x < 0.0 then "-" else "") + NatToString(q / 1000) + "." + Pad3(q % 1000)
  }

  /** The value `Format3(x)` denotes: `x` rounded to thousandths, keeping its sign. */
  function Round3(x: real): real {
    (if x < 0.0 then -1.0 else 1.0) * Thousandths(x) as real / 1000.0
  }

  // ---------------------------------------------------------------------------
  // Round trips between the renderings and the parsers

  lemma {:induction false} DigitsValueOfNatToString(n: nat)
    ensures DigitsValue(NatToString(n)) == n
  {
    if n >= 10 {
      DigitsValueOfNatToString(n / 10);
      var s := NatToString(n / 10) + [DigitChar(n % 10)];
      assert s[..|s| - 1] == NatToString(n / 10);
    }
  }

  lemma DigitsValueOfPad3(k: nat)
    requires k < 1000
    ensures DigitsValue(Pad3(k)) == k
  {
    var s := Pad3(k);
    assert s[..2][..1] == [s[0]];
    assert s[..2] == [s[0], s[1]];
    assert s[..1] == [s[0]];
    assert DigitsValue(s[..1]) == k / 100 by {
      assert s[..1][..0] == [];
    }
  }

  lemma NoSpaceInDigits(s: string)
    requires AllDigits(s)
    ensures forall i :: 0 <= i < |s| ==> !IsSpace(s[i]) && s[i] != '.' && s[i] != '-' && s[i] != '+'
  {
  }

  /** Text that neither starts nor ends with whitespace is its own `strip()`. */
  lemma StripUnchanged(s: string)
    requires s != [] && !IsSpace(s[0]) && !IsSpace(s[|s| - 1])
    ensures Strip(s) == s
  {
    assert LeadingSpaces(s) == 0;
    assert LStrip(s) == s;
    assert TrailingSpaces(s) == 0;
  }

  /** A run of digits scans to its value. */
  lemma {:induction false} ScanDigits(d: string, allowPoint: bool)
    requires AllDigits(d)
    ensures ScanNumber(d, allowPoint) == Some(Scan(DigitsValue(d), 0, false, |d|))
    decreases |d|
  {
    if d != [] {
      ScanDigits(d[..|d| - 1], allowPoint);
    }
  }

  /** Digits after the point extend the mantissa and the scale. */
  lemma {:induction false} ScanFraction(p: string, d: string, sc: Scan)
    requires AllDigits(d) && ScanNumber(p, true) == Some(sc) && sc.point
    ensures ScanNumber(p + d, true) == Some(Scan(sc.mantissa * Pow10(|d|) + DigitsValue(d), sc.scale + |d|, true, sc.digits + |d|))
    decreases |d|
  {
    if d == [] {
      assert p + d == p;
    } else {
      var d' := d[..|d| - 1];
      var c := d[|d| - 1];
      assert (p + d)[..|p + d| - 1] == p + d';
      assert (p + d)[|p + d| - 1] == c;
      ScanFraction(p, d', sc);
      var m' := sc.mantissa * Pow10(|d'|) + DigitsValue(d');
      assert DigitsValue(d) == 10 * DigitsValue(d') + DigitValue(c);
      assert Pow10(|d|) == 10 * Pow10(|d'|);
      MulShift(sc.mantissa, Pow10(|d'|), DigitsValue(d'), DigitValue(c));
    }
  }

  lemma MulShift(a: nat, p: nat, b: nat, c: nat)
    ensures 10 * (a * p + b) + c == a * (10 * p) + (10 * b + c)
  {
  }

  /** The unsigned part of a `Format3` rendering parses back to the rounded magnitude. */
  lemma ParseUnsignedOfFixed(q: nat)
    ensures ParseUnsigned(NatToString(q / 1000) + "." + Pad3(q % 1000)) == Some(q as real / 1000.0)
  {
    var ip, fp := NatToString(q / 1000), Pad3(q % 1000);
    ScanDigits(ip, true);
    DigitsValueOfNatToString(q / 1000);
    DigitsValueOfPad3(q % 1000);
    var sc := Scan(q / 1000, 0, true, |ip|);
    assert (ip + ".")[..|ip + "."| - 1] == ip;
    assert ScanNumber(ip + ".", true) == Some(sc);
    ScanFraction(ip + ".", fp, sc);
    assert Pow10(3) == 1000;
    assert (q / 1000) * 1000 + q % 1000 == q;
  }

  /** `float('{:.3f}'.format(x))` is `x` rounded to thousandths. */
  lemma ParseFloatOfFormat3(x: real)
    ensures ParseFloat(Format3(x)) == Some(Round3(x))
  {
    var q := Thousandths(x);
    var body := NatToString(q / 1000) + "." + Pad3(q % 1000);
    var t := Format3(x);
    NoSpaceInDigits(NatToString(q / 1000));
    NoSpaceInDigits(Pad3(q % 1000));
    assert body[|body| - 1] == Pad3(q % 1000)[2];
    assert body[0] == NatToString(q / 1000)[0];
    ParseUnsignedOfFixed(q);
    if x < 0.0 {
      assert t == "-" + body;
      StripUnchanged(t);
      assert t[1..] == body;
    } else {
      assert t == body;
      StripUnchanged(t);
    }
  }

  /** A rendering never reads back as a value more than half a thousandth away. */
  lemma Round3IsClose(x: real)
    ensures x - 0.0005 <= Round3(x) <= x + 0.0005
  {
  }

  lemma ParseIntOfIntToStringPlain(i: int)
    ensures ParseInt(IntToString(i)) == Some(i)
  {
    var n: nat := if i < 0 then -i else i;
    var t := IntToString(i);
    var d := NatToString(n);
    NoSpaceInDigits(d);
    DigitsValueOfNatToString(n);
    ParseDigitsOfDigits(d);
    assert ParseDigits(d) == Some(n);
    assert t[|t| - 1] == d[|d| - 1];
    StripUnchanged(t);
    assert Strip(t) == t;
    if i < 0 {
      assert t[0] == '-' && t[1..] == d;
    } else {
      assert t == d && !(d[0] == '-' || d[0] == '+');
    }
  }

  /** A non-empty run of digits reads as its value. */
  lemma ParseDigitsOfDigits(d: string)
    requires d != [] && AllDigits(d)
    ensures ParseDigits(d) == Some(DigitsValue(d))
  {
    ScanDigits(d, false);
  }

  /** `int(str(i))` is `i`, also with whitespace in front, as in `"255, 0, 0".split(",")`. */
  lemma ParseIntOfIntToString(i: int, pad: string)
    requires forall k :: 0 <= k < |pad| ==> IsSpace(pad[k])
    ensures ParseInt(pad + IntToString(i)) == Some(i)
  {
    var t := IntToString(i);
    var d := NatToString(if i < 0 then -i else i);
    NoSpaceInDigits(d);
    assert t[0] == '-' || t[0] == d[0];
    assert t[|t| - 1] == d[|d| - 1];
    LStripPadding(pad, t);
    StripUnchanged(t);
    assert Strip(pad + t) == Strip(t);
    ParseIntOfIntToStringPlain(i);
  }

  lemma {:induction false} LeadingSpacesOfPadding(pad: string, t: string)
    requires forall k :: 0 <= k < |pad| ==> IsSpace(pad[k])
    requires t != [] && !IsSpace(t[0])
    ensures LeadingSpaces(pad + t) == |pad|
    decreases |pad|
  {
    if pad != [] {
      assert (pad + t)[1..] == pad[1..] + t;
      LeadingSpacesOfPadding(pad[1..], t);
    } else {
      assert pad + t == t;
    }
  }

  lemma LStripPadding(pad: string, t: string)
    requires forall k :: 0 <= k < |pad| ==> IsSpace(pad[k])
    requires t != [] && !IsSpace(t[0])
    ensures LStrip(pad + t) == t
  {
    LeadingSpacesOfPadding(pad, t);
    assert (pad + t)[|pad|..] == t;
  }
}
