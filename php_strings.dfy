/**
 * The handful of PHP string primitives the widget core relies on:
 * `trim`, `implode`, `sprintf('%d')`, `intval` on strings and
 * `is_numeric` on strings, each stated on `seq<char>`.
 */
module PhpStrings {

  import opened Wrappers

  /** The characters PHP's `trim` strips by default. */
  predicate IsTrimmed(c: char) {
    c == ' ' || c == '\t' || c == '\n' || c == '\r' || c == '\0' || c == '\U{B}'
  }

  /** The whitespace `intval` and `is_numeric` skip before a number: C's `isspace` set. */
  predicate IsLeadingSpace(c: char) {
    c == ' ' || c == '\t' || c == '\n' || c == '\r' || c == '\U{B}' || c == '\U{C}'
  }

  /** Drops the leading run of whitespace a number may start with, and nothing else. */
  function SkipLeadingSpace(s: string): (r: string)
    ensures |r| <= |s| && r == s[|s| - |r|..]
    ensures forall i :: 0 <= i < |s| - |r| ==> IsLeadingSpace(s[i])
    ensures r == [] || !IsLeadingSpace(r[0])
  {
    if s != [] && IsLeadingSpace(s[0]) then
      var r := SkipLeadingSpace(s[1..]);
      assert s[1..][|s| - 1 - |r|..] == s[|s| - |r|..];
      assert forall i :: 1 <= i < |s| - |r| ==> s[i] == s[1..][i - 1];
      r
    else s
  }

  predicate IsDigit(c: char) {
    '0' <= c <= '9'
  }

  predicate AllDigits(s: string) {
    forall i :: 0 <= i < |s| ==> IsDigit(s[i])
  }

  /** `ltrim`: drops the leading run of trimmed characters and nothing else. */
  function TrimStart(s: string): (r: string)
    ensures |r| <= |s| && r == s[|s| - |r|..]
    ensures forall i :: 0 <= i < |s| - |r| ==> IsTrimmed(s[i])
    ensures r == [] || !IsTrimmed(r[0])
  {
    if s != [] && IsTrimmed(s[0]) then TrimStart(s[1..]) else s
  }

  /** `rtrim`: drops the trailing run of trimmed characters and nothing else. */
  function TrimEnd(s: string): (r: string)
    ensures |r| <= |s| && r == s[..|r|]
    ensures forall i :: |r| <= i < |s| ==> IsTrimmed(s[i])
    ensures r == [] || !IsTrimmed(r[|r| - 1])
  {
    if s != [] && IsTrimmed(s[|s| - 1]) then TrimEnd(s[..|s| - 1]) else s
  }

  /** PHP `trim`: a contiguous slice of the input that neither starts nor ends with a trimmed character. */
  function Trim(s: string): (r: string)
    ensures exists i, j :: 0 <= i <= j <= |s| && r == s[i..j]
    ensures r == [] || (!IsTrimmed(r[0]) && !IsTrimmed(r[|r| - 1]))
  {
    var t := TrimStart(s);
    var r := TrimEnd(t);
    assert r == s[|s| - |t|..|s| - |t| + |r|];
    r
  }

  /** PHP `implode(sep, parts)`. */
  function Join(parts: seq<string>, sep: string): (r: string)
    ensures parts != [] ==> |parts[0]| <= |r| && r[..|parts[0]|] == parts[0]
  {
    if |parts| == 0 then ""
    else if |parts| == 1 then parts[0]
    else parts[0] + sep + Join(parts[1..], sep)
  }

  /** Sum of the lengths of the parts. */
  function TotalLength(parts: seq<string>): nat {
    if parts == [] then 0 else |parts[0]| + TotalLength(parts[1..])
  }

  lemma {:induction false} JoinLength(parts: seq<string>, sep: string)
    ensures |Join(parts, sep)| == TotalLength(parts) + (if parts == [] then 0 else (|parts| - 1) * |sep|)
  {
    if |parts| > 1 {
      JoinLength(parts[1..], sep);
    }
  }

  /** Joining splits at the first part when the first part holds no separator character. */
  lemma {:induction false} JoinCons(p: string, rest: seq<string>, sep: string)
    requires rest != []
    ensures Join([p] + rest, sep) == p + sep + Join(rest, sep)
  {
    assert ([p] + rest)[1..] == rest;
  }

  /** Joining a concatenation is joining the two halves with one separator between them. */
  lemma {:induction false} JoinAppend(a: seq<string>, b: seq<string>, sep: string)
    requires a != [] && b != []
    ensures Join(a + b, sep) == Join(a, sep) + sep + Join(b, sep)
  {
    if |a| == 1 {
      JoinCons(a[0], b, sep);
      assert a + b == [a[0]] + b;
    } else {
      JoinAppend(a[1..], b, sep);
      assert (a + b)[1..] == a[1..] + b;
      assert (a + b)[0] == a[0];
    }
  }

  function DigitChar(d: nat): (c: char)
    requires d < 10
    ensures IsDigit(c)
  {
    "0123456789"[d]
  }

  function DigitValue(c: char): (d: nat)
    requires IsDigit(c)
    ensures d < 10 && DigitChar(d) == c
  {
    (c as int - '0' as int) as nat
  }

  /** Decimal digits of a natural number, most significant first, without leading zeros. */
  function NatToString(n: nat): (s: string)
    ensures |s| >= 1 && AllDigits(s)
    ensures |s| > 1 <==> n >= 10
  {
    if n < 10 then [DigitChar(n)] else NatToString(n / 10) + [DigitChar(n % 10)]
  }

  /** PHP `sprintf('%d', i)`. */
  function IntToString(i: int): (s: string)
    ensures |s| >= 1
    ensures forall k :: 0 <= k < |s| ==> IsDigit(s[k]) || (k == 0 && s[k] == '-')
  {
    if i < 0 then "-" + NatToString(-i) else NatToString(i)
  }

  /** Value of a string of decimal digits. */
  function DigitsValue(s: string): nat
    requires AllDigits(s)
  {
    if s == [] then 0 else DigitsValue(s[..|s| - 1]) * 10 + DigitValue(s[|s| - 1])
  }

  lemma {:induction false} DigitsValueOfNatToString(n: nat)
    ensures DigitsValue(NatToString(n)) == n
  {
    if n >= 10 {
      var s := NatToString(n);
      DigitsValueOfNatToString(n / 10);
      assert s[..|s| - 1] == NatToString(n / 10);
    }
  }

  /** Distinct numbers print differently. */
  lemma NatToStringInjective(m: nat, n: nat)
    requires NatToString(m) == NatToString(n)
    ensures m == n
  {
    DigitsValueOfNatToString(m);
    DigitsValueOfNatToString(n);
  }

  lemma IntToStringInjective(i: int, j: int)
    requires IntToString(i) == IntToString(j)
    ensures i == j
  {
    assert IntToString(i)[0] == '-' <==> i < 0;
    assert IntToString(j)[0] == '-' <==> j < 0;
    if i < 0 {
      assert NatToString(-i) == IntToString(i)[1..];
      assert NatToString(-j) == IntToString(j)[1..];
      NatToStringInjective(-i, -j);
    } else {
      NatToStringInjective(i, j);
    }
  }

  /** Length of the longest prefix of `s` made of decimal digits. */
  function DigitRun(s: string): (n: nat)
    ensures n <= |s| && AllDigits(s[..n])
    ensures n < |s| ==> !IsDigit(s[n])
  {
    if s != [] && IsDigit(s[0]) then
      var n := 1 + DigitRun(s[1..]);
      assert s[..n] == [s[0]] + s[1..][..n - 1];
      n
    else 0
  }

  /** Value of an optional sign followed by the leading run of digits, as `intval` reads it. */
  function SignedPrefixValue(s: string): int {
    if s != [] && (s[0] == '-' || s[0] == '+') then
      var t := s[1..];
      var v: int := DigitsValue(t[..DigitRun(t)]);
      if s[0] == '-' then -v else v
    else
      DigitsValue(s[..DigitRun(s)])
  }

  /**
   * PHP `intval` on a string, as PHP up to 7.0 reads it: leading
   * whitespace is skipped, an optional sign and the leading run of digits
   * are read, the rest (an exponent included) is ignored.
   */
  function IntVal(s: string): int {
    SignedPrefixValue(SkipLeadingSpace(s))
  }

  /** `intval` reads 0 unless a digit or a sign follows the leading whitespace, and a negative value only after a minus sign. */
  lemma IntValReadsLeadingNumber(s: string)
    ensures var t := SkipLeadingSpace(s);
      t == [] || !(IsDigit(t[0]) || t[0] == '-' || t[0] == '+') ==> IntVal(s) == 0
    ensures var t := SkipLeadingSpace(s);
      IntVal(s) < 0 ==> t != [] && t[0] == '-'
  {
  }

  /** An exponent is not read: `"1e3"` is numeric, yet `intval` stops at the `e`. */
  lemma IntValStopsAtExponent()
    ensures IsNumeric("1e3") && IntVal("1e3") == 1
  {
    ExponentIsNumeric();
    ExponentIntVal();
  }

  lemma ExponentIsNumeric()
    ensures IsNumeric("1e3")
  {
    assert "1e3" == ['1', 'e', '3'];
    DigitExponentDigitIsNumeric('1', '3');
  }

  lemma ExponentIntVal()
    ensures IntVal("1e3") == 1
  {
    assert "1e3" == ['1'] + "e3";
    IntValOfDigitThenNonDigit('1', "e3");
  }

  /** A digit, `e` and a digit form a numeric string. */
  lemma DigitExponentDigitIsNumeric(d: char, e: char)
    requires IsDigit(d) && IsDigit(e)
    ensures IsNumeric([d, 'e', e])
  {
    var s := [d, 'e', e];
    assert s == [d] + ['e', e];
    NoSpaceToSkip(s);
    ExponentOfDigit(e);
    DigitThenTailIsNumber(d, ['e', e]);
  }

  lemma ExponentOfDigit(e: char)
    requires IsDigit(e)
    ensures IsExponentTail(['e', e])
  {
    assert ['e', e][1..] == [e];
  }

  /** One digit followed by an exponent tail (or nothing) is a number. */
  lemma DigitThenTailIsNumber(d: char, rest: string)
    requires IsDigit(d) && IsExponentTail(rest)
    ensures ParseNumber([d] + rest).Some?
  {
    SingleDigitRun(d, rest);
    assert ([d] + rest)[1..] == rest;
  }

  /** `intval` of a digit followed by anything but a digit is that digit's value. */
  lemma IntValOfDigitThenNonDigit(d: char, rest: string)
    requires IsDigit(d) && (rest == [] || !IsDigit(rest[0]))
    ensures IntVal([d] + rest) == DigitValue(d)
  {
    var s := [d] + rest;
    NoSpaceToSkip(s);
    SingleDigitRun(d, rest);
    assert SignedPrefixValue(s) == DigitsValue(s[..1]);
    assert s[..1] == [d];
    assert DigitsValue([d]) == DigitValue(d) by { assert [d][..0] == []; }
  }

  lemma NoSpaceToSkip(s: string)
    requires s != [] && !IsLeadingSpace(s[0])
    ensures SkipLeadingSpace(s) == s
  {
  }

  lemma SingleDigitRun(d: char, rest: string)
    requires IsDigit(d) && (rest == [] || !IsDigit(rest[0]))
    ensures DigitRun([d] + rest) == 1
  {
    assert ([d] + rest)[1..] == rest;
  }

  /** A leading whitespace character changes neither `intval` nor `is_numeric`. */
  lemma LeadingSpaceIsSkipped(c: char, rest: string)
    requires IsLeadingSpace(c)
    ensures IntVal([c] + rest) == IntVal(rest)
    ensures IsNumeric([c] + rest) == IsNumeric(rest)
  {
    assert ([c] + rest)[1..] == rest;
    assert SkipLeadingSpace([c] + rest) == SkipLeadingSpace(rest);
  }

  /** A string led by a character that is neither whitespace, a sign, a digit nor a point is no number and reads as 0. */
  lemma NoNumberAfter(c: char, rest: string)
    requires !IsLeadingSpace(c) && !IsDigit(c) && c != '-' && c != '+' && c != '.'
    ensures !IsNumeric([c] + rest) && IntVal([c] + rest) == 0
  {
    var s := [c] + rest;
    assert SkipLeadingSpace(s) == s;
    assert DigitRun(s) == 0;
    assert s[..0] == [];
  }

  /** `intval` reads back what `sprintf('%d')` wrote. */
  lemma IntValOfIntToString(i: int)
    ensures IntVal(IntToString(i)) == i
  {
    if i < 0 {
      IntValOfNegativeToString(i);
    } else {
      IntValOfNatToString(i);
    }
  }

  lemma IntValOfNegativeToString(i: int)
    requires i < 0
    ensures IntVal(IntToString(i)) == i
  {
    var s := IntToString(i);
    NegativeToStringDropsSign(i, s);
    NatToStringValue(-i, s[1..]);
    IntValOfNegatedDigits(s, -i);
  }

  lemma NegativeToStringDropsSign(i: int, s: string)
    requires i < 0 && s == IntToString(i)
    ensures s != [] && s[0] == '-' && s[1..] == NatToString(-i)
  {
    var t := NatToString(-i);
    assert s == "-" + t;
    assert s[1..] == t;
  }

  lemma NatToStringValue(n: nat, t: string)
    requires t == NatToString(n)
    ensures AllDigits(t) && DigitsValue(t) == n
  {
    DigitsValueOfNatToString(n);
  }

  lemma IntValOfNatToString(n: nat)
    ensures IntVal(NatToString(n)) == n
  {
    IntValOfDigits(NatToString(n));
    DigitsValueOfNatToString(n);
  }

  lemma IntValOfDigits(t: string)
    requires t != [] && AllDigits(t)
    ensures IntVal(t) == DigitsValue(t)
  {
    NoSpaceToSkip(t);
    DigitRunOfDigits(t);
    assert t[..|t|] == t;
  }

  lemma IntValOfNegatedDigits(s: string, v: nat)
    requires s != [] && s[0] == '-' && AllDigits(s[1..]) && DigitsValue(s[1..]) == v
    ensures IntVal(s) + v == 0
  {
    NoSpaceToSkip(s);
    DigitRunOfDigits(s[1..]);
    assert s[1..][..|s| - 1] == s[1..];
  }


  lemma {:induction false} DigitRunOfDigits(s: string)
    requires AllDigits(s)
    ensures DigitRun(s) == |s|
  {
    if s != [] {
      DigitRunOfDigits(s[1..]);
    }
  }

  /**
   * The reading of a numeric string that PHP's `is_numeric` accepts: its
   * sign, and its magnitude `digits * 10^scale`, where `digits` is the
   * value of all mantissa digits and `scale` the exponent less the number
   * of fraction digits.
   */
  datatype Numeric = Numeric(negative: bool, digits: nat, scale: int)

  function Pow(b: nat, n: nat): nat {
    if n == 0 then 1 else b * Pow(b, n - 1)
  }

  /**
   * Reads the optional exponent that may follow a mantissa: `e` or `E`, an
   * optional sign, at least one digit, and then nothing more.
   */
  predicate IsExponentTail(s: string) {
    s == [] ||
    (|s| >= 2 && (s[0] == 'e' || s[0] == 'E') &&
      var t := if s[1] == '+' || s[1] == '-' then s[2..] else s[1..];
      t != [] && AllDigits(t))
  }
  /** The signed value of an exponent tail, 0 when there is none. */
  function ExponentValue(s: string): int
    requires IsExponentTail(s)
  {
    if s == [] then 0
    else if s[1] == '-' then -(DigitsValue(s[2..]) as int)
    else if s[1] == '+' then DigitsValue(s[2..])
    else DigitsValue(s[1..])
  }


  /**
   * PHP 7 `is_numeric` on a string: optional leading whitespace, then a
   * number as `ParseNumber` reads it.
   */
  function ParseNumeric(s: string): (r: Option<Numeric>)
    ensures r.Some? ==> exists i :: 0 <= i < |s| && IsDigit(s[i])
  {
    var t := SkipLeadingSpace(s);
    assert forall i :: 0 <= i < |t| ==> t[i] == s[|s| - |t| + i];
    ParseNumber(t)
  }

  /**
   * The number `is_numeric` accepts once whitespace is skipped: optional
   * sign, a mantissa (`12`, `12.`, `12.5` or `.5`), an optional exponent;
   * no trailing characters.
   */
  function ParseNumber(t: string): (r: Option<Numeric>)
    ensures r.Some? ==> exists i :: 0 <= i < |t| && IsDigit(t[i])
  {
    var negative := t != [] && t[0] == '-';
    var u := if t != [] && (t[0] == '-' || t[0] == '+') then t[1..] else t;
    var whole := DigitRun(u);
    var rest := u[whole..];
    if rest != [] && rest[0] == '.' then
      var frac := DigitRun(rest[1..]);
      if (whole > 0 || frac > 0) && IsExponentTail(rest[1..][frac..]) then
        assert u == t[|t| - |u|..];
        assert whole > 0 ==> IsDigit(t[|t| - |u|]);
        assert whole == 0 ==> IsDigit(t[|t| - |u| + 1]);
        var mantissa := u[..whole] + rest[1..][..frac];
        assert AllDigits(mantissa);
        Some(Numeric(negative, DigitsValue(mantissa), ExponentValue(rest[1..][frac..]) - frac))
      else None
    else if whole > 0 && IsExponentTail(rest) then
      assert u == t[|t| - |u|..];
      assert IsDigit(t[|t| - |u|]);
      Some(Numeric(negative, DigitsValue(u[..whole]), ExponentValue(rest)))
    else None
  }

  /** PHP `is_numeric` on a string. */
  predicate IsNumeric(s: string) {
    ParseNumeric(s).Some?
  }

  /**
   * A magnitude `digits * 10^scale` that does not round to zero as a
   * double. The string is read by a correctly rounding `strtod`, and any
   * magnitude at most 2^-1075 (half the least subnormal) rounds to 0.
   */
  predicate NonZeroAsDouble(digits: nat, scale: int) {
    digits > 0 && (scale >= 0 || digits * Pow(2, 1075) > Pow(10, -scale))
  }

  /**
   * `$s < 0` for a numeric string. PHP compares it as an integer or a
   * double. It is negative when it has a minus sign and a magnitude that
   * does not round to 0; a magnitude that does becomes -0.0, which is not
   * below 0.
   */
  predicate NumericIsNegative(s: string)
    requires IsNumeric(s)
  {
    var n := ParseNumeric(s).value;
    n.negative && NonZeroAsDouble(n.digits, n.scale)
  }


  /**
   * `"-1e-400"` is numeric, yet not below 0: its magnitude rounds to 0 as
   * a double. `intval` still reads its leading `-1`.
   */
  lemma UnderflowIsNotNegative()
    ensures IsNumeric("-1e-400") && !NumericIsNegative("-1e-400")
    ensures IntVal("-1e-400") == -1
  {
    UnderflowReading();
    UnderflowIntVal();
  }

  lemma UnderflowReading()
    ensures IsNumeric("-1e-400") && !NumericIsNegative("-1e-400")
  {
    assert "-1e-400" == ['-', '1', 'e', '-'] + "400";
    DigitsOf400();
    SignedDigitNegativeExponent('1', "400");
    assert DigitValue('1') == 1;
    OneEMinus400RoundsToZero();
    NotNegativeWhenRoundedToZero("-1e-400", Numeric(true, 1, -400));
  }

  /** A minus sign, one digit, `e-` and a run of digits. */
  lemma SignedDigitNegativeExponent(d: char, ds: string)
    requires IsDigit(d) && ds != [] && AllDigits(ds)
    ensures IsNumeric(['-', d, 'e', '-'] + ds)
    ensures ParseNumeric(['-', d, 'e', '-'] + ds).value == Numeric(true, DigitValue(d), -(DigitsValue(ds) as int))
  {
    var tail := ['e', '-'] + ds;
    assert ['-', d, 'e', '-'] + ds == ['-', d] + tail;
    NegativeExponentTail(ds);
    SignedDigitThenTail(d, tail);
  }

  lemma OneEMinus400RoundsToZero()
    ensures !NonZeroAsDouble(1, -400)
  {
    TenToThe400ExceedsHalfSubnormal();
  }

  lemma NotNegativeWhenRoundedToZero(s: string, n: Numeric)
    requires IsNumeric(s) && ParseNumeric(s).value == n && !NonZeroAsDouble(n.digits, n.scale)
    ensures !NumericIsNegative(s)
  {
  }

  lemma UnderflowIntVal()
    ensures IntVal("-1e-400") == -1
  {
    assert "-1e-400" == ['-', '1'] + (['e', '-'] + "400");
    IntValOfSignedDigitThenNonDigit('1', ['e', '-'] + "400");
  }

  /** `"-1e-3"` is below 0: a small magnitude that a double still holds. */
  lemma SmallNegativeIsNegative()
    ensures IsNumeric("-1e-3") && NumericIsNegative("-1e-3")
  {
    assert "-1e-3" == ['-', '1'] + (['e', '-'] + "3");
    NegativeExponentTail("3");
    assert DigitsValue("3") == 3 by { assert "3"[..0] == []; }
    SignedDigitThenTail('1', ['e', '-'] + "3");
    ThousandBelowHalfSubnormalInverse();
  }

  lemma ThousandBelowHalfSubnormalInverse()
    ensures Pow(2, 1075) > Pow(10, 3)
  {
    PowMonotone(2, 10, 1075);
    assert Pow(2, 10) == 1024 by {
      assert Pow(2, 5) == 32;
      assert Pow(2, 10) == 2 * 2 * 2 * 2 * 2 * Pow(2, 5);
    }
    assert Pow(10, 3) == 1000;
  }

  lemma NegativeExponentTail(ds: string)
    requires ds != [] && AllDigits(ds)
    ensures IsExponentTail(['e', '-'] + ds) && ExponentValue(['e', '-'] + ds) == -(DigitsValue(ds) as int)
  {
    assert (['e', '-'] + ds)[2..] == ds;
  }

  lemma DigitsOf400()
    ensures AllDigits("400") && DigitsValue("400") == 400
  {
    assert "400"[..2] == "40" && "40"[..1] == "4" && "4"[..0] == [];
  }

  /** A minus sign, one digit and an exponent tail. */
  lemma SignedDigitThenTail(d: char, tail: string)
    requires IsDigit(d) && IsExponentTail(tail)
    ensures IsNumeric(['-', d] + tail)
    ensures ParseNumeric(['-', d] + tail).value == Numeric(true, DigitValue(d), ExponentValue(tail))
  {
    var s := ['-', d] + tail;
    NoSpaceToSkip(s);
    var u := [d] + tail;
    assert s[1..] == u;
    SingleDigitRun(d, tail);
    assert u[1..] == tail;
    assert u[..1] == [d];
    assert DigitsValue([d]) == DigitValue(d) by { assert [d][..0] == []; }
  }

  lemma IntValOfSignedDigitThenNonDigit(d: char, rest: string)
    requires IsDigit(d) && (rest == [] || !IsDigit(rest[0]))
    ensures IntVal(['-', d] + rest) == -(DigitValue(d) as int)
  {
    var s := ['-', d] + rest;
    NoSpaceToSkip(s);
    var t := [d] + rest;
    assert s[1..] == t;
    SingleDigitRun(d, rest);
    assert t[..1] == [d];
    assert DigitsValue([d]) == DigitValue(d) by { assert [d][..0] == []; }
  }

  /** 10^400 is at least 2^1075, so 1e-400 is at most half the least subnormal double. */
  lemma TenToThe400ExceedsHalfSubnormal()
    ensures Pow(2, 1075) <= Pow(10, 400)
  {
    PowMonotone(2, 1075, 3 * 400);
    EightBelowTen(400);
  }

  lemma {:induction false} EightBelowTen(k: nat)
    ensures Pow(2, 3 * k) <= Pow(10, k)
  {
    if k > 0 {
      EightBelowTen(k - 1);
      var n := 3 * (k - 1);
      assert Pow(2, 3 * k) == 8 * Pow(2, n) by {
        assert Pow(2, n + 3) == 2 * Pow(2, n + 2);
        assert Pow(2, n + 2) == 2 * Pow(2, n + 1);
        assert Pow(2, n + 1) == 2 * Pow(2, n);
      }
    }
  }

  lemma AtLeastOnce(b: nat, x: nat)
    requires b >= 1
    ensures b * x >= x
  {
  }

  lemma {:induction false} PowMonotone(b: nat, m: nat, n: nat)
    requires b >= 1 && m <= n
    ensures Pow(b, m) <= Pow(b, n)
  {
    if m < n {
      PowMonotone(b, m, n - 1);
      AtLeastOnce(b, Pow(b, n - 1));
    }
  }

  lemma EmptyIsNotNumeric()
    ensures !IsNumeric("")
  {
    assert SkipLeadingSpace("") == "";
    assert DigitRun("") == 0;
  }

  /** A form feed may lead a number, a NUL byte may not. */
  lemma LeadingSpaceIsNotTrimSet()
    ensures IsNumeric("\U{C}5") && IntVal("\U{C}7") == 7
    ensures !IsNumeric("\0 5") && IntVal("\0 7") == 0
  {
    FormFeedLeadsANumber();
    NulDoesNotLeadANumber();
  }

  lemma FormFeedLeadsANumber()
    ensures IsNumeric("\U{C}5") && IntVal("\U{C}7") == 7
  {
    FormFeedNumeric();
    FormFeedIntVal();
  }

  lemma FormFeedNumeric()
    ensures IsNumeric("\U{C}5")
  {
    assert "\U{C}5" == ['\U{C}', '5'];
    SpaceThenDigitIsNumeric('\U{C}', '5');
  }

  /** Whitespace followed by one digit is a numeric string. */
  lemma SpaceThenDigitIsNumeric(c: char, d: char)
    requires IsLeadingSpace(c) && IsDigit(d)
    ensures IsNumeric([c, d])
  {
    assert [c, d] == [c] + [d];
    LeadingSpaceIsSkipped(c, [d]);
    DigitIsNumeric(d);
  }

  lemma DigitIsNumeric(d: char)
    requires IsDigit(d)
    ensures IsNumeric([d])
  {
    NoSpaceToSkip([d]);
    assert [d] == [d] + [];
    DigitThenTailIsNumber(d, []);
  }

  lemma FormFeedIntVal()
    ensures IntVal("\U{C}7") == 7
  {
    assert "\U{C}7" == ['\U{C}', '7'];
    SpaceThenDigitIntVal('\U{C}', '7');
  }

  /** Whitespace followed by one digit reads as that digit. */
  lemma SpaceThenDigitIntVal(c: char, d: char)
    requires IsLeadingSpace(c) && IsDigit(d)
    ensures IntVal([c, d]) == DigitValue(d)
  {
    assert [c, d] == [c] + [d];
    LeadingSpaceIsSkipped(c, [d]);
    DigitIntVal(d);
  }

  lemma DigitIntVal(d: char)
    requires IsDigit(d)
    ensures IntVal([d]) == DigitValue(d)
  {
    assert [d] == [d] + [];
    IntValOfDigitThenNonDigit(d, []);
  }

  lemma NulDoesNotLeadANumber()
    ensures !IsNumeric("\0 5") && IntVal("\0 7") == 0
  {
    assert "\0 5" == ['\0'] + " 5";
    assert "\0 7" == ['\0'] + " 7";
    NoNumberAfter('\0', " 5");
    NoNumberAfter('\0', " 7");
  }
}
