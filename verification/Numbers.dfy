/** Decimal digits of natural numbers, and back. */
module Decimals {

  function Digit(d: nat): char
    requires d < 10
  {
    '0' + d as char
  }

  function Decimal(n: nat): string {
    if n < 10 then [Digit(n)] else Decimal(n / 10) + [Digit(n % 10)]
  }

  lemma DigitsOnly(n: nat)
    ensures |Decimal(n)| > 0 && forall c <- Decimal(n) :: '0' <= c <= '9'
  {
  }

  lemma {:induction false} DecimalInjective(m: nat, n: nat)
    requires Decimal(m) == Decimal(n)
    ensures m == n
  {
    var a, b := Decimal(m), Decimal(n);
    DigitsOnly(m / 10);
    DigitsOnly(n / 10);
    assert a[|a| - 1] == Digit(m % 10) && b[|b| - 1] == Digit(n % 10);
    assert m % 10 == n % 10;
    if m >= 10 && n >= 10 {
      assert Decimal(m / 10) == a[..|a| - 1] && Decimal(n / 10) == b[..|b| - 1];
      DecimalInjective(m / 10, n / 10);
    }
  }

  predicate IsDigit(c: char) {
    '0' <= c <= '9'
  }

  predicate AllDigits(s: string) {
    forall i | 0 <= i < |s| :: IsDigit(s[i])
  }

  function ToNat(s: string): nat
    requires AllDigits(s)
  {
    if s == "" then 0 else 10 * ToNat(s[..|s| - 1]) + (s[|s| - 1] as nat - '0' as nat)
  }

  lemma {:induction false} ToNatDecimal(n: nat)
    ensures AllDigits(Decimal(n)) && ToNat(Decimal(n)) == n
    ensures |Decimal(n)| > 0 && (Decimal(n)[0] == '0' <==> n == 0) && (n == 0 ==> Decimal(n) == "0")
  {
    if n >= 10 {
      ToNatDecimal(n / 10);
      var s := Decimal(n);
      assert s[..|s| - 1] == Decimal(n / 10);
    } else {
      var s := Decimal(n);
      assert s[..|s| - 1] == "" && ToNat("") == 0;
    }
  }

  function Pow10(k: nat): (p: nat)
    ensures p > 0
  {
    if k == 0 then 1 else 10 * Pow10(k - 1)
  }

  function Zeros(k: nat): (s: string)
    ensures |s| == k && AllDigits(s)
  {
    if k == 0 then "" else Zeros(k - 1) + "0"
  }

  /** Zeros on the right multiply, zeros on the left change nothing. */
  lemma {:induction false} ZerosRight(s: string, k: nat)
    requires AllDigits(s)
    ensures AllDigits(s + Zeros(k)) && ToNat(s + Zeros(k)) == ToNat(s) * Pow10(k)
    decreases k
  {
    hide ToNat;
    if k == 0 {
      assert s + Zeros(k) == s;
    } else {
      ZerosRight(s, k - 1);
      Append(s + Zeros(k - 1), '0');
      assert s + Zeros(k) == (s + Zeros(k - 1)) + ['0'];
      TenTimes(ToNat(s), Pow10(k - 1));
    }
  }

  lemma TenTimes(v: nat, p: nat)
    ensures 10 * (v * p) == v * (10 * p)
  {
  }

  lemma {:induction false} ZerosLeft(s: string, k: nat)
    requires AllDigits(s)
    ensures AllDigits(Zeros(k) + s) && ToNat(Zeros(k) + s) == ToNat(s)
    decreases |s|, k
  {
    if s != "" {
      var before := s[..|s| - 1];
      ZerosLeft(before, k);
      Append(Zeros(k) + before, s[|s| - 1]);
      assert Zeros(k) + s == (Zeros(k) + before) + [s[|s| - 1]];
    } else if k == 0 {
      assert Zeros(k) + s == "";
    } else {
      ZerosLeft("", k - 1);
      Append(Zeros(k - 1) + "", '0');
      assert Zeros(k) + s == (Zeros(k - 1) + "") + ['0'];
    }
  }

  lemma Append(s: string, c: char)
    requires AllDigits(s) && IsDigit(c)
    ensures AllDigits(s + [c]) && ToNat(s + [c]) == 10 * ToNat(s) + (c as nat - '0' as nat)
  {
    assert (s + [c])[..|s + [c]| - 1] == s;
  }

  /** How many digits a text starts with. */
  function Count(t: string): (n: nat)
    ensures n <= |t| && AllDigits(t[..n])
    ensures n < |t| ==> !IsDigit(t[n])
  {
    if t == "" || !IsDigit(t[0]) then 0
    else
      var n := 1 + Count(t[1..]);
      assert t[..n] == [t[0]] + t[1..][..n - 1];
      n
  }

  lemma {:induction false} CountPrefix(digits: string, rest: string)
    requires AllDigits(digits) && (rest == "" || !IsDigit(rest[0]))
    ensures Count(digits + rest) == |digits|
    decreases |digits|
  {
    if digits == "" {
      assert digits + rest == rest;
    } else {
      assert (digits + rest)[1..] == digits[1..] + rest;
      CountPrefix(digits[1..], rest);
    }
  }
}

/**
 Numbers of JSON texts, exactly: a sign, digits and a power of ten.  Go writes a float64 with the
 fewest digits that identify it, in exponent form when it is very large or very small; Postgres
 writes a numeric out in full, and knows no negative zero.
 */
module Numbers {
  import opened Prelude
  import opened Decimals

  datatype Scaled = Scaled(negative: bool, digits: nat, exponent: int)

  /** Each value once: no trailing zeros, except that zero keeps its sign. */
  type Number = n: Scaled | (if n.digits == 0 then n.exponent == 0 else n.digits % 10 != 0) witness Scaled(false, 0, 0)

  const ZERO: Number := Scaled(false, 0, 0)
  const NEGATIVE_ZERO: Number := Scaled(true, 0, 0)

  function Normalize(negative: bool, digits: nat, exponent: int): Number {
    if digits == 0 then Scaled(negative, 0, 0)
    else if digits % 10 != 0 then Scaled(negative, digits, exponent)
    else Normalize(negative, digits / 10, exponent + 1)
  }

  /** What a numeric makes of a number: the same value, so the sign of zero is lost. */
  function Numeric(n: Number): Number {
    if n == NEGATIVE_ZERO then ZERO else n
  }

  // ---------------------------------------------------------------- writing

  function Assemble(negative: bool, whole: string, fraction: string, tail: string): string {
    (if negative then "-" else "") + (whole + ((if fraction == "" then "" else "." + fraction) + tail))
  }

  function Whole(n: Number): string {
    var d := Decimal(n.digits);
    if n.exponent >= 0 then d + Zeros(n.exponent)
    else if |d| > -n.exponent then d[..|d| + n.exponent]
    else "0"
  }

  function Fraction(n: Number): string {
    var d := Decimal(n.digits);
    if n.exponent >= 0 then ""
    else if |d| > -n.exponent then d[|d| + n.exponent..]
    else Zeros(-n.exponent - |d|) + d
  }

  /** Written out in full. */
  function InFull(n: Number): string {
    Assemble(n.negative, Whole(n), Fraction(n), "")
  }

  /** The power of ten of the first digit. */
  function Magnitude(n: Number): int {
    |Decimal(n.digits)| - 1 + n.exponent
  }

  function ExponentTail(x: int): string {
    "e" + ((if x < 0 then "-" else "+") + Decimal(if x < 0 then -x else x))
  }

  function Scientific(n: Number): string {
    DigitsOnly(n.digits);
    Assemble(n.negative, Decimal(n.digits)[..1], Decimal(n.digits)[1..], ExponentTail(Magnitude(n)))
  }

  /** encoding/json: exponent form below 1e-6 and from 1e21 on. */
  function GoText(n: Number): string {
    if n.digits != 0 && (Magnitude(n) < -6 || Magnitude(n) >= 21) then Scientific(n) else InFull(n)
  }

  /** The number's size is below the k-th power of ten. */
  predicate Under(n: Number, k: int) {
    if n.exponent >= k then n.digits == 0 else n.digits < Pow10(k - n.exponent)
  }

  lemma {:induction false} DecimalLength(n: nat, j: nat)
    requires j > 0
    ensures |Decimal(n)| <= j <==> n < Pow10(j)
    decreases j
  {
    if n < 10 {
      assert Pow10(j) == 10 * Pow10(j - 1);
    } else if j > 1 {
      DecimalLength(n / 10, j - 1);
      assert Pow10(j) == 10 * Pow10(j - 1);
    } else {
      assert Pow10(1) == 10 * Pow10(0) == 10;
    }
  }

  /** Exponent form exactly for numbers other than zero below a millionth or from 10 to the 21st on. */
  lemma GoTextForm(n: Number)
    ensures GoText(n) == if n.digits != 0 && (Under(n, -6) || !Under(n, 21)) then Scientific(n) else InFull(n)
  {
    hide Scientific, InFull, Decimal, Pow10;
    DigitsOnly(n.digits);
    if n.exponent < -6 {
      DecimalLength(n.digits, -6 - n.exponent);
    }
    if n.exponent < 21 {
      DecimalLength(n.digits, 21 - n.exponent);
    }
  }

  /** What the texts look like: the digits, the point or the zeros, and the exponent with its sign. */
  lemma NumberTexts()
    ensures GoText(Scaled(true, 15, -1)) == "-1.5" && GoText(Scaled(false, 7, 2)) == "700"
    ensures GoText(Scaled(false, 12, -8)) == "1.2e-7" && GoText(Scaled(false, 1, 21)) == "1e+21"
    ensures GoText(NEGATIVE_ZERO) == "-0" && NumericText(NEGATIVE_ZERO) == "0"
  {
    hide Decimal, GoText, InFull, Scientific, Assemble, Zeros;
    Digits();
    var a, b, c, d: Number := Scaled(true, 15, -1), Scaled(false, 7, 2), Scaled(false, 12, -8), Scaled(false, 1, 21);
    InPoints(a, "1", "5");
    InPoints(b, "7" + "00", "");
    InPoints(NEGATIVE_ZERO, "0" + "", "");
    InPoints(ZERO, "0" + "", "");
    InExponents(c, "1", "2", "e-7");
    InExponents(d, "1", "", "e+21");
    Assembled();
  }

  lemma Digits()
    ensures Decimal(15) == "15" && Decimal(7) == "7" && Decimal(12) == "12" && Decimal(1) == "1" && Decimal(0) == "0"
    ensures Decimal(21) == "21" && Zeros(0) == "" && Zeros(2) == "00"
  {
    assert Zeros(1) == Zeros(0) + "0" == "0";
  }

  lemma InPoints(n: Number, whole: string, fraction: string)
    requires Whole(n) == whole && Fraction(n) == fraction && (n.digits == 0 || (-6 <= Magnitude(n) < 21))
    ensures GoText(n) == Assemble(n.negative, whole, fraction, "")
    ensures n != NEGATIVE_ZERO ==> NumericText(n) == Assemble(n.negative, whole, fraction, "")
  {
  }

  lemma InExponents(n: Number, whole: string, fraction: string, tail: string)
    requires n.digits != 0 && |Decimal(n.digits)| > 0 && Decimal(n.digits)[..1] == whole && Decimal(n.digits)[1..] == fraction
    requires ExponentTail(Magnitude(n)) == tail && (Magnitude(n) < -6 || Magnitude(n) >= 21)
    ensures GoText(n) == Assemble(n.negative, whole, fraction, tail)
  {
    hide Magnitude, ExponentTail, Decimal;
  }

  lemma Assembled()
    ensures Assemble(true, "1", "5", "") == "-1.5" && Assemble(false, "7" + "00", "", "") == "700"
    ensures Assemble(false, "1", "2", "e-7") == "1.2e-7" && Assemble(false, "1", "", "e+21") == "1e+21"
    ensures Assemble(true, "0" + "", "", "") == "-0" && Assemble(false, "0" + "", "", "") == "0"
  {
  }

  function NumericText(n: Number): string {
    InFull(Numeric(n))
  }

  // ---------------------------------------------------------------- reading

  /** The number grammar of section 6 of RFC 8259. */
  function ParseNumber(s: string): Option<Number> {
    if s != "" && s[0] == '-' then ParseUnsigned(true, s[1..]) else ParseUnsigned(false, s)
  }

  function ParseUnsigned(negative: bool, t: string): Option<Number> {
    var i := Count(t);
    if i == 0 || (i > 1 && t[0] == '0') then None else AfterWhole(negative, t[..i], t[i..])
  }

  function AfterWhole(negative: bool, whole: string, r: string): Option<Number>
    requires AllDigits(whole)
  {
    if r == "" || r[0] != '.' then Finish(negative, whole, "", r)
    else
      var j := Count(r[1..]);
      if j == 0 then None else Finish(negative, whole, r[1..][..j], r[1..][j..])
  }

  function Finish(negative: bool, whole: string, fraction: string, tail: string): Option<Number>
    requires AllDigits(whole) && AllDigits(fraction)
  {
    assert AllDigits(whole + fraction);
    var digits := ToNat(whole + fraction);
    if tail == "" then Some(Normalize(negative, digits, -|fraction|))
    else if tail[0] !in {'e', 'E'} || |tail| == 1 then None
    else
      var v := if tail[1] in {'+', '-'} then tail[2..] else tail[1..];
      if v == "" || Count(v) != |v| then None
      else
        assert v == v[..|v|];
        var x: int := ToNat(v);
        Some(Normalize(negative, digits, (if tail[1] == '-' then -x else x) - |fraction|))
  }

  // ---------------------------------------------------------------- reading undoes writing

  lemma {:induction false} NormalizeScaled(negative: bool, digits: nat, exponent: int, k: nat)
    requires digits % 10 != 0
    ensures Normalize(negative, digits * Pow10(k), exponent) == Scaled(negative, digits, exponent + k)
    decreases k
  {
    if k == 0 {
      assert digits * Pow10(0) == digits;
    } else {
      var p := Pow10(k - 1);
      assert digits * Pow10(k) == 10 * (digits * p) by {
        assert Pow10(k) == 10 * p;
      }
      assert digits * p > 0;
      NormalizeScaled(negative, digits, exponent + 1, k - 1);
    }
  }

  function Tail(fraction: string, tail: string): string {
    (if fraction == "" then "" else "." + fraction) + tail
  }

  lemma TailParsed(negative: bool, whole: string, fraction: string, tail: string)
    requires AllDigits(whole) && AllDigits(fraction) && (tail == "" || tail[0] == 'e')
    ensures AfterWhole(negative, whole, Tail(fraction, tail)) == Finish(negative, whole, fraction, tail)
    ensures Tail(fraction, tail) == "" || !IsDigit(Tail(fraction, tail)[0])
  {
    hide Finish;
    var rest := Tail(fraction, tail);
    if fraction == "" {
      assert rest == tail;
    } else {
      assert rest[1..] == fraction + tail;
      CountPrefix(fraction, tail);
      assert rest[1..][..|fraction|] == fraction && rest[1..][|fraction|..] == tail;
    }
  }

  lemma ParseAssembled(negative: bool, whole: string, fraction: string, tail: string)
    requires AllDigits(whole) && AllDigits(fraction) && whole != ""
    requires whole[0] == '0' ==> |whole| == 1
    requires tail == "" || tail[0] == 'e'
    ensures ParseNumber(Assemble(negative, whole, fraction, tail)) == Finish(negative, whole, fraction, tail)
  {
    hide Finish, AfterWhole, Tail;
    var s, rest := Assemble(negative, whole, fraction, tail), Tail(fraction, tail);
    var t := whole + rest;
    TailParsed(negative, whole, fraction, tail);
    AssembledFrom(negative, whole, fraction, tail);
    assert IsDigit(whole[0]) && t[0] == whole[0];
    CountPrefix(whole, rest);
    assert t[..|whole|] == whole && t[|whole|..] == rest;
  }

  lemma AssembledFrom(negative: bool, whole: string, fraction: string, tail: string)
    ensures var s, t := Assemble(negative, whole, fraction, tail), whole + Tail(fraction, tail);
      if negative then s != "" && s[0] == '-' && s[1..] == t else s == t
  {
    assert ("-" + (whole + Tail(fraction, tail)))[1..] == whole + Tail(fraction, tail);
    assert "" + (whole + Tail(fraction, tail)) == whole + Tail(fraction, tail);
  }

  /** The digits before and after the point: they read as the digits, scaled up if the exponent is positive. */
  ghost predicate SplitsAs(whole: string, fraction: string, digits: nat, places: nat) {
    && AllDigits(whole) && AllDigits(fraction) && AllDigits(whole + fraction)
    && whole != "" && (whole[0] == '0' ==> |whole| == 1)
    && ToNat(whole + fraction) == digits && |fraction| == places
  }

  lemma PlainInteger(n: Number)
    requires n.exponent >= 0
    ensures SplitsAs(Whole(n), Fraction(n), n.digits * Pow10(n.exponent), 0)
  {
    hide Zeros, Pow10, ToNat;
    var d := Decimal(n.digits);
    ToNatDecimal(n.digits);
    ZerosRight(d, n.exponent);
    assert Whole(n) + Fraction(n) == d + Zeros(n.exponent);
    assert n.digits == 0 ==> Whole(n) == d + Zeros(0) && |Zeros(0)| == 0;
  }

  lemma PlainPoint(n: Number)
    requires n.exponent < 0 && |Decimal(n.digits)| > -n.exponent
    ensures SplitsAs(Whole(n), Fraction(n), n.digits, -n.exponent)
  {
    hide Zeros, Pow10, ToNat;
    var d := Decimal(n.digits);
    ToNatDecimal(n.digits);
    assert Whole(n) + Fraction(n) == d;
  }

  lemma PlainSmall(n: Number)
    requires n.exponent < 0 && |Decimal(n.digits)| <= -n.exponent
    ensures SplitsAs(Whole(n), Fraction(n), n.digits, -n.exponent)
  {
    hide Pow10, ToNat;
    var d, k := Decimal(n.digits), -n.exponent - |Decimal(n.digits)|;
    ToNatDecimal(n.digits);
    ZerosLeft(d, k);
    ZerosLeft(Zeros(k) + d, 1);
    assert Zeros(1) == "0" by { assert Zeros(0) == ""; }
    assert Whole(n) + Fraction(n) == Zeros(1) + (Zeros(k) + d);
  }

  lemma PlainBack(n: Number)
    ensures ParseNumber(InFull(n)) == Some(n)
  {
    hide Whole, Fraction, ParseNumber, Assemble, Decimal, Normalize;
    var digits, places := n.digits, -n.exponent;
    if n.exponent >= 0 {
      PlainInteger(n);
      digits, places := n.digits * Pow10(n.exponent), 0;
    } else if |Decimal(n.digits)| > -n.exponent {
      PlainPoint(n);
    } else {
      PlainSmall(n);
    }
    ParseAssembled(n.negative, Whole(n), Fraction(n), "");
    assert ParseNumber(InFull(n)) == Some(Normalize(n.negative, digits, -places));
    NormalBack(n);
  }

  lemma NormalBack(n: Number)
    ensures n.exponent >= 0 ==> Normalize(n.negative, n.digits * Pow10(n.exponent), 0) == n
    ensures Normalize(n.negative, n.digits, n.exponent) == n
  {
    if n.digits == 0 {
      assert n.digits * Pow10(n.exponent) == 0;
    } else if n.exponent >= 0 {
      NormalizeScaled(n.negative, n.digits, 0, n.exponent);
    }
  }

  lemma TailBack(negative: bool, whole: string, fraction: string, x: int)
    requires AllDigits(whole) && AllDigits(fraction) && AllDigits(whole + fraction)
    ensures Finish(negative, whole, fraction, ExponentTail(x))
         == Some(Normalize(negative, ToNat(whole + fraction), x - |fraction|))
  {
    hide Normalize, Decimal;
    var a := if x < 0 then -x else x;
    var tail := ExponentTail(x);
    ToNatDecimal(a);
    assert tail[0] == 'e' && tail[1] == (if x < 0 then '-' else '+') && tail[2..] == Decimal(a);
    CountPrefix(Decimal(a), "");
    assert Decimal(a) + "" == Decimal(a);
  }

  lemma ScientificBack(n: Number)
    requires n.digits != 0
    ensures ParseNumber(Scientific(n)) == Some(n)
  {
    hide ParseNumber, Assemble, Decimal, ExponentTail, Finish, Normalize;
    NormalBack(n);
    var d := Decimal(n.digits);
    ToNatDecimal(n.digits);
    var whole, fraction := d[..1], d[1..];
    assert whole + fraction == d;
    TailBack(n.negative, whole, fraction, Magnitude(n));
    assert ExponentTail(Magnitude(n)) != "" && ExponentTail(Magnitude(n))[0] == 'e' by { TailStarts(Magnitude(n)); }
    ParseAssembled(n.negative, whole, fraction, ExponentTail(Magnitude(n)));
  }

  lemma TailStarts(x: int)
    ensures ExponentTail(x) != "" && ExponentTail(x)[0] == 'e'
  {
  }

  /** Either writer's text is read back as the number written. */
  lemma NumberBack(n: Number)
    ensures ParseNumber(GoText(n)) == Some(n)
    ensures ParseNumber(NumericText(n)) == Some(Numeric(n))
  {
    hide ParseNumber, InFull, Scientific, Magnitude;
    PlainBack(n);
    PlainBack(Numeric(n));
    if n.digits != 0 {
      ScientificBack(n);
    }
  }

  // ---------------------------------------------------------------- the characters of a number

  /** The characters a JSON number is made of. */
  predicate NumChar(c: char) {
    IsDigit(c) || c in {'+', '-', '.', 'e', 'E'}
  }

  ghost predicate NumChars(s: string) {
    forall i | 0 <= i < |s| :: NumChar(s[i])
  }

  lemma FinishedChars(negative: bool, whole: string, fraction: string, tail: string)
    requires AllDigits(whole) && AllDigits(fraction) && Finish(negative, whole, fraction, tail).Some?
    ensures NumChars(tail)
  {
    hide Normalize, ToNat;
    if tail != "" {
      var v := if tail[1] in {'+', '-'} then tail[2..] else tail[1..];
      assert v == v[..|v|];
      assert tail == tail[..|tail| - |v|] + v;
      forall i | 0 <= i < |tail|
        ensures NumChar(tail[i])
      {
        if i >= |tail| - |v| {
          assert tail[i] == v[i - (|tail| - |v|)];
        }
      }
    }
  }

  lemma WholeChars(negative: bool, whole: string, r: string)
    requires AllDigits(whole) && AfterWhole(negative, whole, r).Some?
    ensures NumChars(r)
  {
    hide Finish;
    if r == "" || r[0] != '.' {
      FinishedChars(negative, whole, "", r);
    } else {
      var rest, j := r[1..], Count(r[1..]);
      FinishedChars(negative, whole, rest[..j], rest[j..]);
      forall i | 0 < i < |r|
        ensures NumChar(r[i])
      {
        assert r[i] == if i - 1 < j then rest[..j][i - 1] else rest[j..][i - 1 - j];
      }
    }
  }

  /** What reads as a number is a run of those characters, starting with a digit or a minus sign. */
  lemma ParsedChars(s: string)
    requires ParseNumber(s).Some?
    ensures s != "" && (IsDigit(s[0]) || s[0] == '-') && NumChars(s)
  {
    hide AfterWhole;
    var t := if s != "" && s[0] == '-' then s[1..] else s;
    var i := Count(t);
    assert t[0] == t[..i][0];
    WholeChars(t != s, t[..i], t[i..]);
    forall k | 0 <= k < |t|
      ensures NumChar(t[k])
    {
      assert t[k] == if k < i then t[..i][k] else t[i..][k - i];
    }
    assert forall k | 0 < k < |s| :: t != s ==> s[k] == t[k - 1];
  }

  // ---------------------------------------------------------------- float64

  /**
   Reading a number as a float64 and printing it: the shortest decimal of the nearest float64.  How
   that is computed is left open; what is used is that printing a float64 and reading it again gives
   it back, and that both zeros are floats.
   */
  type Rounding = Number -> Number

  ghost predicate Rounds(round: Rounding) {
    round(ZERO) == ZERO && round(NEGATIVE_ZERO) == NEGATIVE_ZERO && forall n :: round(round(n)) == round(n)
  }
}
