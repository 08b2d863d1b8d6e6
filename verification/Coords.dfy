/** Decimal degrees of mission files (src/data/missionfile/coords.ts). */
module Coords {
  import opened Text
  import opened Numbers

  // ---------------------------------------------------------------- decimal digits

  predicate IsDigit(c: char) { '0' <= c <= '9' }

  predicate AllDigits(s: string) { forall i :: 0 <= i < |s| ==> IsDigit(s[i]) }

  function DigitOf(c: char): nat { if IsDigit(c) then c as int - '0' as int else 0 }

  /** The number that digits write. */
  function DigitsValue(s: string): nat {
    if s == "" then 0 else 10 * DigitsValue(s[..|s| - 1]) + DigitOf(s[|s| - 1])
  }

  function Pow10(k: nat): (p: nat)
    ensures p > 0
  {
    if k == 0 then 1 else 10 * Pow10(k - 1)
  }

  lemma {:induction false} DigitsOfNat(n: nat)
    ensures DigitsValue(NatToString(n)) == n && AllDigits(NatToString(n))
  {
    var s := NatToString(n);
    if n < 10 {
      assert s[..0] == "";
    } else {
      DigitsOfNat(n / 10);
      assert s[..|s| - 1] == NatToString(n / 10);
    }
  }

  lemma {:induction false} NatLength(n: nat, k: nat)
    requires n < Pow10(k) && k > 0
    ensures |NatToString(n)| <= k
  {
    assert Pow10(k) == 10 * Pow10(k - 1);
    if n >= 10 {
      NatLength(n / 10, k - 1);
    }
  }

  // -------------------------------------------------------------- decimal numbers

  /** The fraction that digits after the point write. */
  function FractionValue(s: string): real { DigitsValue(s) as real / Pow10(|s|) as real }

  /** digits, or digits.digits, or either after a minus sign. */
  datatype Decimal = Decimal(negative: bool, whole: string, fraction: string)

  predicate IsDecimal(d: Decimal) { d.whole != "" && AllDigits(d.whole) && AllDigits(d.fraction) }

  function DecimalText(d: Decimal): string {
    (if d.negative then "-" else "") + d.whole + (if d.fraction == "" then "" else "." + d.fraction)
  }

  function DecimalValue(d: Decimal): real {
    var abs := DigitsValue(d.whole) as real + FractionValue(d.fraction);
    if d.negative then -abs else abs
  }

  // ---------------------------------------------------------------------- degrees

  const E7 := 10000000

  function DegToE7(deg: real): int { Round(deg * E7 as real) }

  function PadStart(s: string, width: nat): (r: string)
    ensures |r| == if |s| < width then width else |s|
    decreases width - |s|
  {
    if |s| >= width then s else PadStart("0" + s, width)
  }

  function StripZeros(s: string): (r: string)
    ensures |r| <= |s|
  {
    if s != "" && s[|s| - 1] == '0' then StripZeros(s[..|s| - 1]) else s
  }

  /** e7ToDegString of an integer, before its parts are joined. */
  function E7Decimal(e7: int): Decimal {
    var abs: nat := if e7 < 0 then -e7 else e7;
    var whole, frac := abs / E7, abs % E7;
    Decimal(e7 < 0, NatToString(whole), if frac == 0 then "" else StripZeros(PadStart(NatToString(frac), 7)))
  }

  function E7ToDegString(e7: int): string {
    var sign := if e7 < 0 then "-" else "";
    var abs: nat := if e7 < 0 then -e7 else e7;
    var whole, frac := abs / E7, abs % E7;
    if frac == 0 then sign + NatToString(whole)
    else sign + NatToString(whole) + "." + StripZeros(PadStart(NatToString(frac), 7))
  }

  lemma {:induction false} LeadingZero(s: string)
    ensures DigitsValue("0" + s) == DigitsValue(s)
  {
    if s == "" {
      assert ("0" + s)[..0] == "";
    } else {
      LeadingZero(s[..|s| - 1]);
      assert ("0" + s)[..|s|] == "0" + s[..|s| - 1];
    }
  }

  lemma {:induction false} PadKeeps(s: string, width: nat)
    requires AllDigits(s)
    ensures DigitsValue(PadStart(s, width)) == DigitsValue(s) && AllDigits(PadStart(s, width))
    decreases width - |s|
  {
    if |s| < width {
      LeadingZero(s);
      PadKeeps("0" + s, width);
    }
  }

  lemma {:induction false} StripKeeps(s: string)
    requires AllDigits(s)
    ensures AllDigits(StripZeros(s)) && DigitsValue(s) == DigitsValue(StripZeros(s)) * Pow10(|s| - |StripZeros(s)|)
    ensures Pow10(|s|) == Pow10(|StripZeros(s)|) * Pow10(|s| - |StripZeros(s)|)
    ensures DigitsValue(s) > 0 ==> StripZeros(s) != ""
    ensures StripZeros(s) != "" ==> StripZeros(s)[|StripZeros(s)| - 1] != '0'
  {
    if s != "" && s[|s| - 1] == '0' {
      var front := s[..|s| - 1];
      StripKeeps(front);
      var r := StripZeros(front);
      assert Pow10(|s| - |r|) == 10 * Pow10(|front| - |r|);
      TimesTen(DigitsValue(r), Pow10(|front| - |r|));
      TimesTen(Pow10(|r|), Pow10(|front| - |r|));
    }
  }

  lemma TimesTen(a: nat, b: nat)
    ensures a * (10 * b) == 10 * (a * b)
  {
  }

  lemma SameRatio(a: nat, b: nat, k: nat)
    requires b > 0 && k > 0
    ensures (a * k) as real / (b * k) as real == a as real / b as real
  {
    var q := a as real / b as real;
    assert q * b as real == a as real;
    assert (a * k) as real == a as real * k as real && (b * k) as real == b as real * k as real;
    RatioTimes(q, a as real, b as real, k as real);
  }

  lemma RatioTimes(q: real, a: real, b: real, k: real)
    requires b > 0.0 && k > 0.0 && q * b == a
    ensures a * k / (b * k) == q
  {
    var bk := b * k;
    assert bk > 0.0;
    assert q * bk == a * k;
  }

  /** The string of e7ToDegString writes exactly e7 / 10000000, in as few digits as
      possible, and degToE7 maps that back to e7. */
  lemma DegreesAreExact(e7: int)
    ensures var d := E7Decimal(e7);
            && IsDecimal(d) && E7ToDegString(e7) == DecimalText(d)
            && DecimalValue(d) == e7 as real / 10000000.0
            && DegToE7(DecimalValue(d)) == e7
            && (d.fraction != "" ==> d.fraction[|d.fraction| - 1] != '0')
  {
    hide NatToString, DigitsValue, FractionValue, StripZeros, PadStart, Round;
    ValueIsExact(e7);
    RoundInt(e7);
    var d := E7Decimal(e7);
    assert DecimalValue(d) * E7 as real == e7 as real;
    var sign := if e7 < 0 then "-" else "";
    assert sign + d.whole + ("." + d.fraction) == sign + d.whole + "." + d.fraction;
    assert sign + d.whole + "" == sign + d.whole;
  }

  lemma ValueIsExact(e7: int)
    ensures var d := E7Decimal(e7);
            && IsDecimal(d) && DecimalValue(d) == e7 as real / 10000000.0
            && (d.fraction != "" ==> d.fraction[|d.fraction| - 1] != '0')
            && (d.fraction == "" <==> e7 % E7 == 0)
  {
    hide NatToString, DigitsValue, FractionValue, StripZeros, PadStart;
    var abs: nat := if e7 < 0 then -e7 else e7;
    var whole, frac := abs / E7, abs % E7;
    DigitsOfNat(whole);
    FractionIsExact(frac);
    assert abs as real == whole as real * 10000000.0 + frac as real;
  }

  lemma FractionIsExact(frac: nat)
    requires frac < E7
    ensures var s := if frac == 0 then "" else StripZeros(PadStart(NatToString(frac), 7));
            && AllDigits(s) && FractionValue(s) == frac as real / 10000000.0
            && (frac != 0 ==> s != "" && s[|s| - 1] != '0')
  {
    hide NatToString, Pow10, DigitsValue, StripZeros, PadStart;
    SevenDigits();
    NoDigits();
    if frac == 0 {
    } else {
      var digits := NatToString(frac);
      DigitsOfNat(frac);
      NatLength(frac, 7);
      PadKeeps(digits, 7);
      var padded := PadStart(digits, 7);
      StripKeeps(padded);
      var s := StripZeros(padded);
      SameRatio(DigitsValue(s), Pow10(|s|), Pow10(7 - |s|));
    }
  }

  lemma NoDigits()
    ensures DigitsValue("") == 0
  {
  }

  lemma SevenDigits()
    ensures Pow10(7) == E7
  {
    assert Pow10(3) == 1000;
  }

  // ------------------------------------------------------------------- as short

  lemma {:induction false} PowSplit(k: nat, m: nat)
    requires m < k
    ensures Pow10(k) == Pow10(m) * (10 * Pow10(k - m - 1))
  {
    if m > 0 {
      PowSplit(k - 1, m - 1);
      Regroup(Pow10(m - 1), 10 * Pow10(k - m - 1));
    }
  }

  lemma Regroup(a: nat, b: nat)
    ensures 10 * (a * b) == (10 * a) * b
  {
  }

  /** The number as a whole count of its last decimal place. */
  lemma Scaled(d: Decimal)
    requires IsDecimal(d) && !d.negative
    ensures DecimalValue(d) * Pow10(|d.fraction|) as real
            == (DigitsValue(d.whole) * Pow10(|d.fraction|) + DigitsValue(d.fraction)) as real
  {
    hide DigitsValue, Pow10;
    var p, w, f := Pow10(|d.fraction|), DigitsValue(d.whole), DigitsValue(d.fraction);
    var q := f as real / p as real;
    assert q * p as real == f as real;
    assert (w * p) as real == w as real * p as real;
    Distribute(w as real, q, p as real);
  }

  lemma Distribute(w: real, q: real, p: real)
    ensures (w + q) * p == w * p + q * p
  {
  }

  /** A decimal with no zero at its end is no longer than any other of its value. */
  lemma NoZeroIsShortest(d: Decimal, other: Decimal)
    requires IsDecimal(d) && IsDecimal(other) && !d.negative && !other.negative
    requires DecimalValue(d) == DecimalValue(other)
    requires d.fraction != "" && d.fraction[|d.fraction| - 1] != '0'
    ensures |other.fraction| >= |d.fraction|
  {
    hide DecimalValue, DigitsValue, Pow10;
    var k := |d.fraction|;
    if |other.fraction| < k {
      Places(d, other);
      var tens, f := DigitsValue(d.whole) * Pow10(k), DigitsValue(d.fraction);
      var c: nat :| tens + f == 10 * c;
      EndsInDigit(d.fraction);
      WholeTens(k, DigitsValue(d.whole));
      NoTens(tens, f, c);
    }
  }

  lemma NoTens(tens: int, f: int, c: int)
    requires tens % 10 == 0 && f % 10 != 0
    ensures tens + f != 10 * c
  {
  }

  /** With fewer places in the other, the count of last places is a multiple of ten. */
  lemma Places(d: Decimal, other: Decimal)
    requires IsDecimal(d) && IsDecimal(other) && !d.negative && !other.negative
    requires DecimalValue(d) == DecimalValue(other)
    requires |other.fraction| < |d.fraction|
    ensures exists c: nat :: DigitsValue(d.whole) * Pow10(|d.fraction|) + DigitsValue(d.fraction) == 10 * c
  {
    hide DecimalValue, DigitsValue, Pow10;
    var k, m := |d.fraction|, |other.fraction|;
    Scaled(d);
    Scaled(other);
    PowSplit(k, m);
    var q := Pow10(k - m - 1);
    var a := DigitsValue(d.whole) * Pow10(k) + DigitsValue(d.fraction);
    var b := DigitsValue(other.whole) * Pow10(m) + DigitsValue(other.fraction);
    EvenTens(DecimalValue(d), a, b, Pow10(k), Pow10(m), q);
  }

  lemma EndsInDigit(s: string)
    requires s != "" && AllDigits(s) && s[|s| - 1] != '0'
    ensures DigitsValue(s) % 10 != 0
  {
    LastDigit(DigitsValue(s[..|s| - 1]), DigitOf(s[|s| - 1]));
  }

  lemma LastDigit(front: nat, digit: nat)
    requires digit < 10
    ensures (10 * front + digit) % 10 == digit
  {
  }

  lemma WholeTens(k: nat, w: nat)
    requires k > 0
    ensures w * Pow10(k) % 10 == 0
  {
    var p := Pow10(k - 1);
    TensOut(w, p);
    assert w * Pow10(k) == 10 * (w * p);
  }

  lemma TensOut(w: nat, p: nat)
    ensures w * (10 * p) == 10 * (w * p)
  {
  }

  lemma EvenTens(v: real, a: nat, b: nat, pk: nat, pm: nat, q: nat)
    requires v * pk as real == a as real && v * pm as real == b as real && pk == pm * (10 * q)
    ensures a == 10 * (b * q)
  {
    assert pk as real == pm as real * (10.0 * q as real);
    assert (b * q) as real == b as real * q as real;
    Move(v, pm as real, q as real, b as real);
  }

  lemma Move(v: real, pm: real, q: real, b: real)
    requires v * pm == b
    ensures v * (pm * (10.0 * q)) == 10.0 * (b * q)
  {
  }

  /** A decimal of at most seven places is a whole number of ten-millionths. */
  lemma WholeE7(d: Decimal) returns (whole: int)
    requires IsDecimal(d) && |d.fraction| <= 7
    ensures DecimalValue(d) * 10000000.0 == whole as real
  {
    var abs := d.(negative := false);
    Scaled(abs);
    hide DigitsValue, Pow10, FractionValue;
    var m := |d.fraction|;
    var n := DigitsValue(d.whole) * Pow10(m) + DigitsValue(d.fraction);
    SevenDigits();
    PowParts(m);
    Enlarge(DecimalValue(abs), n, Pow10(m), Pow10(7 - m));
    whole := n * Pow10(7 - m);
    assert DecimalValue(abs) * 10000000.0 == whole as real;
    if d.negative { whole := -whole; }
  }

  lemma PowParts(m: nat)
    requires m <= 7
    ensures Pow10(7) == Pow10(m) * Pow10(7 - m)
  {
    if m < 7 {
      PowSplit(7, m);
    } else {
      assert Pow10(0) == 1;
    }
  }

  lemma Enlarge(v: real, n: int, p: nat, q: nat)
    requires v * p as real == n as real
    ensures v * (p * q) as real == (n * q) as real
  {
    assert (p * q) as real == p as real * q as real && (n * q) as real == n as real * q as real;
    Associate(v, p as real, q as real);
  }

  lemma Associate(v: real, p: real, q: real)
    ensures v * (p * q) == v * p * q
  {
  }

  /** Fewer than eight places leave degToE7 nothing to round. */
  lemma NothingToRound(d: Decimal)
    requires IsDecimal(d) && |d.fraction| <= 7
    ensures DecimalValue(d) * 10000000.0 == DegToE7(DecimalValue(d)) as real
  {
    hide DecimalValue;
    var n := WholeE7(d);
    RoundInt(n);
  }

  lemma AtMostSevenPlaces(e7: int)
    ensures |E7Decimal(e7).fraction| <= 7
  {
    hide NatToString, StripZeros;
    var abs: nat := if e7 < 0 then -e7 else e7;
    var frac := abs % E7;
    SevenDigits();
    NatLength(frac, 7);
  }

  lemma SignsAgree(d: Decimal, other: Decimal)
    requires IsDecimal(d) && IsDecimal(other) && DecimalValue(d) == DecimalValue(other) != 0.0
    ensures d.negative == other.negative
    ensures DecimalValue(d.(negative := false)) == DecimalValue(other.(negative := false))
  {
    NotNegative(d);
    NotNegative(other);
  }

  lemma NotNegative(d: Decimal)
    requires IsDecimal(d)
    ensures DecimalValue(d.(negative := false)) >= 0.0
    ensures DecimalValue(d)
            == if d.negative then -DecimalValue(d.(negative := false)) else DecimalValue(d.(negative := false))
  {
    hide DigitsValue, Pow10;
    FractionNotNegative(DigitsValue(d.fraction), Pow10(|d.fraction|));
  }

  lemma FractionNotNegative(a: nat, b: nat)
    requires b > 0
    ensures a as real / b as real >= 0.0
  {
    var q := a as real / b as real;
    assert q * b as real == a as real;
    if q < 0.0 { Negative(q, b as real); }
  }

  lemma Negative(q: real, b: real)
    requires q < 0.0 && b > 0.0
    ensures q * b < 0.0
  {
  }

  /** The string of e7ToDegString is a shortest decimal that degToE7 maps back: no
      decimal of either sign that it maps to e7 has fewer places. */
  lemma ShortestForE7(e7: int, other: Decimal)
    requires IsDecimal(other)
    ensures DegToE7(DecimalValue(other)) == e7 ==> |other.fraction| >= |E7Decimal(e7).fraction|
  {
    hide DecimalValue, E7Decimal, DegToE7;
    var d := E7Decimal(e7);
    AtMostSevenPlaces(e7);
    ValueIsExact(e7);
    if DegToE7(DecimalValue(other)) == e7 && |other.fraction| < 7 && d.fraction != "" {
      NothingToRound(other);
      assert DecimalValue(other) == DecimalValue(d);
      SignsAgree(d, other);
      NoZeroIsShortest(d.(negative := false), other.(negative := false));
    }
  }
}
