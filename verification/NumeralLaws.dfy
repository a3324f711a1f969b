/** What the numbers are that are read out of a text. */
module NumeralLaws {
  import opened CStrings
  import opened Numbers
  import opened Numerals

  // ---------- signs ----------

  /** A numeral with a minus in front of it has the opposite value, and one without
      is not negative. */
  lemma SignOfNumeral(n: Numeral)
    requires n.Valid()
    ensures n.Value() + n.(negative := !n.negative).Value() == 0.0
    ensures !n.negative ==> n.Value() >= 0.0
    ensures !n.negative ==> (n.Value() > 0.0 <==> exists c :: c in n.whole + n.fraction && c != '0')
  {
    hide RunValue, FractionValue;
    AllDigitsAreDigits(n.whole);
    AllDigitsAreDigits(n.fraction);
    RunIsZeroIff(n.whole, 0, |n.whole|);
    FractionIsZeroIff(n.fraction, 0, |n.fraction|);
    if !Zeros(n.whole, 0, |n.whole|) {
      var k :| 0 <= k < |n.whole| && n.whole[k] != '0';
      assert n.whole[k] in n.whole + n.fraction;
    } else if !Zeros(n.fraction, 0, |n.fraction|) {
      var k :| 0 <= k < |n.fraction| && n.fraction[k] != '0';
      assert n.fraction[k] in n.whole + n.fraction;
    }
  }

  lemma AllDigitsAreDigits(s: string)
    requires AllDigits(s)
    ensures AreDigits(s, 0, |s|)
  {
    forall k | 0 <= k < |s|
      ensures IsDigit(s[k])
    {
      DigitsAreDigits(s, 0, k);
    }
  }

  /** A minus in front of a number negates what is read, a plus does not, and space
      is skipped. */
  lemma SignIsRead(s: string, i: nat)
    requires i < |s|
    ensures s[i] in " \t\n\r\U{0B}\U{0C}" ==> ScanNumber(s, i) == ScanNumber(s, i + 1)
    ensures s[i] in "+-" && (i + 1 < |s| ==> !IsSpace(s[i + 1]) && s[i + 1] !in "+-") ==>
              ScanNumber(s, i) == if s[i] == '-' then Negated(ScanNumber(s, i + 1)) else ScanNumber(s, i + 1)
  {
    hide ScanHex, ScanDecimal, IsHex, SpellsInfinity, SpellsNaN;
  }

  /** The same for timestamps. */
  lemma SignOfTimestamp(s: string, i: nat)
    requires i < |s|
    ensures s[i] in " \t\n\r\U{0B}\U{0C}" ==> ScanTimestamp(s, i) == ScanTimestamp(s, i + 1)
    ensures s[i] in "+-" && (i + 1 < |s| ==> !IsSpace(s[i + 1]) && s[i + 1] !in "+-") ==>
              ScanTimestamp(s, i) == if s[i] == '-' then -ScanTimestamp(s, i + 1) else ScanTimestamp(s, i + 1)
  {
    hide RunValue, DigitRun;
  }

  // ---------- points and exponents ----------

  /** A shift multiplies by a power of ten, or divides by it. */
  lemma {:induction false} ShiftIsPower(v: real, k: nat)
    ensures Shifted(v, k) == v * Pow10(k) as real
    ensures Shifted(v, 0 - k) * Pow10(k) as real == v
    decreases k
  {
    if k > 0 {
      ShiftIsPower(v, k - 1);
      TenTimes(v, Pow10(k - 1) as real);
      TenTimes(Shifted(v, 0 - k), Pow10(k - 1) as real);
    }
  }

  lemma TenTimes(x: real, y: real)
    ensures x * (10.0 * y) == 10.0 * (x * y) == (10.0 * x) * y
  {
  }

  /** The digits after a point are worth as much as if there were no point, divided
      by a power of ten. */
  lemma PointDivides(n: Numeral)
    requires n.Valid() && !n.negative
    ensures n.Value() * Pow10(|n.fraction|) as real == DigitsValue(n.whole + n.fraction) as real
  {
    hide DigitRun, RunValue, FractionValue, Shifted;
    PartsJoin(n.whole, n.fraction);
    ShiftIsPower(n.Value(), |n.fraction|);
  }

  lemma PartsJoin(whole: string, fraction: string)
    ensures Shifted(DigitsValue(whole) as real + FractionValue(fraction, 0, |fraction|), |fraction|)
            == DigitsValue(whole + fraction) as real
  {
    hide RunValue, FractionValue, Shifted;
    var s, w, e := whole + fraction, |whole|, |whole| + |fraction|;
    assert s[0..w] == whole && s[w..e] == fraction;
    RunValueMoves(s, 0, whole, w);
    RunValueMoves(s, w, fraction, |fraction|);
    RunValueSplits(s, 0, w, e);
    FractionIsRun(fraction, 0);
    ShiftSum(DigitsValue(whole) as real, FractionValue(fraction, 0, |fraction|), |fraction|);
  }

  lemma {:induction false} FractionIsRun(t: string, a: nat)
    requires a <= |t|
    ensures Shifted(FractionValue(t, a, |t|), |t| - a) == RunValue(t, a, |t|) as real
    decreases |t| - a
  {
    if a < |t| {
      FractionIsRun(t, a + 1);
      var d, f, k := DigitValue(t[a]) as real, FractionValue(t, a + 1, |t|), |t| - a;
      RunValueSplits(t, a, a + 1, |t|);
      assert RunValue(t, a, a + 1) == DigitValue(t[a]);
      hide RunValue, FractionValue;
      ShiftTwice(FractionValue(t, a, |t|), 1, k - 1);
      assert Shifted(FractionValue(t, a, |t|), 1) == d + f by {
        TenTimesFraction(t, a);
      }
      ShiftSum(d, f, k - 1);
    }
  }

  lemma TenTimesFraction(t: string, a: nat)
    requires a < |t|
    ensures Shifted(FractionValue(t, a, |t|), 1) == DigitValue(t[a]) as real + FractionValue(t, a + 1, |t|)
  {
    assert Shifted(FractionValue(t, a, |t|), 0) == FractionValue(t, a, |t|);
  }

  /** An exponent behind a numeral shifts its value by that many places. */
  lemma ExponentShifts(s: string, i: nat, n: Numeral, mark: char, sign: string, k: nat)
    requires n.Valid() && (mark == 'e' || mark == 'E') && (sign == "" || sign == "+" || sign == "-")
    requires MatchesAt(s, i, n.Text()) && MatchesAt(s, i + |n.Text()|, [mark] + sign + Decimal(k))
    requires var end := i + |n.Text()| + 1 + |sign| + |Decimal(k)|; end < |s| ==> !IsDigit(s[end])
    ensures ScanNumber(s, i) == Finite(Shifted(n.Value(), if sign == "-" then 0 - k else k))
  {
    hide Numeral.Text, Numeral.Value, Layout, Decimal, Shifted, Exponent, ScanNumber;
    var a, b, c, e := NumeralLayout(s, i, n);
    MatchChar(s, e, [mark] + sign + Decimal(k), 0);
    ExponentIsRead(s, e, mark, sign, k);
    ShiftedAtLayout(s, i, n, a, b, c, e);
  }

  lemma ShiftedAtLayout(s: string, i: nat, n: Numeral, a: nat, b: nat, c: nat, e: nat)
    requires i <= |s| && n.Valid() && Layout(s, i, n, a, b, c, e) && e < |s| && (s[e] == 'e' || s[e] == 'E')
    ensures ScanNumber(s, i) == Finite(Shifted(n.Value(), Exponent(s, e, "eE")))
  {
    hide Numeral.Text, Numeral.Value, Layout, Shifted, ScanDecimal, BecomesHex, IsHex, Exponent, ScanNumber;
    hide SpellsInfinity, SpellsNaN, RunValue, FractionValue;
    NumeralIsNoWord(s, i, n, a, b, c, e);
    HexIff(s, i, n, a, b, c, e);
    MarkIsNoHex(n, s, e);
    LayoutOrder(s, i, n, a, b, c, e);
    DecimalWithExponent(s, i, n, a, b, c, e);
    ScanWithSign(s, i, n, a, b, c, e);
    SignedValue(n);
    ShiftNegated(DigitsValue(n.whole) as real + FractionValue(n.fraction, 0, |n.fraction|), Exponent(s, e, "eE"));
  }

  lemma SignedValue(n: Numeral)
    ensures var v := DigitsValue(n.whole) as real + FractionValue(n.fraction, 0, |n.fraction|);
      n.Value() == if n.negative then -v else v
  {
  }

  lemma ScanWithSign(s: string, i: nat, n: Numeral, a: nat, b: nat, c: nat, e: nat)
    requires i <= |s| && n.Valid() && Layout(s, i, n, a, b, c, e)
    requires a <= |s| && !IsHex(s, a) && !SpellsInfinity(s, a) && !SpellsNaN(s, a)
    ensures ScanNumber(s, i) == Finite(if n.negative then -ScanDecimal(s, a) else ScanDecimal(s, a))
  {
    hide ScanDecimal, ScanHex, HexDigits, IsHex, SpellsInfinity, SpellsNaN, SkipSpaces, SkipSign;
  }

  lemma MarkIsNoHex(n: Numeral, s: string, e: nat)
    requires e < |s| && (s[e] == 'e' || s[e] == 'E')
    ensures !BecomesHex(n, s, e)
  {
  }

  lemma DecimalWithExponent(s: string, i: nat, n: Numeral, a: nat, b: nat, c: nat, e: nat)
    requires n.Valid() && Layout(s, i, n, a, b, c, e) && e < |s| && (s[e] == 'e' || s[e] == 'E')
    ensures ScanDecimal(s, a) ==
            Shifted(DigitsValue(n.whole) as real + FractionValue(n.fraction, 0, |n.fraction|), Exponent(s, e, "eE"))
  {
    hide Shifted, RunValue, FractionValue, Exponent;
    DigitsOfNumeral(s, i, n, a, b, c, e);
    ValueOfNumeral(s, i, n, a, b, c, e);
    LayoutOrder(s, i, n, a, b, c, e);
    var r := DecimalDigits(s, a);
    assert r.d == e && r.b == b && FractionValue(s, r.c, r.d) == FractionValue(s, c, e) by {
      assert DigitRun(s, e) == e;
      assert FractionValue(s, e, e) == 0.0 by { NoFraction(s, e); }
    }
  }

  lemma NoFraction(s: string, e: nat)
    requires e <= |s|
    ensures FractionValue(s, e, e) == 0.0
  {
  }

  lemma ExponentIsRead(s: string, e: nat, mark: char, sign: string, k: nat)
    requires (mark == 'e' || mark == 'E') && (sign == "" || sign == "+" || sign == "-")
    requires MatchesAt(s, e, [mark] + sign + Decimal(k))
    requires var end := e + 1 + |sign| + |Decimal(k)|; end < |s| ==> !IsDigit(s[end])
    ensures Exponent(s, e, "eE") == if sign == "-" then 0 - k else k
  {
    var t, a := Decimal(k), e + 1 + |sign|;
    hide Decimal, RunValue;
    MatchSplits(s, e, [mark] + sign, t);
    MatchSplits(s, e, [mark], sign);
    MatchChar(s, e, [mark], 0);
    MatchChar(s, a, t, 0);
    DigitsAreDigits(t, 0, 0);
    if sign != "" {
      MatchChar(s, e + 1, sign, 0);
    }
    DigitRunMoves(s, a, t, 0);
    RunValueMoves(s, a, t, |t|);
  }

  lemma {:induction false} ShiftNegated(v: real, e: int)
    ensures Shifted(-v, e) == -Shifted(v, e)
    decreases if e < 0 then -e else e
  {
    if e > 0 {
      ShiftNegated(v, e - 1);
    } else if e < 0 {
      ShiftNegated(v, e + 1);
    }
  }

  // ---------- other numbers ----------

  /** Hexadecimal digits count sixteen times as much as those to their right, and
      an exponent behind them is one of two. */
  lemma HexIsRead()
    ensures ScanNumber("0x1F", 0) == Finite(31.0)
    ensures ScanNumber("-0Xa.8p1", 0) == Finite(-21.0)
  {
    WholeHex();
    FractionalHex();
  }

  lemma WholeHex()
    ensures ScanNumber("0x1F", 0) == Finite(31.0)
  {
    ThirtyOne();
    hide HexRun, HexValue, HexFraction, HexDigits, Exponent;
    assert ScanHex("0x1F", 2) == 31.0;
  }

  lemma ThirtyOne()
    ensures var s := "0x1F";
      && HexDigits(s, 2) == Digits(2, 4, 4, 4) && HexValue(s, 2, 4) == 31 && HexFraction(s, 4, 4) == 0.0
      && Exponent(s, 4, "pP") == 0
  {
    var s := "0x1F";
    assert HexRun(s, 4) == 4 && HexRun(s, 3) == 4 && HexRun(s, 2) == 4;
    assert HexValue(s, 2, 2) == 0 && HexValue(s, 2, 3) == 1;
  }

  lemma FractionalHex()
    ensures ScanNumber("-0Xa.8p1", 0) == Finite(-21.0)
  {
    TenAndAHalf();
    OneBehindMark();
    hide HexRun, HexValue, HexFraction, HexDigits, DigitRun, RunValue, Exponent;
    assert Doubled(10.5, 0) == 10.5 && Doubled(10.5, 1) == 21.0;
    assert ScanHex("-0Xa.8p1", 3) == 21.0;
  }

  lemma TenAndAHalf()
    ensures var s := "-0Xa.8p1";
      HexDigits(s, 3) == Digits(3, 4, 5, 6) && HexValue(s, 3, 4) == 10 && HexFraction(s, 5, 6) == 0.5
  {
    var s := "-0Xa.8p1";
    assert HexRun(s, 4) == 4 && HexRun(s, 3) == 4 && HexRun(s, 6) == 6 && HexRun(s, 5) == 6;
    assert HexValue(s, 3, 3) == 0 && HexFraction(s, 6, 6) == 0.0;
  }

  lemma OneBehindMark()
    ensures Exponent("-0Xa.8p1", 6, "pP") == 1
  {
    var s := "-0Xa.8p1";
    assert DigitRun(s, 8) == 8 && DigitRun(s, 7) == 8 && RunValue(s, 7, 7) == 0 && RunValue(s, 7, 8) == 1;
  }

  /** The words for values that are no real numbers. */
  lemma WordsAreRead()
    ensures ScanNumber("-inf", 0) == Infinite(true) && ScanNumber("Infinity", 0) == Infinite(false)
    ensures ScanNumber("NaN", 0) == NaN
  {
  }

  // ---------- ranges ----------

  /** A numeral with no more than 308 digits before the point does not overflow. */
  lemma RangeOfNumeral(n: Numeral)
    requires n.Valid() && |n.whole| <= 308
    ensures !Overflows(n.Value())
  {
    hide RunValue, FractionValue, Overflows;
    AllDigitsAreDigits(n.whole);
    AllDigitsAreDigits(n.fraction);
    RunIsZeroIff(n.whole, 0, |n.whole|);
    FractionIsZeroIff(n.fraction, 0, |n.fraction|);
    PowersGrow(|n.whole|, 308);
    GreatPowers();
    InRange(n.Value());
  }

  /** One with more than 309 that does not start with a zero does. */
  lemma LongNumeralsOverflow(n: Numeral)
    requires n.Valid() && |n.whole| > 309 && n.whole[0] != '0'
    ensures Overflows(n.Value())
  {
    hide FractionValue, Overflows;
    AllDigitsAreDigits(n.whole);
    AllDigitsAreDigits(n.fraction);
    LeadingDigit(n.whole, |n.whole|);
    FractionIsZeroIff(n.fraction, 0, |n.fraction|);
    hide RunValue;
    PowersGrow(309, |n.whole| - 1);
    GreatPowers();
    OutOfRange(n.Value());
  }

  lemma {:induction false} LeadingDigit(s: string, k: nat)
    requires AreDigits(s, 0, k) && k > 0 && s[0] != '0'
    ensures RunValue(s, 0, k) >= Pow10(k - 1)
    decreases k
  {
    if k > 1 {
      LeadingDigit(s, k - 1);
    }
  }

  lemma {:induction false} PowersGrow(m: nat, n: nat)
    requires m <= n
    ensures Pow10(m) <= Pow10(n)
    decreases n
  {
    if m < n {
      PowersGrow(m, n - 1);
    }
  }

  lemma InRange(r: real)
    requires -GREAT <= r <= GREAT
    ensures !Overflows(r)
  {
  }

  lemma OutOfRange(r: real)
    requires r >= 10.0 * GREAT || r <= -10.0 * GREAT
    ensures Overflows(r)
  {
  }

  /** What isnormal takes for a number: not zero nor anything that is closer to it
      than ten to the power of -308, and neither an infinity nor NaN; but any other
      that is not closer than ten to the power of -307. */
  lemma NormalNumbers(n: Number)
    ensures IsNormal(n) ==> n.Finite? && n.r != 0.0 && (n.r * GREAT >= 1.0 || n.r * GREAT <= -1.0)
    ensures n.Finite? && (n.r * GREAT >= 10.0 || n.r * GREAT <= -10.0) ==> IsNormal(n)
  {
    assert 1.0 <= LEAST_NORMAL * GREAT <= 10.0;
  }

  const TEN_TO_77: nat := 100000000000000000000000000000000000000000000000000000000000000000000000000000

  /** Ten to the power of 308. */
  const GREAT := (TEN_TO_77 * TEN_TO_77 * TEN_TO_77 * TEN_TO_77) as real

  lemma GreatPowers()
    ensures Pow10(308) as real == GREAT && Pow10(309) as real == 10.0 * GREAT
  {
    TenTo77();
    hide Pow10;
    PowersMultiply(77, 77);
    PowersMultiply(154, 77);
    PowersMultiply(231, 77);
    PowersMultiply(308, 1);
    OnePower();
  }

  lemma OnePower()
    ensures Pow10(1) == 10
  {
  }

  lemma {:induction false} PowersMultiply(m: nat, n: nat)
    ensures Pow10(m + n) == Pow10(m) * Pow10(n)
    decreases n
  {
    if n > 0 {
      PowersMultiply(m, n - 1);
    }
  }

  lemma TenTo77()
    ensures Pow10(77) == TEN_TO_77
  {
    TenTo11();
    hide Pow10;
    PowersMultiply(11, 11);
    PowersMultiply(22, 11);
    PowersMultiply(33, 11);
    PowersMultiply(44, 11);
    PowersMultiply(55, 11);
    PowersMultiply(66, 11);
  }

  lemma TenTo11()
    ensures Pow10(11) == 100000000000
  {
    assert Pow10(4) == 10000;
    assert Pow10(8) == 10000 * Pow10(4);
  }
}
