/** Reading numbers out of text, as strtod and sscanf("%tu") do, and the decimal
    rendering of numbers that they undo. */
module Numerals {
  import opened CStrings
  import opened Numbers

  predicate IsDigit(c: char) { '0' <= c <= '9' }

  predicate IsSpace(c: char) { c == ' ' || '\t' <= c <= '\r' }

  function DigitValue(c: char): int { c as int - '0' as int }

  function DigitOf(d: nat): (c: char)
    requires d < 10
    ensures IsDigit(c) && DigitValue(c) == d
  {
    '0' + d as char
  }

  function Pow10(n: nat): (r: nat)
    ensures r > 0
  {
    if n == 0 then 1 else 10 * Pow10(n - 1)
  }

  // ---------- runs of digits ----------

  /** The end of the longest run of digits that starts at i. */
  function DigitRun(s: string, i: nat): (j: nat)
    requires i <= |s|
    ensures i <= j <= |s|
    decreases |s| - i
  {
    if i < |s| && IsDigit(s[i]) then DigitRun(s, i + 1) else i
  }

  predicate AllDigits(s: string) { DigitRun(s, 0) == |s| }

  /** The number that the digits s[a..b] denote, most significant digit first. */
  function RunValue(s: string, a: nat, b: nat): int
    requires a <= b <= |s|
  {
    if a == b then 0 else 10 * RunValue(s, a, b - 1) + DigitValue(s[b - 1])
  }

  /** The digits s[a..b] after a point: each is worth a tenth of the one before. */
  function FractionValue(s: string, a: nat, b: nat): real
    requires a <= b <= |s|
    decreases b - a
  {
    if a == b then 0.0 else (DigitValue(s[a]) as real + FractionValue(s, a + 1, b)) / 10.0
  }

  function DigitsValue(s: string): int { RunValue(s, 0, |s|) }

  lemma MatchChar(s: string, i: nat, t: string, k: nat)
    requires MatchesAt(s, i, t) && k < |t|
    ensures s[i + k] == t[k]
  {
    assert s[i..i + |t|][k] == s[i + k];
  }

  /** A run of digits that is copied into a text runs as far as before, and then
      on as far as the text goes on with digits. */
  lemma {:induction false} DigitRunMoves(s: string, i: nat, t: string, k: nat)
    requires MatchesAt(s, i, t) && k <= |t| && DigitRun(t, k) == |t|
    ensures DigitRun(s, i + k) == DigitRun(s, i + |t|)
    decreases |t| - k
  {
    if k < |t| {
      MatchChar(s, i, t, k);
      DigitRunMoves(s, i, t, k + 1);
    }
  }

  lemma {:induction false} RunValueMoves(s: string, i: nat, t: string, b: nat)
    requires MatchesAt(s, i, t) && b <= |t|
    ensures RunValue(s, i, i + b) == RunValue(t, 0, b)
    decreases b
  {
    if b > 0 {
      MatchChar(s, i, t, b - 1);
      RunValueMoves(s, i, t, b - 1);
    }
  }

  lemma {:induction false} FractionValueMoves(s: string, i: nat, t: string, a: nat)
    requires MatchesAt(s, i, t) && a <= |t|
    ensures FractionValue(s, i + a, i + |t|) == FractionValue(t, a, |t|)
    decreases |t| - a
  {
    if a < |t| {
      MatchChar(s, i, t, a);
      FractionValueMoves(s, i, t, a + 1);
    }
  }

  lemma {:induction false} DigitsAreDigits(s: string, k: nat, i: nat)
    requires k <= i < |s| && DigitRun(s, k) == |s|
    ensures IsDigit(s[i])
    decreases i - k
  {
    if k < i {
      DigitsAreDigits(s, k + 1, i);
    }
  }

  /** One more digit at the end. */
  lemma LastDigit(s: string, c: char)
    ensures DigitsValue(s + [c]) == 10 * DigitsValue(s) + DigitValue(c)
    ensures AllDigits(s) && IsDigit(c) ==> AllDigits(s + [c])
  {
    assert (s + [c])[0..|s|] == s;
    RunValueMoves(s + [c], 0, s, |s|);
    if AllDigits(s) {
      DigitRunMoves(s + [c], 0, s, 0);
    }
  }

  /** n printed with exactly `width` digits, as "%0*d" does. */
  function Padded(n: nat, width: nat): (s: string)
    requires n < Pow10(width)
    ensures |s| == width && AllDigits(s) && DigitsValue(s) == n
  {
    if width == 0 then ""
    else
      LastDigit(Padded(n / 10, width - 1), DigitOf(n % 10));
      Padded(n / 10, width - 1) + [DigitOf(n % 10)]
  }

  /** n printed with as many digits as it needs. */
  function Decimal(n: nat): (s: string)
    ensures s != "" && AllDigits(s) && DigitsValue(s) == n
  {
    if n < 10 then
      LastDigit("", DigitOf(n));
      "" + [DigitOf(n)]
    else
      LastDigit(Decimal(n / 10), DigitOf(n % 10));
      Decimal(n / 10) + [DigitOf(n % 10)]
  }

  /** Padded numbers of one width are ordered as strings as they are as numbers. */
  lemma {:induction false} PaddedOrder(m: nat, n: nat, width: nat)
    requires m < Pow10(width) && n < Pow10(width)
    ensures Before(Padded(m, width), Padded(n, width)) <==> m < n
    ensures Padded(m, width) == Padded(n, width) <==> m == n
    decreases width
  {
    if width > 0 {
      PaddedOrder(m / 10, n / 10, width - 1);
      BeforeOnLastChar(Padded(m / 10, width - 1), DigitOf(m % 10), Padded(n / 10, width - 1), DigitOf(n % 10));
    }
  }

  // ---------- shifting the point ----------

  /** v times ten to the power of e. */
  function Shifted(v: real, e: int): real
    decreases if e < 0 then -e else e
  {
    if e == 0 then v else if e > 0 then 10.0 * Shifted(v, e - 1) else Shifted(v, e + 1) / 10.0
  }

  /** v times two to the power of e. */
  function Doubled(v: real, e: int): (r: real)
    ensures r == 0.0 <==> v == 0.0
    decreases if e < 0 then -e else e
  {
    if e == 0 then v else if e > 0 then 2.0 * Doubled(v, e - 1) else Doubled(v, e + 1) / 2.0
  }

  lemma {:induction false} ShiftSum(x: real, y: real, e: int)
    ensures Shifted(x + y, e) == Shifted(x, e) + Shifted(y, e)
    decreases if e < 0 then -e else e
  {
    if e > 0 {
      ShiftSum(x, y, e - 1);
    } else if e < 0 {
      ShiftSum(x, y, e + 1);
    }
  }

  lemma {:induction false} ShiftOrder(x: real, y: real, e: int)
    ensures x < y <==> Shifted(x, e) < Shifted(y, e)
    ensures Shifted(0.0, e) == 0.0
    decreases if e < 0 then -e else e
  {
    if e > 0 {
      ShiftOrder(x, y, e - 1);
    } else if e < 0 {
      ShiftOrder(x, y, e + 1);
    }
  }

  lemma {:induction false} ShiftTwice(v: real, j: int, k: int)
    ensures Shifted(Shifted(v, j), k) == Shifted(v, j + k)
    decreases if k < 0 then -k else k
  {
    if k > 0 {
      ShiftTwice(v, j, k - 1);
      ShiftOnce(v, j + k - 1);
    } else if k < 0 {
      ShiftTwice(v, j, k + 1);
      ShiftOnce(v, j + k);
    }
  }

  lemma ShiftOnce(v: real, e: int)
    ensures Shifted(v, e + 1) == 10.0 * Shifted(v, e)
  {
  }

  /** A shift makes a value at least ten times as large, or at most a tenth. */
  lemma {:induction false} ShiftJumps(v: real, e: int)
    requires v >= 0.0
    ensures Shifted(v, e) >= 0.0
    ensures e == 0 ==> Shifted(v, e) == v
    ensures e > 0 ==> Shifted(v, e) >= 10.0 * v
    ensures e < 0 ==> 10.0 * Shifted(v, e) <= v
    decreases if e < 0 then -e else e
  {
    if e > 0 {
      ShiftJumps(v, e - 1);
    } else if e < 0 {
      ShiftJumps(v, e + 1);
    }
  }

  // ---------- strtod and sscanf ----------

  function SkipSpaces(s: string, i: nat): (j: nat)
    requires i <= |s|
    ensures i <= j <= |s|
    decreases |s| - i
  {
    if i < |s| && IsSpace(s[i]) then SkipSpaces(s, i + 1) else i
  }

  function SkipSign(s: string, i: nat): (j: nat)
    requires i <= |s|
    ensures i <= j <= |s|
  {
    if i < |s| && (s[i] == '-' || s[i] == '+') then i + 1 else i
  }

  function Signed(negative: bool, r: real): real { if negative then -r else r }

  /** Where the digits of a number lie: from a to b, and from c to d after a
      point. */
  datatype Digits = Digits(a: nat, b: nat, c: nat, d: nat)

  /** The digits of the decimal number at a. */
  function DecimalDigits(s: string, a: nat): (r: Digits)
    requires a <= |s|
    ensures a == r.a <= r.b <= r.c <= r.d <= |s|
  {
    var b := DigitRun(s, a);
    var c := if b < |s| && s[b] == '.' then b + 1 else b;
    Digits(a, b, c, if b < c then DigitRun(s, c) else c)
  }

  /** The value of the digits s[a..b] before and s[c..d] after a point. */
  function DecimalValue(s: string, r: Digits): real
    requires r.a <= r.b <= |s| && r.c <= r.d <= |s|
  {
    RunValue(s, r.a, r.b) as real + FractionValue(s, r.c, r.d)
  }

  /** The exponent at d: a mark, a sign, and at least one digit; or else zero. */
  function Exponent(s: string, d: nat, marks: string): int
    requires d <= |s|
  {
    if d == |s| || s[d] !in marks then 0
    else
      var a := SkipSign(s, d + 1);
      var n := RunValue(s, a, DigitRun(s, a));
      if a > d + 1 && s[d + 1] == '-' then -n else n
  }

  predicate IsHexDigit(c: char) { IsDigit(c) || 'a' <= c <= 'f' || 'A' <= c <= 'F' }

  function HexDigitValue(c: char): (r: nat)
    requires IsHexDigit(c)
  {
    if IsDigit(c) then c as int - '0' as int
    else if 'a' <= c then c as int - 'a' as int + 10
    else c as int - 'A' as int + 10
  }

  function HexRun(s: string, i: nat): (j: nat)
    requires i <= |s|
    ensures i <= j <= |s| && forall k :: i <= k < j ==> IsHexDigit(s[k])
    decreases |s| - i
  {
    if i < |s| && IsHexDigit(s[i]) then HexRun(s, i + 1) else i
  }

  /** The digits of the hexadecimal number whose prefix ends at a. */
  function HexDigits(s: string, a: nat): (r: Digits)
    requires a <= |s|
    ensures a == r.a <= r.b <= r.c <= r.d <= |s|
    ensures forall k :: r.a <= k < r.b || r.c <= k < r.d ==> IsHexDigit(s[k])
  {
    var b := HexRun(s, a);
    var c := if b < |s| && s[b] == '.' then b + 1 else b;
    Digits(a, b, c, if b < c then HexRun(s, c) else c)
  }

  function HexValue(s: string, a: nat, b: nat): (r: nat)
    requires a <= b <= |s| && forall k :: a <= k < b ==> IsHexDigit(s[k])
  {
    if a == b then 0 else 16 * HexValue(s, a, b - 1) + HexDigitValue(s[b - 1])
  }

  function HexFraction(s: string, a: nat, b: nat): (r: real)
    requires a <= b <= |s| && forall k :: a <= k < b ==> IsHexDigit(s[k])
    ensures r >= 0.0
    decreases b - a
  {
    if a == b then 0.0 else (HexDigitValue(s[a]) as real + HexFraction(s, a + 1, b)) / 16.0
  }

  /** A hexadecimal number: 0x, and at least one digit. */
  predicate IsHex(s: string, a: nat)
    requires a <= |s|
  {
    && a + 2 <= |s| && s[a] == '0' && (s[a + 1] == 'x' || s[a + 1] == 'X')
    && var r := HexDigits(s, a + 2); r.b - r.a + r.d - r.c > 0
  }

  predicate SpellsInfinity(s: string, a: nat) {
    a + 3 <= |s| && s[a] in "iI" && s[a + 1] in "nN" && s[a + 2] in "fF"
  }

  predicate SpellsNaN(s: string, a: nat) {
    a + 3 <= |s| && s[a] in "nN" && s[a + 1] in "aA" && s[a + 2] in "nN"
  }

  /** strtod(s + i): spaces, a sign, and then a word for a value that is not finite,
      a hexadecimal number with its binary exponent, or a decimal number with its
      decimal one. Without a single digit nothing is read, which yields zero. */
  function ScanNumber(s: string, i: nat): Number
    requires i <= |s|
  {
    var sign := SkipSpaces(s, i);
    var a := SkipSign(s, sign);
    var negative := a > sign && s[sign] == '-';
    if SpellsInfinity(s, a) then Infinite(negative)
    else if SpellsNaN(s, a) then NaN
    else Finite(Signed(negative, if IsHex(s, a) then ScanHex(s, a + 2) else ScanDecimal(s, a)))
  }

  function ScanHex(s: string, a: nat): real
    requires a <= |s|
  {
    var r := HexDigits(s, a);
    Doubled(HexValue(s, r.a, r.b) as real + HexFraction(s, r.c, r.d), Exponent(s, r.d, "pP"))
  }

  function ScanDecimal(s: string, a: nat): real
    requires a <= |s|
  {
    var r := DecimalDigits(s, a);
    if r.b - r.a + r.d - r.c == 0 then 0.0
    else Shifted(DecimalValue(s, r), Exponent(s, r.d, "eE"))
  }

  // ---------- numbers that are zero ----------

  predicate Zeros(s: string, a: nat, b: nat)
    requires a <= b <= |s|
  {
    forall k :: a <= k < b ==> s[k] == '0'
  }

  /** All digits of the number at i are zeros; there may be none, but no word for
      another value. */
  predicate ScansZeros(s: string, i: nat)
    requires i <= |s|
  {
    var a := SkipSign(s, SkipSpaces(s, i));
    && !SpellsInfinity(s, a) && !SpellsNaN(s, a)
    && var r := if IsHex(s, a) then HexDigits(s, a + 2) else DecimalDigits(s, a);
    Zeros(s, r.a, r.b) && Zeros(s, r.c, r.d)
  }

  lemma {:induction false} DigitsInRun(s: string, i: nat, k: nat)
    requires i <= |s| && i <= k < DigitRun(s, i)
    ensures IsDigit(s[k])
    decreases k - i
  {
    if i < k {
      DigitsInRun(s, i + 1, k);
    }
  }

  ghost predicate AreDigits(s: string, a: nat, b: nat) {
    a <= b <= |s| && forall k :: a <= k < b ==> IsDigit(s[k])
  }

  lemma {:induction false} RunIsZeroIff(s: string, a: nat, b: nat)
    requires AreDigits(s, a, b)
    ensures 0 <= RunValue(s, a, b) < Pow10(b - a)
    ensures RunValue(s, a, b) == 0 <==> Zeros(s, a, b)
    decreases b
  {
    if a < b {
      RunIsZeroIff(s, a, b - 1);
    }
  }

  lemma {:induction false} FractionIsZeroIff(s: string, a: nat, b: nat)
    requires AreDigits(s, a, b)
    ensures 0.0 <= FractionValue(s, a, b) < 1.0
    ensures FractionValue(s, a, b) == 0.0 <==> Zeros(s, a, b)
    decreases b - a
  {
    if a < b {
      FractionIsZeroIff(s, a + 1, b);
    }
  }

  lemma {:induction false} HexIsZeroIff(s: string, a: nat, b: nat)
    requires a <= b <= |s| && forall k :: a <= k < b ==> IsHexDigit(s[k])
    ensures HexValue(s, a, b) == 0 <==> Zeros(s, a, b)
    decreases b
  {
    if a < b {
      HexIsZeroIff(s, a, b - 1);
    }
  }

  lemma {:induction false} HexFractionIsZeroIff(s: string, a: nat, b: nat)
    requires a <= b <= |s| && forall k :: a <= k < b ==> IsHexDigit(s[k])
    ensures HexFraction(s, a, b) == 0.0 <==> Zeros(s, a, b)
    decreases b - a
  {
    if a < b {
      HexFractionIsZeroIff(s, a + 1, b);
    }
  }

  lemma DecimalDigitsAreDigits(s: string, a: nat)
    requires a <= |s|
    ensures var r := DecimalDigits(s, a); AreDigits(s, r.a, r.b) && AreDigits(s, r.c, r.d)
  {
    var r := DecimalDigits(s, a);
    forall k | r.a <= k < r.b
      ensures IsDigit(s[k])
    {
      DigitsInRun(s, r.a, k);
    }
    forall k | r.c <= k < r.d
      ensures IsDigit(s[k])
    {
      DigitsInRun(s, r.c, k);
    }
  }

  lemma HexIsZero(s: string, a: nat)
    requires a <= |s|
    ensures var r := HexDigits(s, a); ScanHex(s, a) == 0.0 <==> Zeros(s, r.a, r.b) && Zeros(s, r.c, r.d)
  {
    hide Doubled, Exponent, HexRun, HexValue, HexFraction;
    var r := HexDigits(s, a);
    HexIsZeroIff(s, r.a, r.b);
    HexFractionIsZeroIff(s, r.c, r.d);
  }

  /** Exactly when a number is read as zero. */
  lemma ScanIsZeroIff(s: string, i: nat)
    requires i <= |s|
    ensures ScanNumber(s, i) == Finite(0.0) <==> ScansZeros(s, i)
  {
    hide ScanHex, HexDigits, IsHex, SkipSpaces, SkipSign, SpellsInfinity, SpellsNaN;
    var a := SkipSign(s, SkipSpaces(s, i));
    if IsHex(s, a) {
      assert a + 2 <= |s| by { HexFits(s, a); }
      HexIsZero(s, a + 2);
    } else {
      var r := DecimalDigits(s, a);
      DecimalDigitsAreDigits(s, a);
      RunIsZeroIff(s, r.a, r.b);
      FractionIsZeroIff(s, r.c, r.d);
      ShiftOrder(0.0, DecimalValue(s, r), Exponent(s, r.d, "eE"));
    }
  }

  lemma HexFits(s: string, a: nat)
    requires a <= |s| && IsHex(s, a)
    ensures a + 2 <= |s|
  {
  }

  /** sscanf(s + i, "%tu", &t) with t zero beforehand: no digits leave it zero. */
  function ScanTimestamp(s: string, i: nat): int
    requires i <= |s|
  {
    var sign := SkipSpaces(s, i);
    var a := SkipSign(s, sign);
    var n := RunValue(s, a, DigitRun(s, a));
    if a > sign && s[sign] == '-' then -n else n
  }

  // ---------- numerals ----------

  /** A decimal numeral as it is written: "-12.50" is Numeral(true, "12", true, "50"). */
  datatype Numeral = Numeral(negative: bool, whole: string, point: bool, fraction: string) {
    ghost predicate Valid() {
      AllDigits(whole) && AllDigits(fraction) && |whole| + |fraction| > 0 && (fraction != "" ==> point)
    }

    function Text(): string {
      (if negative then "-" else "") + whole + (if point then "." else "") + fraction
    }

    function Value(): real {
      Signed(negative, DigitsValue(whole) as real + FractionValue(fraction, 0, |fraction|))
    }
  }

  /** A match of a concatenation is a match of each half in its place. */
  lemma MatchSplits(s: string, i: nat, p: string, q: string)
    requires MatchesAt(s, i, p + q)
    ensures MatchesAt(s, i, p) && MatchesAt(s, i + |p|, q)
  {
    var t := s[i..i + |p + q|];
    assert s[i..i + |p|] == t[..|p|] == (p + q)[..|p|] == p;
    assert s[i + |p|..i + |p + q|] == t[|p|..] == (p + q)[|p|..] == q;
  }

  /** Where the parts of a numeral lie when it is written at i: its digits from
      a to b and, after a point, from c to e. */
  ghost predicate Layout(s: string, i: nat, n: Numeral, a: nat, b: nat, c: nat, e: nat) {
    && a == (if n.negative then i + 1 else i) && b == a + |n.whole|
    && c == (if n.point then b + 1 else b) && e == c + |n.fraction| <= |s|
    && SkipSpaces(s, i) == i && SkipSign(s, i) == a
    && MatchesAt(s, a, n.whole) && MatchesAt(s, c, n.fraction)
    && (n.negative ==> s[i] == '-') && (n.point ==> s[b] == '.')
  }

  lemma NumeralParts(s: string, i: nat, n: Numeral, a: nat, b: nat, c: nat)
    requires MatchesAt(s, i, n.Text())
    requires a == (if n.negative then i + 1 else i) && b == a + |n.whole| && c == if n.point then b + 1 else b
    ensures MatchesAt(s, a, n.whole) && MatchesAt(s, c, n.fraction) && c + |n.fraction| == i + |n.Text()|
    ensures (n.negative ==> s[i] == '-') && (n.point ==> s[b] == '.')
  {
    var sign, point := if n.negative then "-" else "", if n.point then "." else "";
    MatchSplits(s, i, sign + n.whole + point, n.fraction);
    MatchSplits(s, i, sign + n.whole, point);
    MatchSplits(s, i, sign, n.whole);
    if n.point {
      MatchChar(s, b, point, 0);
    }
    if n.negative {
      MatchChar(s, i, sign, 0);
    }
  }

  lemma NumeralLayout(s: string, i: nat, n: Numeral) returns (a: nat, b: nat, c: nat, e: nat)
    requires n.Valid() && MatchesAt(s, i, n.Text())
    ensures Layout(s, i, n, a, b, c, e) && i < e == i + |n.Text()|
  {
    hide Numeral.Text;
    a := if n.negative then i + 1 else i;
    b := a + |n.whole|;
    c := if n.point then b + 1 else b;
    e := c + |n.fraction|;
    NumeralParts(s, i, n, a, b, c);
    if !n.negative && n.whole != "" {
      MatchChar(s, a, n.whole, 0);
    }
  }

  // ---------- reading numerals ----------

  /** What follows the numeral n at e makes it a hexadecimal number: n is a bare
      zero, and an x with a digit follows. */
  predicate BecomesHex(n: Numeral, s: string, e: nat)
    requires e <= |s|
  {
    && n.whole == "0" && !n.point && e < |s| && (s[e] == 'x' || s[e] == 'X')
    && var r := HexDigits(s, e + 1); r.b - r.a + r.d - r.c > 0
  }

  /** The digits that a scan of the numeral n adds from what follows it at e. */
  function Added(n: Numeral, s: string, e: nat): (r: Digits)
    requires e <= |s|
    ensures e == r.a <= r.b <= r.c <= r.d <= |s|
  {
    if n.point then Digits(e, e, e, DigitRun(s, e)) else DecimalDigits(s, e)
  }

  /** What follows the numeral n at e leaves its value as it is. All digits that
      are added are zeros; and an exponent makes up for those of them that are
      added before a point, unless the numeral is zero anyway. */
  predicate Harmless(n: Numeral, s: string, e: nat)
    requires e <= |s|
  {
    if BecomesHex(n, s, e) then
      var r := HexDigits(s, e + 1);
      Zeros(s, r.a, r.b) && Zeros(s, r.c, r.d)
    else
      var r := Added(n, s, e);
      && Zeros(s, r.a, r.b) && Zeros(s, r.c, r.d)
      && (n.Value() == 0.0 || Exponent(s, r.d, "eE") == r.a - r.b)
  }

  /** No numeral goes on with this character. */
  predicate EndsNumeral(c: char) { !IsDigit(c) && c !in ".eExX" }

  lemma EndIsHarmless(n: Numeral, s: string, e: nat)
    requires e <= |s| && (e < |s| ==> EndsNumeral(s[e]))
    ensures Harmless(n, s, e)
  {
  }

  /** A value m with something smaller than its unit u added, shifted, is m again
      only if nothing was added, and it is zero or not shifted at all. */
  lemma ShiftIff(m: real, h: real, u: real, j: int)
    requires u > 0.0 && (m == 0.0 || m >= u) && 0.0 <= h < u
    ensures Shifted(m + h, j) == m <==> h == 0.0 && (m == 0.0 || j == 0)
  {
    ShiftJumps(m + h, j);
    ShiftOrder(0.0, m + h, j);
  }

  /** Digits that go on: those of s[a..e] are shifted, and the rest is added. */
  lemma {:induction false} RunValueSplits(s: string, a: nat, e: nat, z: nat)
    requires a <= e <= z <= |s|
    ensures RunValue(s, a, z) as real == Shifted(RunValue(s, a, e) as real, z - e) + RunValue(s, e, z) as real
    decreases z
  {
    if e < z {
      RunValueSplits(s, a, e, z - 1);
    }
  }

  lemma {:induction false} RunIsBelow(s: string, e: nat, z: nat)
    requires AreDigits(s, e, z)
    ensures RunValue(s, e, z) as real + 1.0 <= Shifted(1.0, z - e)
    decreases z
  {
    if e < z {
      RunIsBelow(s, e, z - 1);
    }
  }

  lemma {:induction false} FractionValueSplits(s: string, c: nat, e: nat, d: nat)
    requires c <= e <= d <= |s|
    ensures FractionValue(s, c, d) == FractionValue(s, c, e) + Shifted(FractionValue(s, e, d), c - e)
    decreases e - c
  {
    if c < e {
      FractionValueSplits(s, c + 1, e, d);
    }
  }

  /** A fraction is zero, or at least its last place. */
  lemma {:induction false} FractionUnit(s: string, c: nat, e: nat)
    requires AreDigits(s, c, e)
    ensures FractionValue(s, c, e) == 0.0 || FractionValue(s, c, e) >= Shifted(1.0, c - e)
    decreases e - c
  {
    if c < e {
      FractionUnit(s, c + 1, e);
      FractionIsZeroIff(s, c + 1, e);
      ShiftJumps(1.0, c + 1 - e);
    }
  }

  /** Digits after a point that are continued: w before the point, and s[c..e]
      after it, which the scan takes on to d. */
  lemma PointContinues(w: nat, s: string, c: nat, e: nat, d: nat, j: int)
    requires AreDigits(s, c, d) && c <= e <= d
    ensures var m := w as real + FractionValue(s, c, e);
      Shifted(w as real + FractionValue(s, c, d), j) == m <==> Zeros(s, e, d) && (m == 0.0 || j == 0)
  {
    hide FractionValue, Shifted, Zeros;
    var f, g := FractionValue(s, c, e), FractionValue(s, e, d);
    var h, u := Shifted(g, c - e), Shifted(1.0, c - e);
    FractionValueSplits(s, c, e, d);
    FractionUnit(s, c, e);
    FractionIsZeroIff(s, c, e);
    FractionIsZeroIff(s, e, d);
    ShiftOrder(g, 1.0, c - e);
    ShiftOrder(0.0, g, c - e);
    ShiftOrder(0.0, 1.0, c - e);
    ShiftJumps(1.0, c - e);
    ShiftIff(w as real + f, h, u, j);
    assert w as real + FractionValue(s, c, d) == w as real + f + h;
  }

  /** Whole digits that are continued: those of s[a..e] on to z, and then a
      fraction from c to d. */
  lemma WholeContinues(s: string, a: nat, e: nat, z: nat, c: nat, d: nat, j: int)
    requires AreDigits(s, a, z) && a <= e <= z && AreDigits(s, c, d)
    ensures var m := RunValue(s, a, e) as real;
      Shifted(RunValue(s, a, z) as real + FractionValue(s, c, d), j) == m <==>
        Zeros(s, e, z) && Zeros(s, c, d) && (m == 0.0 || j == e - z)
  {
    hide RunValue, FractionValue, Shifted, Zeros;
    var m, k := RunValue(s, a, e) as real, z - e;
    var r := RunValue(s, e, z) as real + FractionValue(s, c, d);
    var h := Shifted(r, -k);
    RunValueSplits(s, a, e, z);
    RunIsZeroIff(s, a, e);
    RunIsZeroIff(s, e, z);
    RunIsBelow(s, e, z);
    FractionIsZeroIff(s, c, d);
    ShiftBack(m, r, k, j);
    ShiftIff(m, h, 1.0, k + j);
    assert RunValue(s, a, z) as real + FractionValue(s, c, d) == Shifted(m, k) + r;
  }

  /** A remainder behind k more digits, seen as a part of the last one before. */
  lemma ShiftBack(m: real, r: real, k: int, j: int)
    requires 0.0 <= r < Shifted(1.0, k)
    ensures var h := Shifted(r, -k);
      0.0 <= h < 1.0 && (h == 0.0 <==> r == 0.0) && Shifted(Shifted(m, k) + r, j) == Shifted(m + h, k + j)
  {
    ShiftTwice(1.0, k, -k);
    ShiftTwice(r, -k, k);
    var h := Shifted(r, -k);
    ShiftTwice(m + h, k, j);
    assert Shifted(1.0, 0) == 1.0 && Shifted(r, 0) == r;
    hide Shifted;
    ShiftOrder(r, Shifted(1.0, k), -k);
    ShiftOrder(r, 0.0, -k);
    ShiftOrder(0.0, r, -k);
    ShiftSum(m, h, k);
  }

  lemma HexIff(s: string, i: nat, n: Numeral, a: nat, b: nat, c: nat, e: nat)
    requires n.Valid() && Layout(s, i, n, a, b, c, e)
    ensures IsHex(s, a) <==> BecomesHex(n, s, e)
    ensures BecomesHex(n, s, e) ==> e == a + 1 && n.Value() == 0.0
  {
    hide HexDigits;
    if n.whole != "" {
      MatchChar(s, a, n.whole, 0);
      DigitsAreDigits(n.whole, 0, 0);
      if |n.whole| > 1 {
        MatchChar(s, a, n.whole, 1);
        DigitsAreDigits(n.whole, 0, 1);
      } else {
        assert n.whole == [s[a]];
      }
    }
    if n.whole == "0" && !n.point {
      assert RunValue("0", 0, 1) == 0;
    }
  }

  lemma NumeralIsNoWord(s: string, i: nat, n: Numeral, a: nat, b: nat, c: nat, e: nat)
    requires n.Valid() && Layout(s, i, n, a, b, c, e)
    ensures !SpellsInfinity(s, a) && !SpellsNaN(s, a)
  {
    if n.whole != "" {
      MatchChar(s, a, n.whole, 0);
      DigitsAreDigits(n.whole, 0, 0);
    }
  }

  /** Where the digits of a numeral and of what is added to it lie. */
  lemma DigitsOfNumeral(s: string, i: nat, n: Numeral, a: nat, b: nat, c: nat, e: nat)
    requires n.Valid() && Layout(s, i, n, a, b, c, e)
    ensures var r, t := DecimalDigits(s, a), Added(n, s, e);
      && r.a == a && r.d == t.d && r.b - r.a + r.d - r.c > 0
      && (if n.point then r.b == b && r.c == c else r.b == t.b && r.c == t.c && b == e)
  {
    hide RunValue, FractionValue;
    DigitRunMoves(s, a, n.whole, 0);
    DigitRunMoves(s, c, n.fraction, 0);
    hide DigitRun;
  }

  lemma ValueOfNumeral(s: string, i: nat, n: Numeral, a: nat, b: nat, c: nat, e: nat)
    requires n.Valid() && Layout(s, i, n, a, b, c, e)
    ensures RunValue(s, a, b) == DigitsValue(n.whole)
    ensures FractionValue(s, c, e) == FractionValue(n.fraction, 0, |n.fraction|)
  {
    hide RunValue, FractionValue, DigitRun;
    RunValueMoves(s, a, n.whole, |n.whole|);
    FractionValueMoves(s, c, n.fraction, 0);
  }

  lemma DecimalReadIff(s: string, i: nat, n: Numeral, a: nat, b: nat, c: nat, e: nat)
    requires n.Valid() && Layout(s, i, n, a, b, c, e) && !BecomesHex(n, s, e)
    ensures ScanDecimal(s, a) == DigitsValue(n.whole) as real + FractionValue(n.fraction, 0, |n.fraction|) <==>
            Harmless(n, s, e)
  {
    hide BecomesHex, DecimalDigits, Exponent, Shifted, RunValue, FractionValue, Layout, Added;
    DigitsOfNumeral(s, i, n, a, b, c, e);
    ValueOfNumeral(s, i, n, a, b, c, e);
    DecimalDigitsAreDigits(s, a);
    LayoutOrder(s, i, n, a, b, c, e);
    var r, t := DecimalDigits(s, a), Added(n, s, e);
    var j := Exponent(s, r.d, "eE");
    if n.point {
      RunIsZeroIff(s, a, b);
      PointContinues(RunValue(s, a, b), s, c, e, r.d, j);
      PointAdds(n, s, e);
    } else {
      WholeContinues(s, a, e, r.b, r.c, r.d, j);
      WholeAdds(n, s, e);
    }
  }

  lemma WholeAdds(n: Numeral, s: string, e: nat)
    requires !n.point && e <= |s|
    ensures Added(n, s, e) == DecimalDigits(s, e) && DecimalDigits(s, e).a == e
  {
  }

  lemma LayoutOrder(s: string, i: nat, n: Numeral, a: nat, b: nat, c: nat, e: nat)
    requires n.Valid() && Layout(s, i, n, a, b, c, e)
    ensures a <= b <= c <= e <= |s|
    ensures !n.point ==> b == c == e && FractionValue(n.fraction, 0, |n.fraction|) == 0.0
  {
  }

  lemma PointAdds(n: Numeral, s: string, e: nat)
    requires n.point && e <= |s|
    ensures Added(n, s, e) == Digits(e, e, e, DigitRun(s, e))
  {
  }

  /** A numeral that is written at i is read back with its own value if and only
      if what follows it is harmless. */
  lemma ScanReadsNumeralIff(s: string, i: nat, n: Numeral)
    requires n.Valid() && MatchesAt(s, i, n.Text())
    ensures ScanNumber(s, i) == Finite(n.Value()) <==> Harmless(n, s, i + |n.Text()|)
  {
    hide Numeral.Text, ScanDecimal, ScanHex, HexDigits, IsHex, BecomesHex, SkipSpaces, SkipSign, Zeros, Added, Exponent;
    hide SpellsInfinity, SpellsNaN;
    var a, b, c, e := NumeralLayout(s, i, n);
    HexIff(s, i, n, a, b, c, e);
    NumeralIsNoWord(s, i, n, a, b, c, e);
    if BecomesHex(n, s, e) {
      HexFits(s, a);
      HexIsZero(s, a + 1 + 1);
    } else {
      DecimalReadIff(s, i, n, a, b, c, e);
    }
  }

  /** A timestamp that is followed by a non-digit is read back. */
  lemma TimestampReadsDecimal(s: string, i: nat, n: nat)
    requires MatchesAt(s, i, Decimal(n))
    requires i + |Decimal(n)| < |s| ==> !IsDigit(s[i + |Decimal(n)|])
    ensures ScanTimestamp(s, i) == n
  {
    var t := Decimal(n);
    MatchChar(s, i, t, 0);
    DigitRunMoves(s, i, t, 0);
    RunValueMoves(s, i, t, |t|);
  }
}
