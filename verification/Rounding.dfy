/// Decimal rounding and printing (roundTo and formatFloatString of internal/service/apartment_calc.go)
/// over exact reals: nearest, halves away from zero.

module Rounding {

  function Pow10(n: nat): (p: real)
    ensures p >= 1.0
  {
    if n == 0 then 1.0 else 10.0 * Pow10(n - 1)
  }

  /// The shift of roundTo: how many units of the last place make one.
  function Shift(places: nat): (u: real)
    ensures u >= 1.0
  {
    Pow10(places)
  }

  function Abs(x: real): real {
    if x < 0.0 then -x else x
  }

  /// math.Round: the nearest integer, halves away from zero.
  function Round(x: real): int {
    if x >= 0.0 then (x + 0.5).Floor else -((-x + 0.5).Floor)
  }

  /// How many units of the last place x rounds to.
  function Units(x: real, places: nat): int {
    Round(x * Shift(places))
  }

  /// n units of the last of this many places.
  function Decimal(n: int, places: nat): real {
    n as real / Shift(places)
  }

  function RoundTo(x: real, places: nat): real {
    Decimal(Units(x, places), places)
  }

  /// x is a decimal with at most this many places.
  ghost predicate HasPlaces(x: real, places: nat) {
    exists n: int :: x == Decimal(n, places)
  }

  // ---------- Rounding to integers ----------

  lemma RoundNearest(x: real)
    ensures Abs(Round(x) as real - x) <= 0.5
  {
  }

  /// The nearest integer, and of two nearest ones the one further from zero.
  predicate RoundsTo(x: real, m: int) {
    Abs(m as real - x) <= 0.5 && (Abs(m as real - x) == 0.5 ==> Abs(m as real) > Abs(x))
  }

  /// This says exactly which integer it is.
  lemma RoundUnique(x: real, m: int)
    ensures m == Round(x) <==> RoundsTo(x, m)
  {
  }

  lemma RoundMonotone(x: real, y: real)
    requires x <= y
    ensures Round(x) <= Round(y)
  {
  }

  // ---------- Rounding to decimals ----------

  lemma Times(x: real, y: real, u: real)
    requires u > 0.0 && x <= y
    ensures x * u <= y * u
  {
    assert (y - x) * u >= 0.0;
  }

  lemma Over(x: real, y: real, u: real)
    requires u > 0.0 && x <= y
    ensures x / u <= y / u
  {
    assert (y - x) / u >= 0.0;
    assert (y - x) / u == y / u - x / u;
  }

  lemma Unscale(x: real, u: real)
    requires u > 0.0
    ensures x / u * u == x && x * u / u == x
  {
  }

  lemma RoundWhole(n: int, x: real)
    requires x == n as real
    ensures Round(x) == n
  {
  }

  /// A decimal with that many places is left as it is.
  lemma RoundToExact(x: real, places: nat)
    requires HasPlaces(x, places)
    ensures RoundTo(x, places) == x
  {
    var n: int :| x == Decimal(n, places);
    Unscale(n as real, Shift(places));
    RoundWhole(n, x * Shift(places));
    assert Units(x, places) == n;
  }

  lemma RoundToHasPlaces(x: real, places: nat)
    ensures HasPlaces(RoundTo(x, places), places)
  {
    assert RoundTo(x, places) == Decimal(Units(x, places), places);
  }

  /// Rounding twice is rounding once.
  lemma RoundToIdempotent(x: real, places: nat)
    ensures RoundTo(RoundTo(x, places), places) == RoundTo(x, places)
  {
    RoundToHasPlaces(x, places);
    RoundToExact(RoundTo(x, places), places);
  }

  lemma UnitsMonotone(x: real, y: real, places: nat)
    requires x <= y
    ensures Units(x, places) <= Units(y, places)
  {
    Times(x, y, Shift(places));
    RoundMonotone(x * Shift(places), y * Shift(places));
  }

  lemma RoundToMonotone(x: real, y: real, places: nat)
    requires x <= y
    ensures RoundTo(x, places) <= RoundTo(y, places)
  {
    UnitsMonotone(x, y, places);
    Over(Units(x, places) as real, Units(y, places) as real, Shift(places));
  }

  lemma RoundOdd(x: real, y: real)
    requires y == -x
    ensures Round(y) == -Round(x)
  {
  }

  lemma NegateOver(x: real, u: real)
    requires u > 0.0
    ensures -x / u == -(x / u)
  {
  }

  lemma RoundToOdd(x: real, places: nat)
    ensures RoundTo(-x, places) == -RoundTo(x, places)
  {
    RoundOdd(x * Shift(places), -x * Shift(places));
    assert Units(-x, places) == -Units(x, places);
    NegateOver(Units(x, places) as real, Shift(places));
  }

  lemma WithinHalf(n: real, x: real, u: real)
    requires u > 0.0 && Abs(n - x * u) <= 0.5
    ensures Abs(n / u - x) <= 0.5 / u
  {
    Unscale(x, u);
    var d := n - x * u;
    assert d / u == n / u - x;
    Over(d, 0.5, u);
    Over(-0.5, d, u);
    assert -0.5 / u == -(0.5 / u);
  }

  /// A tie goes away from zero: n and a half units of the last place, n not negative, become n + 1 of them.
  lemma RoundTies(n: nat, places: nat)
    ensures RoundTo((n as real + 0.5) / Shift(places), places) == (n + 1) as real / Shift(places)
    ensures RoundTo(-((n as real + 0.5) / Shift(places)), places) == -((n + 1) as real / Shift(places))
  {
    var x := (n as real + 0.5) / Shift(places);
    Unscale(n as real + 0.5, Shift(places));
    RoundUnique(n as real + 0.5, n + 1);
    assert Units(x, places) == n + 1;
    RoundToOdd(x, places);
  }

  /// The shift is ten to the number of places.
  lemma ShiftIs(places: nat)
    ensures Shift(0) == 1.0 && Shift(places + 1) == 10.0 * Shift(places)
  {
  }

  /// The result is within half a unit of the last place.
  lemma RoundToNearest(x: real, places: nat)
    ensures Abs(RoundTo(x, places) - x) <= 0.5 / Shift(places)
  {
    RoundNearest(x * Shift(places));
    WithinHalf(Units(x, places) as real, x, Shift(places));
  }

  lemma RoundToNonNegative(x: real, places: nat)
    requires x >= 0.0
    ensures RoundTo(x, places) >= 0.0
  {
    RoundToMonotone(0.0, x, places);
    assert RoundTo(0.0, places) == 0.0;
  }

  lemma SumHasPlaces(x: real, y: real, places: nat)
    requires HasPlaces(x, places) && HasPlaces(y, places)
    ensures HasPlaces(x + y, places)
  {
    var n: int :| x == Decimal(n, places);
    var m: int :| y == Decimal(m, places);
    assert x + y == Decimal(n + m, places);
  }

  // ---------- Printing with two decimals ----------

  /// The nearest integer with halves to even, as the %.2f verb rounds.
  function RoundHalfEven(x: real): (n: nat)
    requires x >= 0.0
    ensures Abs(n as real - x) <= 0.5
  {
    var low := x.Floor;
    var rest := x - low as real;
    if rest < 0.5 || (rest == 0.5 && low % 2 == 0) then low else low + 1
  }

  function Digit(d: nat): char
    requires d < 10
  {
    '0' + d as char
  }

  function Digits(n: nat): (s: string)
    ensures s != []
  {
    if n < 10 then [Digit(n)] else Digits(n / 10) + [Digit(n % 10)]
  }

  function FormatHundredths(h: nat): string {
    Digits(h / 100) + ['.', Digit(h / 10 % 10), Digit(h % 10)]
  }

  /// fmt.Sprintf("%.2f", val).
  function FormatFloat(val: real): string {
    (if val < 0.0 then "-" else "") + FormatHundredths(RoundHalfEven(Abs(val) * 100.0))
  }

  predicate IsDigit(c: char) {
    '0' <= c <= '9'
  }

  function DigitValue(c: char): nat
    requires IsDigit(c)
  {
    c as int - '0' as int
  }

  function ParseNat(s: string): nat
    requires forall i :: 0 <= i < |s| ==> IsDigit(s[i])
  {
    if s == [] then 0 else 10 * ParseNat(s[..|s| - 1]) + DigitValue(s[|s| - 1])
  }

  /// An optional sign, digits, a point, two digits.
  predicate IsDecimal(s: string) {
    && |s| >= 4
    && s[|s| - 3] == '.'
    && (IsDigit(s[0]) || (s[0] == '-' && |s| >= 5))
    && forall i :: 1 <= i < |s| && i != |s| - 3 ==> IsDigit(s[i])
  }

  function Unsigned(s: string): string
    requires IsDecimal(s)
  {
    if s[0] == '-' then s[1..] else s
  }

  /// What the text denotes.
  function ParseDecimal(s: string): real
    requires IsDecimal(s)
  {
    var t := Unsigned(s);
    var n := (100 * ParseNat(t[..|t| - 3]) + ParseNat(t[|t| - 2..])) as real / 100.0;
    if s[0] == '-' then -n else n
  }

  lemma {:induction false} DigitsParse(n: nat)
    ensures forall i :: 0 <= i < |Digits(n)| ==> IsDigit(Digits(n)[i])
    ensures ParseNat(Digits(n)) == n
  {
    if n >= 10 {
      DigitsParse(n / 10);
      assert Digits(n)[..|Digits(n)| - 1] == Digits(n / 10);
    } else {
      assert Digits(n)[..0] == [];
    }
  }

  lemma ParseTwo(a: nat, b: nat)
    requires a < 10 && b < 10
    ensures ParseNat([Digit(a), Digit(b)]) == 10 * a + b
  {
    var s := [Digit(a), Digit(b)];
    assert s[..1] == [Digit(a)];
    assert [Digit(a)][..0] == [];
    assert ParseNat([Digit(a)]) == a;
  }

  lemma HundredthsParse(h: nat)
    ensures IsDecimal(FormatHundredths(h)) && FormatHundredths(h)[0] != '-'
    ensures ParseDecimal(FormatHundredths(h)) == h as real / 100.0
  {
    var s := FormatHundredths(h);
    DigitsParse(h / 100);
    ParseTwo(h / 10 % 10, h % 10);
    assert s[..|s| - 3] == Digits(h / 100);
    assert s[|s| - 2..] == [Digit(h / 10 % 10), Digit(h % 10)];
    assert h == 100 * (h / 100) + 10 * (h / 10 % 10) + h % 10;
  }

  lemma SignedParse(val: real)
    ensures IsDecimal(FormatFloat(val))
    ensures var h := RoundHalfEven(Abs(val) * 100.0);
      ParseDecimal(FormatFloat(val)) == if val < 0.0 then -(h as real / 100.0) else h as real / 100.0
  {
    var h := RoundHalfEven(Abs(val) * 100.0);
    HundredthsParse(h);
    var s := FormatFloat(val);
    if val < 0.0 {
      assert s[1..] == FormatHundredths(h);
    } else {
      assert s == FormatHundredths(h);
    }
  }

  /// The text of any amount denotes that amount to within half a hundredth.
  lemma FormatParse(val: real)
    ensures IsDecimal(FormatFloat(val))
    ensures ParseDecimal(FormatFloat(val)) ==
      if val < 0.0 then -(RoundHalfEven(Abs(val) * 100.0) as real / 100.0)
      else RoundHalfEven(Abs(val) * 100.0) as real / 100.0
    ensures Abs(ParseDecimal(FormatFloat(val)) - val) <= 0.005
  {
    SignedParse(val);
    var h := RoundHalfEven(Abs(val) * 100.0);
    assert Abs(h as real / 100.0 - Abs(val)) <= 0.005;
  }

  /// It reads back exactly if and only if the amount has at most two decimals.
  lemma FormatExact(val: real)
    ensures IsDecimal(FormatFloat(val))
    ensures ParseDecimal(FormatFloat(val)) == val <==> HasPlaces(val, 2)
  {
    FormatParse(val);
    assert Shift(2) == 100.0 by {
      assert Pow10(1) == 10.0 * Pow10(0);
    }
    var h := RoundHalfEven(Abs(val) * 100.0);
    if HasPlaces(val, 2) {
      var n: int :| val == Decimal(n, 2);
      assert Abs(val) * 100.0 == (if n < 0 then -n else n) as real;
      assert h == if n < 0 then -n else n;
    }
    if ParseDecimal(FormatFloat(val)) == val {
      assert val == Decimal(if val < 0.0 then -(h as int) else h, 2);
    }
  }
}
