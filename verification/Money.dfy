/** Decimal arithmetic of packages/shared/src/money.ts: finite decimals, results of `plus` and `times`
    rounded half away from zero to 20 significant digits, storage rounded half away from zero to satang. */
module Money {
  import opened Numerals

  /** The value `coef / 10^scale`. */
  datatype Decimal = Decimal(coef: int, scale: nat)

  function Abs(n: int): nat {
    if n < 0 then -n else n
  }

  /** `n / d` rounded to the nearest integer, ties away from zero. */
  function RoundHalfAway(n: int, d: nat): int
    requires d > 0
  {
    if n >= 0 then (2 * n + d) / (2 * d) else -((-2 * n + d) / (2 * d))
  }

  /** `r` units of size `d` are nearest to `n`; of two that are equally near, the one of larger magnitude. */
  predicate IsNearest(n: int, d: nat, r: int) {
    && 2 * Abs(r * d - n) <= d
    && (2 * Abs(r * d - n) == d ==> Abs(r * d) > Abs(n))
  }

  lemma MultipleBelow(a: int, b: int, d: nat)
    requires a < b
    ensures a * d + d <= b * d
  {
    Distribute(a, b - a, d);
    Distribute(1, b - a - 1, d);
    assert (b - a - 1) * d >= 0;
  }

  lemma Distribute(a: int, b: int, d: int)
    ensures (a + b) * d == a * d + b * d
  {
  }

  lemma Regroup(a: int, b: int, c: int)
    ensures a * b * c == a * (b * c)
  {
  }

  lemma NaturalIsNearest(m: nat, d: nat)
    requires d > 0
    ensures var x := (2 * m + d) / (2 * d) * d; 2 * x <= 2 * m + d < 2 * x + 2 * d
  {
    var q := (2 * m + d) / (2 * d);
    Regroup(q, 2, d);
    Regroup(2, q, d);
  }

  lemma RoundedIsNearest(n: int, d: nat)
    requires d > 0
    ensures IsNearest(n, d, RoundHalfAway(n, d))
  {
    NaturalIsNearest(Abs(n), d);
    Negated((2 * Abs(n) + d) / (2 * d), d);
  }

  lemma Negated(q: int, d: int)
    ensures (-q) * d == -(q * d)
  {
  }

  /** Two neighbours can be equally near, but then one of them is no farther from zero than `n`. */
  lemma NotBothNearest(n: int, d: nat, r: int, s: int)
    requires d > 0 && r < s
    ensures !(IsNearest(n, d, r) && IsNearest(n, d, s))
  {
    MultipleBelow(r, s, d);
    if r < 0 {
      MultipleBelow(r, 0, d);
    } else {
      assert r * d >= 0;
    }
  }

  /** The nearest integer, ties away from zero: these two conditions, and only they, make the result. */
  lemma RoundsHalfAway(n: int, d: nat, r: int)
    requires d > 0
    ensures r == RoundHalfAway(n, d) <==> IsNearest(n, d, r)
  {
    RoundedIsNearest(n, d);
    var rounded := RoundHalfAway(n, d);
    if r < rounded {
      NotBothNearest(n, d, r, rounded);
    } else if rounded < r {
      NotBothNearest(n, d, rounded, r);
    }
  }

  /** How many digits `finalise` drops from the end of a coefficient to leave 20 significant ones. */
  function Excess(n: nat): nat {
    if n < Power(10, 20) then 0 else 1 + Excess(n / 10)
  }

  /** Rounding to the configured precision of 20 significant digits. */
  function Finalise(x: Decimal): Decimal {
    var k := Excess(Abs(x.coef));
    var rounded := RoundHalfAway(x.coef, Power(10, k));
    if k <= x.scale then Decimal(rounded, x.scale - k) else Decimal(rounded * Power(10, k - x.scale), 0)
  }

  function Plus(a: Decimal, b: Decimal): Decimal {
    var scale := if a.scale < b.scale then b.scale else a.scale;
    Finalise(Decimal(a.coef * Power(10, scale - a.scale) + b.coef * Power(10, scale - b.scale), scale))
  }

  function Times(a: Decimal, b: Decimal): Decimal {
    Finalise(Decimal(a.coef * b.coef, a.scale + b.scale))
  }

  const Zero := Decimal(0, 0)

  function SumOf(values: seq<Decimal>): Decimal {
    if values == [] then Zero else Plus(SumOf(values[..|values| - 1]), values[|values| - 1])
  }

  method Sum(values: seq<Decimal>) returns (acc: Decimal)
    ensures acc == SumOf(values)
  {
    acc := Zero;
    for i := 0 to |values|
      invariant acc == SumOf(values[..i])
    {
      assert values[..i + 1][..i] == values[..i];
      acc := Plus(acc, values[i]);
    }
    assert values[..|values|] == values;
  }

  // ----- storage -----------------------------------------------------------------------

  /** The stored value in satang. */
  function Satang(x: Decimal): int {
    if x.scale <= 2 then x.coef * Power(10, 2 - x.scale) else RoundHalfAway(x.coef, Power(10, x.scale - 2))
  }

  function FixedTwo(satang: nat): string {
    Numeral(satang / 100, 10) + "." + PadStart(Numeral(satang % 100, 10), 2)
  }

  /** `toFixed(2, ROUND_HALF_UP)`: the sign is that of the value before rounding. */
  function ToStorage(x: Decimal): string {
    (if x.coef < 0 then "-" else "") + FixedTwo(Abs(Satang(x)))
  }

  /** Reading a stored amount, as `new Decimal(...)` does: sign, integer digits, two decimals. */
  function ReadStored(s: string): int {
    if s != "" && s[0] == '-' then -(ReadFixed(s[1..]) as int) else ReadFixed(s)
  }

  function ReadFixed(s: string): nat {
    if |s| < 3 then 0 else 100 * Value(s[..|s| - 3], 10) + Value(s[|s| - 2..], 10)
  }

  lemma FixedTwoReadsBack(satang: nat)
    ensures var s := FixedTwo(satang);
      |s| >= 4 && s[|s| - 3] == '.' && '0' <= s[0] <= '9' && ReadFixed(s) == satang
  {
    var whole, cents := Numeral(satang / 100, 10), PadStart(Numeral(satang % 100, 10), 2);
    var s := FixedTwo(satang);
    assert Power(10, 2) == 100;
    PaddedNumeral(satang % 100, 10, 2);
    ValueNumeral(satang / 100, 10);
    NumeralDigits(satang / 100);
    assert s[..|s| - 3] == whole && s[|s| - 2..] == cents;
  }

  lemma SatangSign(x: Decimal)
    ensures x.coef >= 0 ==> Satang(x) >= 0
    ensures x.coef <= 0 ==> Satang(x) <= 0
  {
    if x.scale <= 2 {
      var p := Power(10, 2 - x.scale);
      assert x.coef >= 0 ==> x.coef * p >= 0;
      assert x.coef <= 0 ==> x.coef * p <= 0;
    }
  }

  /** The nearest number of satang, ties away from zero. */
  predicate IsNearestSatang(x: Decimal, satang: int) {
    if x.scale <= 2 then satang == x.coef * Power(10, 2 - x.scale)
    else IsNearest(x.coef, Power(10, x.scale - 2), satang)
  }

  lemma SatangIsNearest(x: Decimal)
    ensures IsNearestSatang(x, Satang(x))
  {
    if x.scale > 2 {
      RoundedIsNearest(x.coef, Power(10, x.scale - 2));
    }
  }

  /** A stored amount reads back as the nearest number of satang, ties away from zero, and shows whether the
      original was negative. */
  lemma StorageReadsBack(x: Decimal)
    ensures ReadStored(ToStorage(x)) == Satang(x)
    ensures IsNearestSatang(x, ReadStored(ToStorage(x)))
    ensures x.coef < 0 <==> ToStorage(x)[..1] == "-"
  {
    SatangIsNearest(x);
    FixedTwoReadsBack(Abs(Satang(x)));
    SatangSign(x);
    var fixed := FixedTwo(Abs(Satang(x)));
    if x.coef < 0 {
      assert ToStorage(x)[1..] == fixed && ToStorage(x)[0] == '-';
    } else {
      assert ToStorage(x) == fixed;
      assert fixed[..1][0] != '-';
    }
  }

  // ----- line totals and subtotals ---------------------------------------------------------

  /** Decimal(12,2), in hundredths. */
  type Quantity = n: int | -1_000_000_000_000 < n < 1_000_000_000_000

  /** Decimal(10,4), in ten-thousandths. */
  type Rate = n: int | -10_000_000_000 < n < 10_000_000_000

  datatype Line = Line(quantity: Quantity, unitPrice: Rate)

  /** `toStorage(mul(quantity, unitPrice))`, in satang. */
  function LineTotal(line: Line): int {
    Satang(Times(Decimal(line.quantity, 2), Decimal(line.unitPrice, 4)))
  }

  /** The exact product, in millionths of a baht. */
  function ExactTotal(line: Line): int {
    line.quantity * line.unitPrice
  }

  /** Fits a Decimal(10,2) column. */
  predicate FitsColumn(satang: int) {
    -10_000_000_000 < satang < 10_000_000_000
  }

  lemma PowersOfTen()
    ensures Power(10, 2) == 100 && Power(10, 3) == 1000 && Power(10, 4) == 10_000
    ensures Power(10, 20) == 100_000_000_000_000_000_000
  {
    assert Power(10, 2) == 100;
    assert Power(10, 8) == 100_000_000;
    assert Power(10, 14) == 100_000_000_000_000;
  }

  lemma FinaliseSmall(x: Decimal)
    requires Abs(x.coef) < Power(10, 20)
    ensures Finalise(x) == x
  {
    assert Excess(Abs(x.coef)) == 0 && Power(10, 0) == 1;
    RoundToUnit(x.coef);
  }

  lemma {:induction false} PowerSum(a: nat, b: nat)
    ensures Power(10, a + b) == Power(10, a) * Power(10, b)
  {
    if a > 0 {
      PowerSum(a - 1, b);
      Regroup(10, Power(10, a - 1), Power(10, b));
    }
  }

  /** A coefficient of 20 + k digits loses k of them. */
  lemma {:induction false} ExcessIs(n: nat)
    ensures n < Power(10, 20 + Excess(n))
    ensures Excess(n) > 0 ==> Power(10, 19 + Excess(n)) <= n
    decreases n
  {
    if n >= Power(10, 20) {
      ExcessIs(n / 10);
      var k := Excess(n / 10);
      assert Power(10, 21 + k) == 10 * Power(10, 20 + k);
      assert Power(10, 20 + k) == 10 * Power(10, 19 + k);
      if k == 0 {
        assert Power(10, 20) <= n;
      }
    }
  }

  lemma DropDigits(r: int, k: nat, scale: nat)
    requires k <= scale
    ensures r * Power(10, scale) == r * Power(10, k) * Power(10, scale - k)
  {
    PowerSum(k, scale - k);
    Regroup(r, Power(10, k), Power(10, scale - k));
  }

  /** `y` is `r` times 10^k, in units of the last place of a number with this scale. */
  predicate IsUnits(y: Decimal, r: int, k: nat, scale: nat) {
    y.coef * Power(10, scale) == r * Power(10, k) * Power(10, y.scale)
  }

  lemma UnitsOfFinalise(r: int, k: nat, scale: nat)
    ensures var y := if k <= scale then Decimal(r, scale - k) else Decimal(r * Power(10, k - scale), 0);
      IsUnits(y, r, k, scale)
  {
    if k <= scale {
      DropDigits(r, k, scale);
    } else {
      DropDigits(r, k - scale, k);
      assert Power(10, 0) == 1;
    }
  }

  /** Rounding to 20 significant digits: a number with k digits more becomes the nearest multiple of 10^k units of
      its last place, ties away from zero; a shorter one stays as it is. */
  lemma FinaliseRounds(x: Decimal) returns (r: int)
    ensures var k := Excess(Abs(x.coef));
      && Abs(x.coef) < Power(10, 20 + k) && (k > 0 ==> Power(10, 19 + k) <= Abs(x.coef))
      && IsNearest(x.coef, Power(10, k), r)
      && IsUnits(Finalise(x), r, k, x.scale)
  {
    var k := Excess(Abs(x.coef));
    r := RoundHalfAway(x.coef, Power(10, k));
    ExcessIs(Abs(x.coef));
    RoundedIsNearest(x.coef, Power(10, k));
    UnitsOfFinalise(r, k, x.scale);
  }

  lemma RoundToUnit(n: int)
    ensures RoundHalfAway(n, 1) == n
  {
  }

  lemma ProductBound(q: int, p: int)
    requires -1_000_000_000_000 < q < 1_000_000_000_000 && -10_000_000_000 < p < 10_000_000_000
    ensures Abs(q * p) < 10_000_000_000_000_000_000_000
    ensures Abs(q * p) == Abs(q) * Abs(p)
  {
    AbsProduct(q, p);
    BoundedFactors(Abs(q), Abs(p), 1_000_000_000_000, 10_000_000_000);
  }

  lemma AbsProduct(q: int, p: int)
    ensures Abs(q * p) == Abs(q) * Abs(p)
  {
    assert (-q) * p == -(q * p) && q * (-p) == -(q * p) && (-q) * (-p) == q * p;
    assert q >= 0 && p >= 0 ==> q * p >= 0;
    assert q <= 0 && p <= 0 ==> (-q) * (-p) >= 0;
    assert q >= 0 && p <= 0 ==> q * (-p) >= 0;
    assert q <= 0 && p >= 0 ==> (-q) * p >= 0;
  }

  lemma BoundedFactors(a: nat, b: nat, x: nat, y: nat)
    requires a < x && b < y
    ensures a * b < x * y
  {
    assert a * b <= a * y;
    assert a * y < x * y;
  }

  /** A product with more than 20 digits is far too large for the column, however it is rounded. */
  lemma HugeDoesNotFit(c: int)
    requires 100_000_000_000_000_000_000 <= Abs(c) < 10_000_000_000_000_000_000_000
    ensures !FitsColumn(Satang(Finalise(Decimal(c, 6))))
  {
    PowersOfTen();
    var n := Abs(c);
    assert Power(10, 1) == 10;
    if n < 1_000_000_000_000_000_000_000 {
      assert Excess(n) == 1 + Excess(n / 10) && Excess(n / 10) == 0;
      assert Finalise(Decimal(c, 6)) == Decimal(RoundHalfAway(c, 10), 5);
    } else {
      assert Excess(n) == 1 + Excess(n / 10) && Excess(n / 10) == 1 + Excess(n / 10 / 10) && Excess(n / 10 / 10) == 0;
      assert Finalise(Decimal(c, 6)) == Decimal(RoundHalfAway(c, 100), 4);
    }
  }

  /** Whenever a line total fits its column, the 20-digit product is exact and the total is the exact
      product rounded once, half away from zero. */
  lemma LineTotalRoundsOnce(line: Line)
    requires FitsColumn(LineTotal(line))
    ensures Times(Decimal(line.quantity, 2), Decimal(line.unitPrice, 4)) == Decimal(ExactTotal(line), 6)
    ensures LineTotal(line) == RoundHalfAway(ExactTotal(line), 10_000)
    ensures Abs(LineTotal(line) * 10_000 - ExactTotal(line)) <= 5_000
    ensures Abs(LineTotal(line) * 10_000 - ExactTotal(line)) == 5_000 ==>
      Abs(LineTotal(line)) * 10_000 > Abs(ExactTotal(line))
  {
    PowersOfTen();
    RoundedIsNearest(ExactTotal(line), 10_000);
    var c := ExactTotal(line);
    ProductBound(line.quantity, line.unitPrice);
    if Abs(c) >= 100_000_000_000_000_000_000 {
      HugeDoesNotFit(c);
    } else {
      FinaliseSmall(Decimal(c, 6));
    }
  }

  function SumSatang(totals: seq<int>): int {
    if totals == [] then 0 else SumSatang(totals[..|totals| - 1]) + totals[|totals| - 1]
  }

  function InBaht(totals: seq<int>): (amounts: seq<Decimal>)
    ensures |amounts| == |totals|
    ensures forall i :: 0 <= i < |totals| ==> amounts[i] == Decimal(totals[i], 2)
  {
    seq(|totals|, i requires 0 <= i < |totals| => Decimal(totals[i], 2))
  }

  /** The longest array JavaScript has. */
  const MAX_ARRAY := 0xFFFF_FFFF

  predicate Column(totals: seq<int>) {
    |totals| <= MAX_ARRAY && forall i :: 0 <= i < |totals| ==> FitsColumn(totals[i])
  }

  lemma PlusStored(a: Decimal, total: int, b: int)
    requires a == Decimal(total, 2) || (a == Zero && total == 0)
    requires -90_000_000_000_000_000_000 < total < 90_000_000_000_000_000_000 && FitsColumn(b)
    ensures Plus(a, Decimal(b, 2)) == Decimal(total + b, 2)
  {
    PowersOfTen();
    AddScaleTwo(a, total, b);
    FinaliseSmall(Decimal(total + b, 2));
  }

  lemma AddScaleTwo(a: Decimal, total: int, b: int)
    requires a == Decimal(total, 2) || (a == Zero && total == 0)
    ensures Plus(a, Decimal(b, 2)) == Finalise(Decimal(total + b, 2))
  {
    assert Power(10, 0) == 1;
    assert 0 * Power(10, 2) == 0;
  }

  /** Adding stored totals never rounds. */
  lemma {:induction false} SumExact(totals: seq<int>)
    requires Column(totals)
    ensures SumOf(InBaht(totals)) == if totals == [] then Zero else Decimal(SumSatang(totals), 2)
    ensures Abs(SumSatang(totals)) <= |totals| * 10_000_000_000
    decreases |totals|
  {
    if totals != [] {
      var front, last := totals[..|totals| - 1], totals[|totals| - 1];
      SumExact(front);
      assert InBaht(totals)[..|totals| - 1] == InBaht(front);
      PlusStored(SumOf(InBaht(front)), SumSatang(front), last);
    }
  }

  /** `toStorage(sum(items.map(i => i.lineTotal)))`, in satang. */
  function Subtotal(lines: seq<Line>): int {
    Satang(SumOf(InBaht(LineTotals(lines))))
  }

  function LineTotals(lines: seq<Line>): (totals: seq<int>)
    ensures |totals| == |lines|
    ensures forall i :: 0 <= i < |lines| ==> totals[i] == LineTotal(lines[i])
  {
    seq(|lines|, i requires 0 <= i < |lines| => LineTotal(lines[i]))
  }

  function ExactTotals(lines: seq<Line>): (products: seq<int>)
    ensures |products| == |lines|
    ensures forall i :: 0 <= i < |lines| ==> products[i] == ExactTotal(lines[i])
  {
    seq(|lines|, i requires 0 <= i < |lines| => ExactTotal(lines[i]))
  }

  function SumExactTotals(lines: seq<Line>): int {
    SumSatang(ExactTotals(lines))
  }

  /** Errors of half a unit each add up to at most half a unit per term. */
  lemma {:induction false} ErrorsAdd(totals: seq<int>, products: seq<int>)
    requires |totals| == |products|
    requires forall i :: 0 <= i < |totals| ==> -5_000 <= totals[i] * 10_000 - products[i] <= 5_000
    ensures Abs(SumSatang(totals) * 10_000 - SumSatang(products)) <= |totals| * 5_000
    decreases |totals|
  {
    if totals != [] {
      ErrorsAdd(totals[..|totals| - 1], products[..|totals| - 1]);
    }
  }

  lemma RoundingErrors(lines: seq<Line>)
    requires Column(LineTotals(lines))
    ensures Abs(SumSatang(LineTotals(lines)) * 10_000 - SumExactTotals(lines)) <= |lines| * 5_000
  {
    forall i | 0 <= i < |lines|
      ensures -5_000 <= LineTotals(lines)[i] * 10_000 - ExactTotals(lines)[i] <= 5_000
    {
      LineTotalRoundsOnce(lines[i]);
    }
    ErrorsAdd(LineTotals(lines), ExactTotals(lines));
  }

  /** The subtotal of n lines is within n half satang of the exact sum of quantity times unit price. */
  lemma SubtotalError(lines: seq<Line>)
    requires Column(LineTotals(lines))
    ensures Subtotal(lines) == SumSatang(LineTotals(lines))
    ensures Abs(Subtotal(lines) * 10_000 - SumExactTotals(lines)) <= |lines| * 5_000
  {
    SumExact(LineTotals(lines));
    assert Power(10, 0) == 1;
    RoundingErrors(lines);
  }
}
