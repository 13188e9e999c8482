/**
 * The paper total of a supplier's bill against the value of its goods receipt: variance, the old
 * ceiling clamp, the rounding reason and the digit-shift test. Numbers are exact; what does not
 * parse as a finite number is `None`.
 */
module GoodsReceiptBill {
  import opened Basics

  const EPS: real := 0.005
  const ROUNDING_MAX: real := 1.0
  const RATIO_TOLERANCE: real := 0.02

  datatype Direction = NoPaper | Match | Under | Over

  datatype Variance = Variance(hasPaper: bool, computed: real, paper: real, amount: real, abs: real, direction: Direction)

  datatype Reason = SupplierDiscount | RoundingDifference | EditLinePrices

  /** What stands in the paper field: nothing, or text and the number it parses to. */
  datatype Entry = Blank | Typed(number: Option<real>)

  /** Rounds to whole cents, halves upwards. */
  function Cents(x: real): int { (100.0 * x + 0.5).Floor }

  function Money(cents: int): real { cents as real / 100.0 }

  function RoundMoney(n: Option<real>): real { if n.Some? then Money(Cents(n.value)) else 0.0 }

  function CentsOf(n: Option<real>): int { if n.Some? then Cents(n.value) else 0 }

  function ResolveVariance(computedTotal: Option<real>, paperTotal: Option<real>, eps: real): Variance {
    var computed := RoundMoney(computedTotal);
    if paperTotal.None? || paperTotal.value <= 0.0 then Variance(false, computed, 0.0, 0.0, 0.0, NoPaper)
    else
      var paper := RoundMoney(paperTotal);
      var amount := RoundMoney(Some(computed - paper));
      var abs := Abs(amount);
      if abs <= eps then Variance(true, computed, paper, 0.0, 0.0, Match)
      else if paper > computed + eps then Variance(true, computed, paper, amount, abs, Over)
      else Variance(true, computed, paper, amount, abs, Under)
  }

  lemma {:induction false} CentsOfMoney(cents: int)
    ensures Cents(Money(cents)) == cents
  {
    assert 100.0 * Money(cents) == cents as real;
  }

  /** The nearest whole number of cents, halves upwards. */
  lemma {:induction false} CentsBetween(x: real)
    ensures Cents(x) as real - 0.5 <= 100.0 * x < Cents(x) as real + 0.5
  {
  }

  /**
   * Whatever tolerance below a cent is used, the direction is the comparison of whole cents, and the
   * variance is their exact difference.
   */
  lemma {:induction false} DirectionComparesCents(computed: Option<real>, paper: Option<real>, eps: real)
    requires 0.0 <= eps < 0.01
    ensures var v := ResolveVariance(computed, paper, eps);
      var gr, bill := CentsOf(computed), CentsOf(paper);
      && (v.direction == NoPaper <==> paper.None? || paper.value <= 0.0)
      && (v.hasPaper <==> v.direction != NoPaper)
      && 100.0 * v.computed == gr as real
      && (!v.hasPaper ==> v.paper == 0.0 && v.amount == 0.0 && v.abs == 0.0)
      && (v.hasPaper ==>
        && 100.0 * v.paper == bill as real
        && v.amount == Money(gr - bill) && v.abs == Money(if gr >= bill then gr - bill else bill - gr)
        && (v.direction == Match <==> bill == gr)
        && (v.direction == Over <==> bill > gr)
        && (v.direction == Under <==> bill < gr))
  {
    var gr, bill := CentsOf(computed), CentsOf(paper);
    assert RoundMoney(computed) == Money(gr) && RoundMoney(paper) == Money(bill);
    assert Money(gr) - Money(bill) == Money(gr - bill);
    CentsOfMoney(gr - bill);
  }

  // ---------------------------------------------------------------- the clamp

  /** A positive number as two-place text; nothing otherwise. */
  function Format(n: real): Entry { if n <= 0.0 then Blank else Typed(Some(RoundMoney(Some(n)))) }

  function ClampToCeiling(paper: Entry, computedTotal: Option<real>): Entry {
    if paper.Blank? || paper.number.None? then paper
    else
      var ceiling := RoundMoney(computedTotal);
      if paper.number.value > ceiling + EPS then Format(ceiling) else paper
  }

  function NumberIn(paper: Entry): Option<real> { if paper.Blank? then None else paper.number }

  function DirectionOf(paper: Entry, computed: Option<real>): Direction {
    ResolveVariance(computed, NumberIn(paper), EPS).direction
  }

  /** The paper exceeds the rounded receipt value by exactly the tolerance. */
  predicate HalfCentAbove(paper: Entry, computed: Option<real>) {
    paper.Typed? && paper.number.Some? && 100.0 * paper.number.value == CentsOf(computed) as real + 0.5
  }

  /**
   * The clamp turns an over-bill into a match (or an empty field when the receipt is worth nothing),
   * with one exception: half a cent above the ceiling it lets the paper through. Nothing else changes.
   */
  lemma {:induction false} ClampDirection(paper: Entry, computed: Option<real>)
    ensures var before, after := DirectionOf(paper, computed), DirectionOf(ClampToCeiling(paper, computed), computed);
      after == if before != Over || HalfCentAbove(paper, computed) then before
               else if CentsOf(computed) > 0 then Match else NoPaper
  {
    var gr := CentsOf(computed);
    var clamped := ClampToCeiling(paper, computed);
    DirectionComparesCents(computed, NumberIn(paper), EPS);
    DirectionComparesCents(computed, NumberIn(clamped), EPS);
    CentsOfMoney(gr);
    if paper.Typed? && paper.number.Some? {
      var p := paper.number.value;
      CentsBetween(p);
      assert RoundMoney(computed) == Money(gr);
      if p > Money(gr) + EPS {
        assert 100.0 * p > gr as real + 0.5;
        CentsOfMoney(Cents(Money(gr)));
      } else {
        assert clamped == paper;
      }
    }
  }

  /** The clamped paper is over the receipt exactly if it stood half a cent above a ceiling that is not negative. */
  lemma {:induction false} ClampedOver(paper: Entry, computed: Option<real>)
    ensures DirectionOf(ClampToCeiling(paper, computed), computed) == Over <==>
      HalfCentAbove(paper, computed) && CentsOf(computed) >= 0
  {
    ClampDirection(paper, computed);
    DirectionComparesCents(computed, NumberIn(paper), EPS);
    if HalfCentAbove(paper, computed) {
      CentsBetween(paper.number.value);
      assert 100.0 * paper.number.value == CentsOf(computed) as real + 0.5;
    }
  }

  /** On whole cents a clamped paper is never over. */
  lemma {:induction false} WholeCentsNeverOver(cents: int, computed: Option<real>)
    ensures DirectionOf(ClampToCeiling(Typed(Some(Money(cents))), computed), computed) != Over
  {
    ClampedOver(Typed(Some(Money(cents))), computed);
    var apart := cents - CentsOf(computed);
    assert 100.0 * (Money(cents) - RoundMoney(computed)) == apart as real;
    assert apart as real != 0.5;
  }

  /** What the clamp writes: the rounded value of the receipt over anything more than half a cent above it, or nothing. */
  lemma {:induction false} ClampWrites(paper: Entry, computed: Option<real>)
    ensures var gr := CentsOf(computed);
      if paper.Typed? && paper.number.Some? && 100.0 * paper.number.value > gr as real + 0.5
      then ClampToCeiling(paper, computed) == if gr > 0 then Typed(Some(Money(gr))) else Blank
      else ClampToCeiling(paper, computed) == paper
  {
    CentsOfMoney(CentsOf(computed));
    assert RoundMoney(computed) == Money(CentsOf(computed));
  }

  lemma {:induction false} ClampTwice(paper: Entry, computed: Option<real>)
    ensures ClampToCeiling(ClampToCeiling(paper, computed), computed) == ClampToCeiling(paper, computed)
  {
    CentsOfMoney(CentsOf(computed));
  }

  // ---------------------------------------------------------------- the nearest power of ten

  function Ten(k: int): (p: real)
    ensures p > 0.0
    decreases if k >= 0 then k else -k
  {
    if k == 0 then 1.0 else if k > 0 then 10.0 * Ten(k - 1) else Ten(k + 1) / 10.0
  }

  /**
   * The base-ten logarithm of `r` rounds to `n`, halves upwards: it lies in [n - 1/2, n + 1/2), that
   * is, the square of `r` lies between the powers 2n - 1 and 2n + 1 of ten.
   */
  predicate LogRoundsTo(r: real, n: int) { Ten(2 * n - 1) <= Times(r, r) < Ten(2 * n + 1) }

  function Times(a: real, b: real): real { a * b }

  lemma {:induction false} TenStep(k: int)
    ensures Ten(k + 1) == 10.0 * Ten(k)
  {
  }

  lemma {:induction false} TenGrows(j: int, k: int)
    requires j <= k
    ensures Ten(j) <= Ten(k)
    decreases k - j
  {
    hide Ten;
    if j < k {
      TenStep(j);
      TenGrows(j + 1, k);
    }
  }

  lemma {:induction false} LogRoundsOnce(r: real, n: int, m: int)
    requires LogRoundsTo(r, n) && LogRoundsTo(r, m)
    ensures n == m
  {
    hide Ten;
    if n < m { TenGrows(2 * n + 1, 2 * m - 1); }
    if m < n { TenGrows(2 * m + 1, 2 * n - 1); }
  }

  lemma {:induction false} TenBeyond(k: int)
    requires k >= 0
    ensures Ten(k) > k as real && Ten(-k) * Ten(k) == 1.0
  {
    if k > 0 {
      TenBeyond(k - 1);
      TenStep(-k);
      TenStep(k - 1);
      assert Ten(-k) * Ten(k) == (Ten(-k) * 10.0) * Ten(k - 1);
    }
  }

  lemma {:induction false} LogRoundsBetween(r: real, lo: int, hi: int)
    requires lo <= hi && Ten(2 * lo - 1) <= Times(r, r) < Ten(2 * hi + 1)
    ensures exists n :: LogRoundsTo(r, n)
    decreases hi - lo
  {
    hide Ten, Times;
    if Times(r, r) < Ten(2 * lo + 1) {
      assert LogRoundsTo(r, lo);
    } else {
      LogRoundsBetween(r, lo + 1, hi);
    }
  }

  lemma {:induction false} BelowInverse(x: real, p: real, q: real)
    requires x > 0.0 && p > 0.0 && q * p == 1.0 && p > 1.0 / x
    ensures q < x
  {
    assert (1.0 / x) * x == 1.0;
    Scaled(1.0 / x, p, x);
    Scaled(q, x, p);
  }

  lemma {:induction false} BetweenPowers(x: real) returns (k: int)
    requires x > 0.0
    ensures k >= 0 && Ten(-(2 * k + 1)) <= x < Ten(2 * k + 1)
  {
    hide Ten;
    var inverse := 1.0 / x;
    assert inverse > 0.0;
    k := x.Floor + inverse.Floor + 1;
    TenBeyond(2 * k + 1);
    BelowInverse(x, Ten(2 * k + 1), Ten(-(2 * k + 1)));
  }

  lemma {:induction false} Positive(a: real, b: real)
    requires a > 0.0 && b > 0.0
    ensures Times(a, b) > 0.0
  {
  }

  lemma {:induction false} LogRounds(r: real)
    requires r > 0.0
    ensures exists n :: LogRoundsTo(r, n)
  {
    hide Ten, Times;
    Positive(r, r);
    var k := BetweenPowers(Times(r, r));
    assert 2 * -k - 1 == -(2 * k + 1);
    LogRoundsBetween(r, -k, k);
  }

  lemma {:induction false} Scaled(a: real, b: real, c: real)
    requires c > 0.0
    ensures a < b <==> a * c < b * c
  {
  }

  ghost function NearestPower(r: real): (n: int)
    requires r > 0.0
    ensures LogRoundsTo(r, n)
  {
    LogRounds(r);
    var n :| LogRoundsTo(r, n);
    n
  }

  // ---------------------------------------------------------------- the digit-shift test

  ghost predicate LikelyDigitShift(computedTotal: Option<real>, paperTotal: Option<real>) {
    var computed, paper := RoundMoney(computedTotal), RoundMoney(paperTotal);
    if computed <= 0.0 || paper <= 0.0 || paper / computed <= 0.0 then false
    else
      var ratio := paper / computed;
      var nearest := NearestPower(ratio);
      (nearest == 1 || nearest == -1) && Abs(ratio / Ten(nearest) - 1.0) <= RATIO_TOLERANCE
  }

  predicate RoundingReasonAllowed(abs: real) { EPS < Abs(abs) <= ROUNDING_MAX + EPS }

  function SuggestedReason(v: Variance): Option<Reason> {
    if v.direction == Under && RoundingReasonAllowed(v.abs) then Some(RoundingDifference) else None
  }

  lemma {:induction false} SmallPowers()
    ensures Ten(-3) == 0.001 && Ten(-1) == 0.1 && Ten(1) == 10.0 && Ten(3) == 1000.0
  {
    assert Ten(0) == 1.0;
    assert Ten(2) == 100.0;
    assert Ten(-2) == 0.01;
  }

  lemma {:induction false} RatioOfCents(gr: int, bill: int, low: real, high: real)
    requires gr > 0
    ensures low <= Money(bill) / Money(gr) <= high <==> low * gr as real <= bill as real <= high * gr as real
  {
    var r := Money(bill) / Money(gr);
    assert r * gr as real == bill as real by { assert r * Money(gr) == Money(bill); }
    Scaled(r, low, gr as real);
    Scaled(high, r, gr as real);
  }

  lemma {:induction false} SquareBounds(r: real)
    ensures 9.8 <= r <= 10.2 ==> 10.0 <= r * r < 1000.0
    ensures 0.098 <= r <= 0.102 ==> 0.001 <= r * r < 0.1
  {
    if 9.8 <= r <= 10.2 { assert 96.0 <= r * r <= 105.0 by { Squares(9.8, r); Squares(r, 10.2); } }
    if 0.098 <= r <= 0.102 { assert 0.0096 <= r * r <= 0.0105 by { Squares(0.098, r); Squares(r, 0.102); } }
  }

  lemma {:induction false} Squares(a: real, b: real)
    requires 0.0 <= a <= b
    ensures a * a <= b * b
  {
  }

  /** The bill is within two per cent of ten times, or of one tenth of, the receipt; both in whole cents. */
  predicate WithinTwoPercent(gr: int, bill: int) {
    98 * gr <= 10 * bill <= 102 * gr || 98 * gr <= 1000 * bill <= 102 * gr
  }

  /** Rounding the logarithm and comparing with that power flags exactly these bills. */
  lemma {:induction false} DigitShiftExactly(computed: Option<real>, paper: Option<real>)
    ensures LikelyDigitShift(computed, paper) <==>
      CentsOf(computed) > 0 && CentsOf(paper) > 0 && WithinTwoPercent(CentsOf(computed), CentsOf(paper))
  {
    hide LogRoundsTo;
    var gr, bill := CentsOf(computed), CentsOf(paper);
    assert RoundMoney(computed) == Money(gr) && RoundMoney(paper) == Money(bill);
    if gr > 0 && bill > 0 {
      var r := Money(bill) / Money(gr);
      RatioOfCents(gr, bill, 9.8, 10.2);
      RatioOfCents(gr, bill, 0.098, 0.102);
      RatioPositive(gr, bill);
      ShiftedRatio(r);
    }
  }

  lemma {:induction false} RatioPositive(gr: int, bill: int)
    requires gr > 0 && bill > 0
    ensures Money(bill) / Money(gr) > 0.0
  {
  }

  lemma {:induction false} ShiftedRatio(r: real)
    requires r > 0.0
    ensures var n := NearestPower(r);
      ((n == 1 || n == -1) && Abs(r / Ten(n) - 1.0) <= RATIO_TOLERANCE) <==> (9.8 <= r <= 10.2 || 0.098 <= r <= 0.102)
  {
    SmallPowers();
    SquareBounds(r);
    var n := NearestPower(r);
    if 9.8 <= r <= 10.2 {
      assert LogRoundsTo(r, 1);
      LogRoundsOnce(r, n, 1);
    } else if 0.098 <= r <= 0.102 {
      assert LogRoundsTo(r, -1);
      LogRoundsOnce(r, n, -1);
    }
  }

  // ---------------------------------------------------------------- the two together

  /** Differences of one to a hundred cents may be called rounding. */
  lemma {:induction false} RoundingAllowedExactly(cents: int)
    ensures RoundingReasonAllowed(Money(cents)) <==> 1 <= cents <= 100 || -100 <= cents <= -1
  {
    assert 100.0 * Money(cents) == cents as real;
  }

  /** Rounding is suggested for bills below the receipt by one to a hundred cents. */
  lemma {:induction false} RoundingSuggestedExactly(computed: Option<real>, paper: Option<real>)
    ensures SuggestedReason(ResolveVariance(computed, paper, EPS)) == Some(RoundingDifference) <==>
      paper.Some? && paper.value > 0.0 && 1 <= CentsOf(computed) - CentsOf(paper) <= 100
  {
    DirectionComparesCents(computed, paper, EPS);
  }

  /** From 1.12 on, no bill looks like a digit shift and may also be explained as rounding. */
  lemma {:induction false} ShiftOrRounding(computed: Option<real>, paper: Option<real>)
    requires CentsOf(computed) >= 112
    ensures !(LikelyDigitShift(computed, paper) && RoundingReasonAllowed(ResolveVariance(computed, paper, EPS).abs))
  {
    hide LikelyDigitShift;
    DirectionComparesCents(computed, paper, EPS);
    DigitShiftExactly(computed, paper);
  }

  /** The bound is tight: a bill of 0.11 for a receipt of 1.11 is both. */
  lemma {:induction false} BothBelow()
    ensures LikelyDigitShift(Some(1.11), Some(0.11))
    ensures SuggestedReason(ResolveVariance(Some(1.11), Some(0.11), EPS)) == Some(RoundingDifference)
  {
    assert 1.11 == Money(111) && 0.11 == Money(11);
    CentsOfMoney(111);
    CentsOfMoney(11);
    DigitShiftExactly(Some(1.11), Some(0.11));
    RoundingSuggestedExactly(Some(1.11), Some(0.11));
  }
}
