/**
  The 1000-digit context of _decimal_sum: addition rounds half-even to the
  context precision, and for any feasible run of amounts it never has to.
 */
module DecimalContext {
  import opened Decimals
  import opened DecimalText

  function DigitCount(n: nat): nat { |NatText(n)| }

  function HalfEven(n: nat, unit: nat): nat
    requires unit >= 1
  {
    var q, r := n / unit, n % unit;
    if 2 * r > unit || (2 * r == unit && q % 2 == 1) then q + 1 else q
  }

  /** Round to `prec` significant digits. */
  function Round(prec: nat, d: Dec): Dec {
    if DigitCount(d.coef) <= prec then d
    else
      var k := DigitCount(d.coef) - prec;
      Dec(HalfEven(d.coef, Pow10(k)), d.exp + k)
  }

  /** Half-even rounding: the nearest multiple of the unit, and of two equally near ones the even one. */
  lemma HalfEvenIsNearest(n: nat, unit: nat)
    requires unit >= 1
    ensures var q := HalfEven(n, unit);
      && 2 * q * unit <= 2 * n + unit && 2 * n <= 2 * q * unit + unit
      && (2 * q * unit == 2 * n + unit || 2 * n == 2 * q * unit + unit ==> q % 2 == 0)
  {
    var q, r := n / unit, n % unit;
    assert n == q * unit + r;
    assert (q + 1) * unit == q * unit + unit;
    assert 2 * (q * unit) == 2 * q * unit;
    assert 2 * ((q + 1) * unit) == 2 * (q + 1) * unit;
  }

  /** Addition in a context of `prec` digits. */
  function ContextSum(prec: nat, a: Dec, b: Dec): Dec {
    Round(prec, Add(a, b))
  }

  /**
    Addition in the context is the true sum where it fits; otherwise its leading
    digits, as many as the context has, rounded to the nearest and on a tie to even.
   */
  lemma ContextSumIsNearest(prec: nat, a: Dec, b: Dec)
    ensures var sum, r := Add(a, b), ContextSum(prec, a, b);
      if DigitCount(sum.coef) <= prec then r == sum
      else
        var k := DigitCount(sum.coef) - prec;
        && r.exp == sum.exp + k
        && 2 * r.coef * Pow10(k) <= 2 * sum.coef + Pow10(k) && 2 * sum.coef <= 2 * r.coef * Pow10(k) + Pow10(k)
        && (2 * r.coef * Pow10(k) == 2 * sum.coef + Pow10(k) || 2 * sum.coef == 2 * r.coef * Pow10(k) + Pow10(k)
            ==> r.coef % 2 == 0)
  {
    var sum := Add(a, b);
    if DigitCount(sum.coef) > prec {
      HalfEvenIsNearest(sum.coef, Pow10(DigitCount(sum.coef) - prec));
    }
  }

  /** The total after a run of amounts, summed one by one in the context. */
  function RunningTotal(prec: nat, amounts: seq<Dec>): Dec {
    if amounts == [] then Zero
    else ContextSum(prec, RunningTotal(prec, amounts[..|amounts| - 1]), amounts[|amounts| - 1])
  }

  function TrueSum(amounts: seq<Dec>): real {
    if amounts == [] then 0.0
    else TrueSum(amounts[..|amounts| - 1]) + Val(amounts[|amounts| - 1])
  }

  /** A multiple of 10^-scale that is below 10^size. */
  ghost predicate Fits(d: Dec, scale: nat, size: nat) {
    d.exp >= -(scale as int) && CoefAt(d, -(scale as int)) < Pow10(size + scale)
  }

  lemma FitsMeaning(d: Dec, scale: nat, size: nat)
    requires d.exp >= -(scale as int)
    ensures Fits(d, scale, size) <==> Val(d) < Pow10(size) as real
  {
    var low := -(scale as int);
    Rescale(d, low);
    Rescale(Dec(1, size), low);
    SameExponentOrder(CoefAt(d, low), Pow10(size + scale), low);
  }

  lemma {:induction false} DigitCountBound(n: nat, k: nat)
    requires n < Pow10(k) && k >= 1
    ensures DigitCount(n) <= k
  {
    if n >= 10 {
      DigitCountBound(n / 10, k - 1);
    }
  }

  lemma AddAligned(a: Dec, b: Dec, exp: int)
    requires exp <= a.exp && exp <= b.exp
    ensures exp <= Add(a, b).exp
    ensures CoefAt(Add(a, b), exp) == CoefAt(a, exp) + CoefAt(b, exp)
  {
    var e := Add(a, b).exp;
    ShiftAdds(CoefAt(a, e), CoefAt(b, e), e - exp);
    ShiftShift(a.coef, a.exp - e, e - exp);
    ShiftShift(b.coef, b.exp - e, e - exp);
  }

  /** n + 1 amounts of at most 10^exponent units each stay below 10^(count + exponent) units. */
  lemma TotalBelow(c: nat, d: nat, n: nat, count: nat, exponent: nat)
    requires n + 1 <= Pow10(count) && c <= Shift(n, exponent) && d < Pow10(exponent)
    ensures c + d < Shift(n + 1, exponent) <= Pow10(count + exponent)
  {
    ShiftAdds(n, 1, exponent);
    ShiftOrder(Pow10(count), n + 1, exponent);
    ShiftShift(1, count, exponent);
  }

  // The aligned coefficient of the total grows by less than one maximal amount per call.
  lemma {:induction false} TotalStaysSmall(prec: nat, amounts: seq<Dec>, scale: nat, size: nat, count: nat)
    requires |amounts| <= Pow10(count) && count + size + scale <= prec && prec >= 1
    requires forall i :: 0 <= i < |amounts| ==> Fits(amounts[i], scale, size)
    ensures var total := RunningTotal(prec, amounts);
      && total.exp >= -(scale as int)
      && CoefAt(total, -(scale as int)) <= Shift(|amounts|, size + scale)
      && Val(total) == TrueSum(amounts)
  {
    if amounts == [] {
      ShiftZero(scale);
    } else {
      var n := |amounts| - 1;
      var total, last := RunningTotal(prec, amounts[..n]), amounts[n];
      TotalStaysSmall(prec, amounts[..n], scale, size, count);
      OneMore(prec, total, last, n, scale, size, count);
    }
  }

  lemma OneMore(prec: nat, total: Dec, last: Dec, n: nat, scale: nat, size: nat, count: nat)
    requires n + 1 <= Pow10(count) && count + size + scale <= prec && prec >= 1
    requires total.exp >= -(scale as int) && CoefAt(total, -(scale as int)) <= Shift(n, size + scale)
    requires Fits(last, scale, size)
    ensures ContextSum(prec, total, last) == Add(total, last)
    ensures Add(total, last).exp >= -(scale as int)
    ensures CoefAt(Add(total, last), -(scale as int)) <= Shift(n + 1, size + scale)
    ensures Val(Add(total, last)) == Val(total) + Val(last)
  {
    var low := -(scale as int);
    AddAligned(total, last, low);
    AddExact(total, last);
    TotalBelow(CoefAt(total, low), CoefAt(last, low), n, count, size + scale);
    AlignedFits(Add(total, last), low, count + (size + scale), prec);
  }

  lemma AlignedFits(sum: Dec, low: int, k: nat, prec: nat)
    requires low <= sum.exp && CoefAt(sum, low) < Pow10(k) && k <= prec && prec >= 1
    ensures DigitCount(sum.coef) <= prec
  {
    ShiftGrows(sum.coef, sum.exp - low);
    ShiftShift(1, k, prec - k);
    ShiftGrows(Pow10(k), prec - k);
    DigitCountBound(sum.coef, prec);
  }

  /**
    No rounding: in a context of `prec` digits, any run of at most 10^count
    amounts, each a multiple of 10^-scale below 10^size, is summed exactly when
    the three exponents fit the precision together.
   */
  lemma {:induction false} ContextNeverRounds(prec: nat, amounts: seq<Dec>, scale: nat, size: nat, count: nat)
    requires |amounts| <= Pow10(count) && count + size + scale <= prec && prec >= 1
    requires forall i :: 0 <= i < |amounts| ==> Fits(amounts[i], scale, size)
    ensures Val(RunningTotal(prec, amounts)) == TrueSum(amounts)
  {
    TotalStaysSmall(prec, amounts, scale, size, count);
  }

  // The smallest subnormal is a multiple of 10^-324, every finite value is below 10^309.
  const PRECISION: nat := 1000
  const BINARY64_SCALE: nat := 324
  const BINARY64_SIZE: nat := 309
  const RUN_LENGTH_DIGITS: nat := 300

  /** The context of _decimal_sum sums any run of finite binary64 amounts exactly. */
  lemma {:induction false} DecimalSumExact(amounts: seq<Dec>)
    requires |amounts| <= Pow10(RUN_LENGTH_DIGITS)
    requires forall i :: 0 <= i < |amounts| ==> Fits(amounts[i], BINARY64_SCALE, BINARY64_SIZE)
    ensures PRECISION == 1000 && Val(RunningTotal(1000, amounts)) == TrueSum(amounts)
  {
    ContextNeverRounds(PRECISION, amounts, BINARY64_SCALE, BINARY64_SIZE, RUN_LENGTH_DIGITS);
  }
}
