/**
  Exact non-negative decimals: `Dec(coef, exp)` is coef times ten to the exp,
  the value of Python's Decimal(str(amount)).
 */
module Decimals {

  /** c times ten to the k. */
  function Shift(c: nat, k: nat): nat {
    if k == 0 then c else 10 * Shift(c, k - 1)
  }

  lemma {:induction false} ShiftGrows(c: nat, k: nat)
    ensures Shift(c, k) >= c
  {
    if k > 0 { ShiftGrows(c, k - 1); }
  }

  function Pow10(k: nat): (p: nat)
    ensures p >= 1
  {
    ShiftGrows(1, k);
    Shift(1, k)
  }

  datatype Dec = Dec(coef: nat, exp: int)

  const Zero: Dec := Dec(0, 0)

  /** x divided by ten to the k. */
  function Down(x: real, k: nat): (v: real)
    ensures x >= 0.0 ==> v >= 0.0
  {
    if k == 0 then x else Down(x, k - 1) / 10.0
  }

  /** The rational value. */
  function Val(d: Dec): (v: real)
    ensures v >= 0.0
  {
    if d.exp >= 0 then Shift(d.coef, d.exp) as real else Down(d.coef as real, -d.exp)
  }

  /** The coefficient of `d` written with the smaller exponent `exp`. */
  function CoefAt(d: Dec, exp: int): nat
    requires exp <= d.exp
  {
    Shift(d.coef, d.exp - exp)
  }

  function Min(a: int, b: int): int { if a <= b then a else b }

  /** Exact decimal addition: align on the smaller exponent and add. */
  function Add(a: Dec, b: Dec): Dec {
    var exp := Min(a.exp, b.exp);
    Dec(CoefAt(a, exp) + CoefAt(b, exp), exp)
  }

  // ---- Shifting -----------------------------------------------------------------

  lemma {:induction false} ShiftShift(c: nat, j: nat, k: nat)
    ensures Shift(Shift(c, j), k) == Shift(c, j + k)
  {
    if k > 0 { ShiftShift(c, j, k - 1); }
  }

  lemma {:induction false} ShiftAdds(a: nat, b: nat, k: nat)
    ensures Shift(a + b, k) == Shift(a, k) + Shift(b, k)
  {
    if k > 0 { ShiftAdds(a, b, k - 1); }
  }

  lemma {:induction false} ShiftOrder(a: nat, b: nat, k: nat)
    ensures a < b <==> Shift(a, k) < Shift(b, k)
    ensures a < b ==> Shift(a, k) + Pow10(k) <= Shift(b, k)
  {
    if k > 0 { ShiftOrder(a, b, k - 1); }
  }

  /** Shifting is multiplication by a power of ten. */
  lemma {:induction false} ShiftIsProduct(c: nat, k: nat)
    ensures Shift(c, k) == c * Pow10(k)
  {
    if k > 0 {
      ShiftIsProduct(c, k - 1);
      assert 10 * (c * Pow10(k - 1)) == c * (10 * Pow10(k - 1));
    }
  }

  // ---- Values -------------------------------------------------------------------

  lemma {:induction false} DownTen(x: real, k: nat)
    ensures Down(10.0 * x, k) == 10.0 * Down(x, k)
  {
    if k > 0 { DownTen(x, k - 1); }
  }

  lemma {:induction false} DownAdds(x: real, y: real, k: nat)
    ensures Down(x + y, k) == Down(x, k) + Down(y, k)
  {
    if k > 0 { DownAdds(x, y, k - 1); }
  }

  lemma {:induction false} DownOrder(x: real, y: real, k: nat)
    ensures x < y <==> Down(x, k) < Down(y, k)
  {
    if k > 0 { DownOrder(x, y, k - 1); }
  }

  lemma RescaleOne(c: nat, exp: int)
    ensures Val(Dec(10 * c, exp - 1)) == Val(Dec(c, exp))
  {
    if exp > 0 {
      ShiftShift(c, 1, exp - 1);
    } else {
      DownTen(c as real, -exp);
      assert (10 * c) as real == 10.0 * c as real;
      assert Down((10 * c) as real, 1 - exp) == Down((10 * c) as real, -exp) / 10.0;
    }
  }

  lemma {:induction false} RescaleBy(c: nat, exp: int, k: nat)
    ensures Val(Dec(Shift(c, k), exp - k)) == Val(Dec(c, exp))
  {
    if k > 0 {
      RescaleBy(c, exp, k - 1);
      RescaleOne(Shift(c, k - 1), exp - (k - 1));
    }
  }

  /** Rewriting a decimal with a smaller exponent keeps its value. */
  lemma Rescale(d: Dec, exp: int)
    requires exp <= d.exp
    ensures Val(Dec(CoefAt(d, exp), exp)) == Val(d)
  {
    RescaleBy(d.coef, d.exp, d.exp - exp);
  }

  lemma SameExponentAdds(a: nat, b: nat, exp: int)
    ensures Val(Dec(a + b, exp)) == Val(Dec(a, exp)) + Val(Dec(b, exp))
  {
    if exp >= 0 { ShiftAdds(a, b, exp); } else { DownAdds(a as real, b as real, -exp); }
  }

  lemma SameExponentOrder(a: nat, b: nat, exp: int)
    ensures a < b <==> Val(Dec(a, exp)) < Val(Dec(b, exp))
  {
    if exp >= 0 { ShiftOrder(a, b, exp); } else { DownOrder(a as real, b as real, -exp); }
  }

  /** Decimal addition is the sum of the values. */
  lemma AddExact(a: Dec, b: Dec)
    ensures Val(Add(a, b)) == Val(a) + Val(b)
  {
    var exp := Min(a.exp, b.exp);
    Rescale(a, exp);
    Rescale(b, exp);
    SameExponentAdds(CoefAt(a, exp), CoefAt(b, exp), exp);
  }

  /** Aligned coefficients order decimals as their values do. */
  lemma OrderExact(a: Dec, b: Dec, exp: int)
    requires exp <= a.exp && exp <= b.exp
    ensures CoefAt(a, exp) < CoefAt(b, exp) <==> Val(a) < Val(b)
  {
    Rescale(a, exp);
    Rescale(b, exp);
    SameExponentOrder(CoefAt(a, exp), CoefAt(b, exp), exp);
  }
}
