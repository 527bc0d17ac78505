/**
 * Decimal amounts as integers.  An amount counts base units of some fixed decimal scale; `unit` is
 * the number of base units in the last decimal place an operation keeps, so a scale of any
 * precision is covered.  Addition and subtraction of decimals are exact.
 */
module Decimals {

  /** Rounding toward zero to a multiple of `unit`: cutting off the decimals that are not kept. */
  function Truncate(x: int, unit: nat): int
    requires unit >= 1
  {
    if x >= 0 then x - x % unit else -((-x) - (-x) % unit)
  }

  lemma CutNat(y: nat, unit: nat)
    requires unit >= 1
    ensures (y - y % unit) % unit == 0 && y - y % unit >= 0
  {
    MultipleHasNoRemainder(y / unit, unit);
    assert y - y % unit == (y / unit) * unit;
  }

  lemma NegatedStaysWhole(x: int, unit: nat)
    requires unit >= 1 && x % unit == 0
    ensures (-x) % unit == 0
  {
    MultipleHasNoRemainder(-(x / unit), unit);
    assert -x == (-(x / unit)) * unit;
  }

  /** Cutting decimals off loses less than one kept place, never grows, and is exact on kept places only. */
  lemma TruncateBounds(x: int, unit: nat)
    requires unit >= 1
    ensures Truncate(x, unit) % unit == 0
    ensures x >= 0 ==> 0 <= Truncate(x, unit) && x - unit < Truncate(x, unit) <= x
    ensures x <= 0 ==> x <= Truncate(x, unit) < x + unit
    ensures Truncate(x, unit) == x <==> x % unit == 0
  {
    if x >= 0 {
      CutNat(x, unit);
    } else {
      CutNat(-x, unit);
      NegatedStaysWhole(-x - (-x) % unit, unit);
      if x % unit == 0 {
        NegatedStaysWhole(x, unit);
      }
    }
  }

  lemma MultipleHasNoRemainder(q: int, unit: nat)
    requires unit >= 1
    ensures (q * unit) % unit == 0
  {
    DivisionIsUnique(q * unit, unit, q, 0);
  }

  lemma DivisionIsUnique(x: int, unit: nat, q: int, r: int)
    requires unit >= 1 && x == unit * q + r && 0 <= r < unit
    ensures x / unit == q && x % unit == r
  {
    SameQuotient(unit, q, r, x / unit, x % unit);
  }

  lemma SameQuotient(unit: nat, q: int, r: int, q': int, r': int)
    requires unit >= 1 && unit * q + r == unit * q' + r' && 0 <= r < unit && 0 <= r' < unit
    ensures q == q' && r == r'
  {
    assert unit * (q - q') == unit * q - unit * q';
    assert unit * (q' - q) == unit * q' - unit * q;
    if q > q' {
      AtLeastOnce(unit, q - q');
    } else if q < q' {
      AtLeastOnce(unit, q' - q);
    }
  }

  lemma AtLeastOnce(unit: nat, k: int)
    requires k >= 1
    ensures unit * k >= unit
  {
  }

  /** Whole places stay whole under addition. */
  lemma WholePlacesAdd(x: int, y: int, unit: nat)
    requires unit >= 1 && x % unit == 0 && y % unit == 0
    ensures (x + y) % unit == 0
  {
    assert x + y == (x / unit + y / unit) * unit;
    MultipleHasNoRemainder(x / unit + y / unit, unit);
  }

  lemma PartIsWhole(x: int, y: int, unit: nat)
    requires unit >= 1 && (x + y) % unit == 0 && y % unit == 0
    ensures x % unit == 0
  {
    var k := (x + y) / unit - y / unit;
    assert x == k * unit;
    MultipleHasNoRemainder(k, unit);
  }

  /** Cutting a sum keeps all of it exactly when the first part has no decimals to cut, if the second has none. */
  lemma CutSum(x: nat, y: nat, unit: nat)
    requires unit >= 1 && y % unit == 0
    ensures var cut := Truncate(x + y, unit);
            cut % unit == 0 && 0 <= cut <= x + y && (x % unit == 0 <==> cut == x + y)
  {
    TruncateBounds(x + y, unit);
    if x % unit == 0 {
      WholePlacesAdd(x, y, unit);
    }
    if (x + y) % unit == 0 {
      PartIsWhole(x, y, unit);
    }
  }
}
