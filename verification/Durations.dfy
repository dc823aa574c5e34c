/** Duration helpers that must survive any client-supplied count. */
module Durations {
  import opened MachineInts

  function MulDurationSaturating(count: uint64, unit: int64): int64 {
    if unit <= 0 || count == 0 then 0
    else if count > TruncDiv(MAX_INT64, unit) then MAX_INT64
    else
      Signed64(Signed64(count) * unit)
  }

  function CeilDivDuration(d: int64, unit: int64): int64 {
    if unit <= 0 then 1
    else
      var result := TruncDiv(Signed64(Signed64(d + unit) - 1), unit);
      if result <= 0 then 1 else result
  }

  function SafeIntToUint(v: int64): uint64 {
    if v <= 0 then 1 else v
  }

  /** The product, or the largest duration when the product does not fit: never a wrapped value. */
  lemma MulSaturates(count: uint64, unit: int64)
    ensures MulDurationSaturating(count, unit) == if unit <= 0 then 0 else Min(count * unit, MAX_INT64)
  {
    hide Signed64;
    if unit > 0 && count > 0 {
      var most := MAX_INT64 / unit;
      QuotientBounds(MAX_INT64, unit);
      if count > most {
        MulMono(most + 1, count, unit);
      } else {
        MulMono(count, most, unit);
        MulMono(1, unit, count);
        SignedFits(count);
        SignedFits(count * unit);
      }
    }
  }

  /** d/unit rounded up. */
  function Ceil(d: int, unit: int): int
    requires unit > 0
  {
    -((-d) / unit)
  }

  lemma CeilBounds(d: int, unit: int)
    requires unit > 0
    ensures (Ceil(d, unit) - 1) * unit < d <= Ceil(d, unit) * unit
    ensures d <= unit <==> Ceil(d, unit) <= 1
  {
    var c := Ceil(d, unit);
    QuotientBounds(-d, unit);
    assert (-c) * unit == -(c * unit) && (c - 1) * unit == c * unit - unit;
    hide Ceil;
    if c <= 1 {
      MulMono(c, 1, unit);
    } else {
      MulMono(1, c - 1, unit);
    }
  }

  /** The sum of the divisor and the dividend, less one, as the machine sees it. */
  lemma DividendWraps(d: int64, unit: int64)
    requires unit > 0
    ensures Signed64(Signed64(d + unit) - 1) ==
      if d + unit - 1 <= MAX_INT64 then d + unit - 1 else d + unit - 1 - TWO_64
  {
    if d + unit <= MAX_INT64 {
      SignedFits(d + unit);
      SignedFits(d + unit - 1);
    } else {
      assert (d + unit) % TWO_64 == d + unit;
      assert Signed64(d + unit) == d + unit - TWO_64;
      if d + unit - 1 <= MAX_INT64 {
        assert (-TWO_63 - 1) % TWO_64 == TWO_63 - 1;
      } else {
        SignedFits(d + unit - 1 - TWO_64);
      }
    }
  }

  /** The rounding up is exact unless adding the unit overflows, which reads as 1. */
  lemma CeilExactlyWhenItFits(d: int64, unit: int64)
    requires unit > 0
    ensures CeilDivDuration(d, unit) == Max(1, Ceil(d, unit)) <==> d <= unit || d + unit - 1 <= MAX_INT64
    ensures CeilDivDuration(d, unit) != Max(1, Ceil(d, unit)) ==> CeilDivDuration(d, unit) == 1
  {
    DividendWraps(d, unit);
    CeilBounds(d, unit);
    if d + unit - 1 <= MAX_INT64 {
      CeilByAdding(d, unit);
    } else {
      NegativeTruncates(d + unit - 1 - TWO_64, unit);
    }
    hide Signed64, Ceil, TruncDiv;
  }

  lemma NegativeTruncates(a: int, b: int)
    requires a < 0 && b > 0
    ensures TruncDiv(a, b) <= 0
  {
  }

  /** Adding the unit less one and rounding towards zero, with a least value of one. */
  lemma CeilByAdding(d: int, unit: int)
    requires unit > 0
    ensures Max(1, TruncDiv(d + unit - 1, unit)) == Max(1, Ceil(d, unit))
  {
    var c := Ceil(d, unit);
    CeilBounds(d, unit);
    hide Ceil;
    if d + unit - 1 >= 0 {
      assert (c - 1) * unit == c * unit - unit;
      Quotient(d + unit - 1, unit, c, d + unit - 1 - c * unit);
    }
  }
}
