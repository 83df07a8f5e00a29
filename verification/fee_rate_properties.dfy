/**
 Properties of the fee-rate model that relate several operations: round trips,
 inverse pairs, rounding bounds, monotonicity of the fee, and the concrete
 values the source's unit tests pin down.
 */
module FeeRateProperties {
  import opened Wrappers
  import opened Unsigned
  import opened Amounts
  import opened Weights
  import opened FeeRates

  // ---------------------------------------------------------------- constants and round trip

  /** The named constants hold the raw values the source documents. */
  lemma ConstantValues()
    ensures ZERO == MIN && ToSatPerKwu(ZERO) == 0
    ensures ToSatPerKwu(FeeRates.MAX) == U64_MAX
    ensures ToSatPerKwu(BROADCAST_MIN) == 250 && ToSatPerVbFloor(BROADCAST_MIN) == 1
    ensures ToSatPerKwu(DUST) == 750 && ToSatPerVbFloor(DUST) == 3
  {
  }

  /** Building from a raw value and reading it back are inverse, both ways round. */
  lemma KwuRoundTrip(satKwu: U64, rate: FeeRate)
    ensures ToSatPerKwu(FromSatPerKwu(satKwu)) == satKwu
    ensures FromSatPerKwu(ToSatPerKwu(rate)) == rate
  {
  }

  /** The construction examples of the unit tests. */
  lemma ConstructionExamples()
    ensures FromSatPerVb(10) == Some(FeeRate(2500))
    ensures FromSatPerVb(U64_MAX).None?
    ensures FromSatPerVbUnchecked(10) == FeeRate(2500)
    ensures FromSatPerKvb(10) == FeeRate(2)
  {
  }

  // ---------------------------------------------------------------- floor and ceiling

  /**
   The rounded-up and rounded-down sat/vB values differ by at most one, and
   they agree exactly when the rate is a whole number of sat/vB.
   */
  lemma CeilFloorGap(rate: FeeRate)
    ensures ToSatPerVbCeilTotal(rate) - ToSatPerVbFloor(rate) in {0, 1}
    ensures ToSatPerVbCeilTotal(rate) == ToSatPerVbFloor(rate) <==> rate.kwu % VB_SCALE == 0
  {
    var c := ToSatPerVbCeilTotal(rate);
    var f := ToSatPerVbFloor(rate);
    assert rate.kwu == f * VB_SCALE + rate.kwu % VB_SCALE;
  }

  /** The same gap for the ceiling as the source computes it, where it is defined. */
  lemma CeilFloorGapChecked(rate: FeeRate)
    requires rate.kwu + (VB_SCALE - 1) <= U64_MAX
    ensures ToSatPerVbCeil(rate) - ToSatPerVbFloor(rate) in {0, 1}
    ensures ToSatPerVbCeil(rate) == ToSatPerVbFloor(rate) <==> rate.kwu % VB_SCALE == 0
  {
    CeilFloorGap(rate);
  }

  /** The rounding example of the unit tests: 333 sat/kwu is between 1 and 2 sat/vB. */
  lemma RoundingExample()
    ensures ToSatPerKwu(FeeRate(333)) == 333
    ensures ToSatPerVbFloor(FeeRate(333)) == 1
    ensures ToSatPerVbCeil(FeeRate(333)) == 2
  {
  }

  /**
   As written, the rounded-up conversion overflows on a rate that `FromSatPerVb`
   itself produces, because `u64::MAX` is 115 more than a multiple of 250; a
   release build wraps and reports 0 sat/vB for the largest rate.
   */
  lemma CeilOverflowsOnRepresentableRate()
    ensures FromSatPerVb(U64_MAX / VB_SCALE).Some?
    ensures FromSatPerVb(U64_MAX / VB_SCALE).value.kwu + (VB_SCALE - 1) > U64_MAX
    ensures ToSatPerVbCeilWrapping(FeeRates.MAX) == 0 < ToSatPerVbFloor(FeeRates.MAX)
  {
  }

  // ---------------------------------------------------------------- checked arithmetic

  /** Checked addition and checked subtraction of the same amount undo each other. */
  lemma CheckedAddSubInverse(a: FeeRate, x: U64, b: FeeRate)
    ensures CheckedAdd(a, x) == Some(b) <==> CheckedSub(b, x) == Some(a)
  {
  }

  /** Checked division undoes a checked multiplication by the same non-zero factor. */
  lemma CheckedMulDivInverse(a: FeeRate, x: U64)
    requires x != 0
    requires CheckedMul(a, x).Some?
    ensures CheckedDiv(CheckedMul(a, x).value, x) == Some(a)
  {
    DivUnique(a.kwu * x, x, a.kwu);
  }

  /** The checked addition and subtraction examples of the unit tests. */
  lemma CheckedAddSubExamples()
    ensures CheckedAdd(FeeRate(1), 2) == Some(FeeRate(3))
    ensures CheckedAdd(FeeRates.MAX, 1).None?
    ensures CheckedSub(FeeRate(2), 1) == Some(FeeRate(1))
    ensures CheckedSub(ZERO, 1).None?
  {
  }

  /** The checked multiplication examples of the unit tests. */
  lemma CheckedMulExamples()
    ensures CheckedMul(FeeRate(10), 10) == Some(FeeRate(100))
    ensures CheckedMul(FeeRate(10), U64_MAX).None?
  {
  }

  /** The checked division examples of the unit tests. */
  lemma CheckedDivExamples()
    ensures CheckedDiv(FeeRate(10), 10) == Some(FeeRate(1))
    ensures CheckedDiv(FeeRate(10), 0).None?
  {
  }

  // ---------------------------------------------------------------- fee computation

  /** No smaller amount covers the weight: the rounded-up fee is the least sufficient one. */
  lemma FeeIsLeastSufficient(rate: FeeRate, weight: Weight, amount: Amount)
    requires CheckedMulByWeight(rate, weight).Some?
    requires ToSat(amount) * 1000 >= rate.kwu * ToWu(weight)
    ensures ToSat(CheckedMulByWeight(rate, weight).value) <= ToSat(amount)
  {
  }

  /** A lower rate never costs more for the same weight, and fits whenever the higher one does. */
  lemma FeeMonotoneInRate(low: FeeRate, high: FeeRate, weight: Weight)
    requires low.kwu <= high.kwu
    requires CheckedMulByWeight(high, weight).Some?
    ensures CheckedMulByWeight(low, weight).Some?
    ensures ToSat(CheckedMulByWeight(low, weight).value) <= ToSat(CheckedMulByWeight(high, weight).value)
  {
    MulMonotone(low.kwu, high.kwu, ToWu(weight));
    FeeIsLeastSufficient(low, weight, CheckedMulByWeight(high, weight).value);
  }

  /** A lighter weight never costs more at the same rate, and fits whenever the heavier one does. */
  lemma FeeMonotoneInWeight(rate: FeeRate, light: Weight, heavy: Weight)
    requires ToWu(light) <= ToWu(heavy)
    requires CheckedMulByWeight(rate, heavy).Some?
    ensures CheckedMulByWeight(rate, light).Some?
    ensures ToSat(CheckedMulByWeight(rate, light).value) <= ToSat(CheckedMulByWeight(rate, heavy).value)
  {
    MulMonotone(ToWu(light), ToWu(heavy), rate.kwu);
    assert rate.kwu * ToWu(light) <= rate.kwu * ToWu(heavy);
    FeeIsLeastSufficient(rate, light, CheckedMulByWeight(rate, heavy).value);
  }

  /**
   A rate given in whole sat/vB charges exactly rate * size for a size in
   vbytes, with nothing rounded, when the size converts at 4 weight units per
   vbyte.
   */
  lemma FeeVbOfPerVbRateIsExact(satVb: U64, vb: U64, fromVb: U64 -> Option<Weight>)
    requires FromSatPerVb(satVb).Some?
    requires fromVb(vb).Some? && ToWu(fromVb(vb).value) == 4 * vb
    requires FeeVb(FromSatPerVb(satVb).value, vb, fromVb).Some?
    ensures ToSat(FeeVb(FromSatPerVb(satVb).value, vb, fromVb).value) == satVb * vb
  {
    var rate := FromSatPerVb(satVb).value;
    var fee := ToSat(FeeVb(rate, vb, fromVb).value);
    assert rate.kwu * ToWu(fromVb(vb).value) == (satVb * vb) * 1000 by {
      assert rate.kwu == satVb * 250;
    }
  }

  /** The fee examples of the unit tests. */
  lemma FeeExamples()
    ensures CheckedMulByWeight(FromSatPerVb(10).value, FromWu(40)) == Some(FromSat(100))
    ensures CheckedMulByWeight(FeeRate(10), Weights.MAX).None?
    ensures CheckedMulByWeight(FromSatPerVb(3).value, FromWu(12)) == Some(FromSat(9))
    ensures CheckedMulByWeight(FromSatPerKwu(864), FromWu(381)) == Some(FromSat(330))
  {
  }

  // ---------------------------------------------------------------- operators

  /** Raw addition is commutative. */
  lemma AddCommutes(a: FeeRate, b: FeeRate)
    requires a.kwu + b.kwu <= U64_MAX
    ensures Add(a, b) == Add(b, a)
  {
  }

  /** Subtracting what was added gives the original rate back. */
  lemma AddSubRoundTrip(a: FeeRate, b: FeeRate)
    requires a.kwu + b.kwu <= U64_MAX
    ensures Sub(Add(a, b), b) == a
  {
  }

  /** The operator examples of the unit tests. */
  lemma OperatorExamples()
    ensures Add(FeeRate(1), FeeRate(2)) == FeeRate(3)
    ensures Sub(FeeRate(3), FeeRate(2)) == FeeRate(1)
    ensures AddAssign(FeeRate(1), FeeRate(2)) == FeeRate(3)
    ensures SubAssign(FeeRate(3), FeeRate(2)) == FeeRate(1)
  {
  }

  /** `FeeRate * Weight` and `Weight * FeeRate` give the same amount. */
  lemma MulIsSymmetric(rate: FeeRate, weight: Weight)
    requires rate.kwu * ToWu(weight) + 999 <= U64_MAX
    ensures MulRateByWeight(rate, weight) == MulWeightByRate(weight, rate)
  {
  }

  /**
   Dividing an amount by a weight and charging the resulting rate for that
   weight never costs more than the amount; for weights of at most 1000 weight
   units it gives the amount back exactly.
   */
  lemma DivThenMulNeverExceeds(amount: Amount, weight: Weight)
    requires ToWu(weight) != 0
    requires ToSat(amount) * 1000 + 999 <= U64_MAX
    ensures CheckedMulByWeight(DivAmountByWeight(amount, weight), weight).Some?
    ensures ToSat(CheckedMulByWeight(DivAmountByWeight(amount, weight), weight).value) <= ToSat(amount)
    ensures ToWu(weight) <= 1000 ==>
              CheckedMulByWeight(DivAmountByWeight(amount, weight), weight) == Some(amount)
  {
    var rate := DivAmountByWeight(amount, weight);
    var product := rate.kwu * ToWu(weight);
    assert product <= ToSat(amount) * 1000;
    var fee := CheckedMulByWeight(rate, weight).value;
    FeeIsLeastSufficient(rate, weight, amount);
    if ToWu(weight) <= 1000 {
      assert ToSat(amount) * 1000 < product + 1000;
      assert ToSat(fee) * 1000 >= product;
    }
  }

  /** The division example of the unit tests. */
  lemma DivExample()
    ensures DivAmountByWeight(FromSat(329), FromWu(381)) == FeeRate(863)
  {
  }
}
