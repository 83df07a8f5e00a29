/**
 The two value types the fee rate converts between. Only the accessors the
 fee-rate code calls are modelled; their own modules are not part of this model.
 */
module Amounts {
  import opened Unsigned

  /** A monetary amount, a count of satoshis held in a `u64`. */
  datatype Amount = Amount(sat: U64)

  /** `Amount::from_sat`. */
  function FromSat(sat: U64): (a: Amount)
    ensures ToSat(a) == sat
  {
    Amount(sat)
  }

  /** `Amount::to_sat`. */
  function ToSat(a: Amount): U64
  {
    a.sat
  }
}

module Weights {
  import opened Unsigned

  /** A transaction weight, a count of weight units held in a `u64`. */
  datatype Weight = Weight(wu: U64)

  /** `Weight::MAX`: the largest weight a `u64` can count. */
  const MAX: Weight := Weight(U64_MAX)

  /** `Weight::from_wu`. */
  function FromWu(wu: U64): (w: Weight)
    ensures ToWu(w) == wu
  {
    Weight(wu)
  }

  /** `Weight::to_wu`. */
  function ToWu(w: Weight): U64
  {
    w.wu
  }
}
