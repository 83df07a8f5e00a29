/**
 The `FeeRate` newtype: a fee rate in satoshis per 1000 weight units (sat/kwu),
 its unit conversions, its checked arithmetic, the rounded-up fee it charges
 for a weight, and its operator overloads.

 One virtual byte is four weight units (section "Transaction size
 calculations" of BIP 141), so 1 sat/vB is 1000 / 4 = 250 sat/kwu.

 The source's unchecked operators overflow by panicking in debug builds and by
 wrapping in release builds; here each carries the no-overflow condition as a
 `requires` instead.
 */
module FeeRates {
  import opened Wrappers
  import opened Unsigned
  import opened Amounts
  import opened Weights

  /** A fee rate in sat/kwu. Equality is that of the raw value. */
  datatype FeeRate = FeeRate(kwu: U64)

  /** sat/kwu per sat/vB: 1000 weight units over 4 weight units per vbyte. */
  const VB_SCALE: nat := 1000 / 4

  /** 0 sat/kwu. */
  const ZERO: FeeRate := FeeRate(0)

  /** The smallest fee rate, the same value as `ZERO`. */
  const MIN: FeeRate := ZERO

  /** The largest fee rate, `u64::MAX` sat/kwu. */
  const MAX: FeeRate := FeeRate(U64_MAX)

  /** The relay policy's minimum broadcast rate, 1 sat/vB. */
  const BROADCAST_MIN: FeeRate := FromSatPerVbUnchecked(1)

  /** The rate used to price dust outputs, 3 sat/vB. */
  const DUST: FeeRate := FromSatPerVbUnchecked(3)

  // ---------------------------------------------------------------- construction

  /** Builds a fee rate from a raw sat/kwu value; never fails. */
  function FromSatPerKwu(satKwu: U64): (r: FeeRate)
    ensures ToSatPerKwu(r) == satKwu
  {
    FeeRate(satKwu)
  }

  /** Builds a fee rate from sat/vB, absent when scaling to sat/kwu overflows. */
  function FromSatPerVb(satVb: U64): (r: Option<FeeRate>)
    ensures r.None? <==> satVb * VB_SCALE > U64_MAX
    ensures r.Some? ==> r.value.kwu == satVb * VB_SCALE
    ensures r.Some? ==> ToSatPerVbFloor(r.value) == satVb
    ensures r.Some? ==> ToSatPerVbCeilTotal(r.value) == satVb
  {
    match CheckedMulU64(satVb, VB_SCALE)
    case Some(kwu) => Some(FeeRate(kwu))
    case None => None
  }

  /** Builds a fee rate from sat/vB with no overflow check; the caller must rule overflow out. */
  function FromSatPerVbUnchecked(satVb: U64): (r: FeeRate)
    requires satVb * VB_SCALE <= U64_MAX
    ensures FromSatPerVb(satVb) == Some(r)
  {
    FeeRate(satVb * VB_SCALE)
  }

  /** Builds a fee rate from sat/kvB, truncating: sub-kvB precision is dropped. */
  function FromSatPerKvb(satKvb: U64): (r: FeeRate)
    ensures r.kwu * 4 <= satKvb < (r.kwu + 1) * 4
    ensures r.kwu <= satKvb
  {
    FeeRate(satKvb / 4)
  }

  // ---------------------------------------------------------------- extraction

  /** The raw sat/kwu value; also what the conversion into `u64` yields. */
  function ToSatPerKwu(rate: FeeRate): (r: U64)
    ensures FeeRate(r) == rate
  {
    rate.kwu
  }

  /** The rate in sat/vB, rounded down. */
  function ToSatPerVbFloor(rate: FeeRate): (r: U64)
    ensures r * VB_SCALE <= rate.kwu < (r + 1) * VB_SCALE
  {
    rate.kwu / VB_SCALE
  }

  /**
   The rate in sat/vB, rounded up, as the source computes it: `kwu + 249` is an
   unchecked addition, so rates above `u64::MAX - 249` are excluded.
   */
  function ToSatPerVbCeil(rate: FeeRate): (r: U64)
    requires rate.kwu + (VB_SCALE - 1) <= U64_MAX
    ensures rate.kwu <= r * VB_SCALE < rate.kwu + VB_SCALE
  {
    (rate.kwu + (VB_SCALE - 1)) / VB_SCALE
  }

  /**
   What a release build computes for the rounded-up rate: `kwu + 249` wraps
   modulo 2^64 before the division.
   */
  function ToSatPerVbCeilWrapping(rate: FeeRate): (r: U64)
    ensures rate.kwu + (VB_SCALE - 1) <= U64_MAX ==> r == ToSatPerVbCeil(rate)
    ensures rate.kwu + (VB_SCALE - 1) > U64_MAX ==> r == 0
  {
    ((rate.kwu + (VB_SCALE - 1)) % (U64_MAX + 1)) / VB_SCALE
  }

  /** The rate in sat/vB, rounded up, defined for every rate. */
  function ToSatPerVbCeilTotal(rate: FeeRate): (r: U64)
    ensures rate.kwu <= r * VB_SCALE < rate.kwu + VB_SCALE
    ensures rate.kwu + (VB_SCALE - 1) <= U64_MAX ==> r == ToSatPerVbCeil(rate)
  {
    var q := rate.kwu / VB_SCALE;
    var m := rate.kwu % VB_SCALE;
    assert rate.kwu == q * VB_SCALE + m;
    DivUnique(rate.kwu + (VB_SCALE - 1), VB_SCALE, if m == 0 then q else q + 1);
    q + (if m == 0 then 0 else 1)
  }

  // ---------------------------------------------------------------- checked arithmetic

  /** `self * rhs` on the raw value, absent on overflow. */
  function CheckedMul(rate: FeeRate, rhs: U64): (r: Option<FeeRate>)
    ensures r.None? <==> rate.kwu * rhs > U64_MAX
    ensures r.Some? ==> r.value.kwu == rate.kwu * rhs
  {
    match CheckedMulU64(rate.kwu, rhs)
    case Some(res) => Some(FeeRate(res))
    case None => None
  }

  /** `self / rhs` on the raw value, truncating, absent when `rhs` is zero. */
  function CheckedDiv(rate: FeeRate, rhs: U64): (r: Option<FeeRate>)
    ensures r.None? <==> rhs == 0
    ensures r.Some? ==> r.value.kwu * rhs <= rate.kwu < (r.value.kwu + 1) * rhs
  {
    match CheckedDivU64(rate.kwu, rhs)
    case Some(res) => Some(FeeRate(res))
    case None => None
  }

  /** `self + rhs` on the raw value, absent on overflow. */
  function CheckedAdd(rate: FeeRate, rhs: U64): (r: Option<FeeRate>)
    ensures r.None? <==> rate.kwu + rhs > U64_MAX
    ensures r.Some? ==> r.value.kwu - rhs == rate.kwu
  {
    match CheckedAddU64(rate.kwu, rhs)
    case Some(res) => Some(FeeRate(res))
    case None => None
  }

  /** `self - rhs` on the raw value, absent on underflow. */
  function CheckedSub(rate: FeeRate, rhs: U64): (r: Option<FeeRate>)
    ensures r.None? <==> rate.kwu < rhs
    ensures r.Some? ==> r.value.kwu + rhs == rate.kwu
  {
    match CheckedSubU64(rate.kwu, rhs)
    case Some(res) => Some(FeeRate(res))
    case None => None
  }

  /**
   The fee for `weight` at this rate. The product sat/kwu * wu counts
   thousandths of a satoshi; adding 999 before dividing by 1000 rounds any
   fraction up, so the fee never falls short. Absent when the product or the
   addition overflows.
   */
  function CheckedMulByWeight(rate: FeeRate, weight: Weight): (r: Option<Amount>)
    ensures r.None? <==> rate.kwu * ToWu(weight) > U64_MAX - 999
    ensures r.Some? ==> ToSat(r.value) * 1000 >= rate.kwu * ToWu(weight)
    ensures r.Some? ==> ToSat(r.value) * 1000 < rate.kwu * ToWu(weight) + 1000
  {
    match CheckedMulU64(rate.kwu, ToWu(weight))
    case Some(mulRes) =>
      (match CheckedAddU64(mulRes, 999)
       case Some(addRes) => Some(FromSat(addRes / 1000))
       case None => None)
    case None => None
  }

  /** The fee for a weight in weight units; the same as `CheckedMulByWeight`. */
  function FeeWu(rate: FeeRate, weight: Weight): (r: Option<Amount>)
    ensures r == CheckedMulByWeight(rate, weight)
  {
    CheckedMulByWeight(rate, weight)
  }

  /**
   The fee for a size in virtual bytes. `fromVb` is the vbyte-to-weight
   conversion of the weight type (absent on overflow), passed in because its
   definition is not part of this model.
   */
  function FeeVb(rate: FeeRate, vb: U64, fromVb: U64 -> Option<Weight>): (r: Option<Amount>)
    ensures fromVb(vb).None? ==> r.None?
    ensures fromVb(vb).Some? ==> r == FeeWu(rate, fromVb(vb).value)
  {
    match fromVb(vb)
    case Some(w) => FeeWu(rate, w)
    case None => None
  }

  // ---------------------------------------------------------------- operators

  /** `FeeRate + FeeRate`, in every owned/borrowed form: raw addition. */
  function Add(a: FeeRate, b: FeeRate): (r: FeeRate)
    requires a.kwu + b.kwu <= U64_MAX
    ensures CheckedAdd(a, ToSatPerKwu(b)) == Some(r)
  {
    FeeRate(a.kwu + b.kwu)
  }

  /** `FeeRate - FeeRate`, in every owned/borrowed form: raw subtraction. */
  function Sub(a: FeeRate, b: FeeRate): (r: FeeRate)
    requires b.kwu <= a.kwu
    ensures CheckedSub(a, ToSatPerKwu(b)) == Some(r)
  {
    FeeRate(a.kwu - b.kwu)
  }

  /** `lhs += rhs`: the value `lhs` holds afterwards. */
  function AddAssign(lhs: FeeRate, rhs: FeeRate): (r: FeeRate)
    requires lhs.kwu + rhs.kwu <= U64_MAX
    ensures r == Add(lhs, rhs)
  {
    FeeRate(lhs.kwu + rhs.kwu)
  }

  /** `lhs -= rhs`: the value `lhs` holds afterwards. */
  function SubAssign(lhs: FeeRate, rhs: FeeRate): (r: FeeRate)
    requires rhs.kwu <= lhs.kwu
    ensures r == Sub(lhs, rhs)
  {
    FeeRate(lhs.kwu - rhs.kwu)
  }

  /** The sum of the raw values of `rates`, as an unbounded number. */
  function SumKwu(rates: seq<FeeRate>): nat
  {
    if |rates| == 0 then 0 else SumKwu(rates[..|rates| - 1]) + rates[|rates| - 1].kwu
  }

  /** A prefix of a sequence of rates never sums to more than the whole sequence. */
  lemma {:induction false} SumKwuPrefix(rates: seq<FeeRate>, n: nat)
    requires n <= |rates|
    ensures SumKwu(rates[..n]) <= SumKwu(rates)
    decreases |rates|
  {
    if n < |rates| {
      var init := rates[..|rates| - 1];
      assert init[..n] == rates[..n];
      SumKwuPrefix(init, n);
    } else {
      assert rates[..n] == rates;
    }
  }

  /**
   `Sum` over an iterator of rates (owned or borrowed): the rate whose raw value
   is the sum of the raw values. The source adds unchecked, so the total must fit.
   */
  method Sum(rates: seq<FeeRate>) returns (r: FeeRate)
    requires SumKwu(rates) <= U64_MAX
    ensures r == FromSatPerKwu(SumKwu(rates))
    ensures forall i :: 0 <= i < |rates| ==> rates[i].kwu <= r.kwu
  {
    var acc: U64 := 0;
    var i := 0;
    while i < |rates|
      invariant i <= |rates|
      invariant acc == SumKwu(rates[..i])
      invariant forall j :: 0 <= j < i ==> rates[j].kwu <= acc
    {
      assert rates[..i + 1][..i] == rates[..i];
      SumKwuPrefix(rates, i + 1);
      acc := acc + rates[i].kwu;
      i := i + 1;
    }
    assert rates[..i] == rates;
    r := FromSatPerKwu(acc);
  }

  /** `Weight * FeeRate`: the rounded-up fee, with overflow excluded. */
  function MulWeightByRate(weight: Weight, rate: FeeRate): (r: Amount)
    requires rate.kwu * ToWu(weight) + 999 <= U64_MAX
    ensures CheckedMulByWeight(rate, weight) == Some(r)
  {
    FromSat((ToSatPerKwu(rate) * ToWu(weight) + 999) / 1000)
  }

  /** `FeeRate * Weight`: delegates to `Weight * FeeRate`. */
  function MulRateByWeight(rate: FeeRate, weight: Weight): (r: Amount)
    requires rate.kwu * ToWu(weight) + 999 <= U64_MAX
    ensures FeeWu(rate, weight) == Some(r)
  {
    MulWeightByRate(weight, rate)
  }

  /**
   `Amount / Weight`: the rate sat * 1000 / wu, truncated. The source panics on a
   zero weight and overflows when sat * 1000 does not fit; both are excluded.
   */
  function DivAmountByWeight(amount: Amount, weight: Weight): (r: FeeRate)
    requires ToWu(weight) != 0
    requires ToSat(amount) * 1000 <= U64_MAX
    ensures r.kwu * ToWu(weight) <= ToSat(amount) * 1000 < (r.kwu + 1) * ToWu(weight)
  {
    DivBounds(ToSat(amount) * 1000, ToWu(weight));
    FeeRate(ToSat(amount) * 1000 / ToWu(weight))
  }
}
