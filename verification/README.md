# FeeRate — a Dafny model of rust-bitcoin's fee-rate type

This project models `FeeRate` from `units/src/fee_rate.rs`: a `u64` fee rate
stored in satoshis per 1000 weight units (sat/kwu). The model covers its
constants and its unit conversions. One vbyte is 4 weight units (section
"Transaction size calculations" of BIP 141), so 1 sat/vB is 250 sat/kwu. It
also covers the floor and ceiling conversions back to sat/vB, the checked
`u64` arithmetic that returns `Option`, the rounded-up fee for a weight, and
the operator overloads.

Layout:

- `wrappers.dfy` — module `Wrappers`: `Option`.
- `unsigned.dfy` — module `Unsigned`: the `u64` range (`U64_MAX = 2^64 - 1`),
  Rust's `checked_add/sub/mul/div` on it, and two small division lemmas.
- `collaborators.dfy` — modules `Amounts` and `Weights`: the two external value
  types, reduced to the accessors the fee-rate code calls (`Amount::from_sat`,
  `Amount::to_sat`, `Weight::from_wu`, `Weight::to_wu`, `Weight::MAX`).
- `fee_rate.dfy` — module `FeeRates`: the `FeeRate` datatype and every
  operation.
- `fee_rate_properties.dfy` — module `FeeRateProperties`: lemmas relating the
  operations, and the concrete values from the file's unit tests.

Every operation is a pure function on an immutable value. The compound
assignments `+=` and `-=` return the value the left operand holds afterwards.
`Sum` is a method that loops over a sequence. The owned and borrowed forms of
each operator behave the same in the source, so each operator is one function.

## Model

| member | source | states |
|---|---|---|
| FeeRates.FromSatPerKwu | units/src/fee_rate.rs:47-48 | never fails; reading the raw value back with `to_sat_per_kwu` returns exactly the argument |
| FeeRates.ToSatPerKwu | units/src/fee_rate.rs:68-71 | returns the raw sat/kwu value: wrapping the result again gives back the same rate. `From<FeeRate> for u64` (lines 184-186) returns this same value |
| FeeRateProperties.KwuRoundTrip | units/src/fee_rate.rs:68-71 | reading the raw value back returns what was stored, and rebuilding from the raw value gives the same rate |
| FeeRateProperties.ConstantValues | units/src/fee_rate.rs:26-45 | `ZERO` and `MIN` are the same rate, 0 sat/kwu. `MAX` is `u64::MAX`. `BROADCAST_MIN` is 250 sat/kwu (1 sat/vB) and `DUST` is 750 sat/kwu (3 sat/vB) |
| FeeRates.FromSatPerVb | units/src/fee_rate.rs:50-60 | absent exactly when `sat_vb * 250` exceeds `u64::MAX`. Otherwise the rate is `sat_vb * 250` sat/kwu, and both the floor and the (total) ceiling conversions return `sat_vb` |
| FeeRates.FromSatPerVbUnchecked | units/src/fee_rate.rs:62-63 | when the scaling does not overflow, it gives the same rate as the checked constructor |
| FeeRateProperties.ConstructionExamples | units/src/fee_rate.rs:382-404 | 10 sat/vB is 2500 sat/kwu by both constructors; `u64::MAX` sat/vB overflows; 10 sat/kvB is 2 sat/kwu |
| FeeRates.FromSatPerKvb | units/src/fee_rate.rs:65-66 | never fails, and truncates: four times the result is at most the input and less than four more. The result never exceeds the input |
| FeeRates.ToSatPerVbFloor | units/src/fee_rate.rs:73-74 | `floor * 250 <= kwu < (floor + 1) * 250` |
| FeeRates.ToSatPerVbCeil | units/src/fee_rate.rs:76-77 | where `kwu + 249` fits in a `u64`: `kwu <= ceil * 250 < kwu + 250`. So the sat/vB value never understates the rate, and is the least value that does not |
| FeeRates.ToSatPerVbCeilWrapping | units/src/fee_rate.rs:77 | the release-build result of the same expression, with the addition wrapping modulo 2^64. It agrees with `ToSatPerVbCeil` wherever the addition does not overflow, and returns 0 sat/vB for every one of the 249 rates above `u64::MAX - 249` |
| FeeRates.ToSatPerVbCeilTotal | units/src/fee_rate.rs:76-77 | the rounded-up conversion defined for every rate: `kwu <= ceil * 250 < kwu + 250`. It agrees with the source's expression wherever that does not overflow |
| FeeRateProperties.CeilFloorGap | units/src/fee_rate.rs:73-77 | ceiling minus floor is 0 or 1, and it is 0 exactly when the rate is a multiple of 250 sat/kwu |
| FeeRateProperties.CeilFloorGapChecked | units/src/fee_rate.rs:73-77 | the same gap for the ceiling as the source computes it |
| FeeRateProperties.RoundingExample | units/src/fee_rate.rs:411-417 | 333 sat/kwu reads back as 333; its floor is 1 sat/vB and its ceiling 2 sat/vB |
| FeeRateProperties.CeilOverflowsOnRepresentableRate | units/src/fee_rate.rs:77 | `from_sat_per_vb(u64::MAX / 250)` succeeds, yet `kwu + 249` then overflows. Wrapping gives 0 sat/vB for `FeeRate::MAX`, whose floor is positive |
| FeeRates.CheckedMul | units/src/fee_rate.rs:79-89 | absent exactly when `kwu * rhs` exceeds `u64::MAX`, otherwise the rate `kwu * rhs` |
| FeeRates.CheckedDiv | units/src/fee_rate.rs:91-101 | absent exactly when `rhs == 0`. Otherwise the truncated quotient: `q * rhs <= kwu < (q + 1) * rhs` |
| FeeRates.CheckedAdd | units/src/fee_rate.rs:123-133 | absent exactly when `kwu + rhs` exceeds `u64::MAX`; otherwise a rate that is `rhs` above the original |
| FeeRates.CheckedSub | units/src/fee_rate.rs:135-145 | absent exactly when `rhs > kwu`; otherwise a rate that is `rhs` below the original |
| FeeRateProperties.CheckedAddSubInverse | units/src/fee_rate.rs:123-145 | `checked_add(a, x) == Some(b)` holds if and only if `checked_sub(b, x) == Some(a)` |
| FeeRateProperties.CheckedMulDivInverse | units/src/fee_rate.rs:79-101 | dividing by a non-zero factor undoes a successful multiplication by it |
| FeeRateProperties.CheckedAddSubExamples | units/src/fee_rate.rs:355-371 | 1 + 2 = 3; `MAX + 1` is absent; 2 - 1 = 1; `ZERO - 1` is absent |
| FeeRateProperties.CheckedMulExamples | units/src/fee_rate.rs:419-426 | 10 * 10 = 100; `10 * u64::MAX` is absent |
| FeeRateProperties.CheckedDivExamples | units/src/fee_rate.rs:453-460 | 10 / 10 = 1; division by 0 is absent |
| FeeRates.CheckedMulByWeight | units/src/fee_rate.rs:103-121 | absent exactly when `kwu * wu + 999` exceeds `u64::MAX`, which covers an overflowing product too. Otherwise `fee * 1000 >= kwu * wu`, so the fee never underpays, and `fee * 1000 < kwu * wu + 1000`, so it is the ceiling |
| FeeRateProperties.FeeIsLeastSufficient | units/src/fee_rate.rs:103-121 | every amount that covers `kwu * wu` thousandths of a satoshi is at least the computed fee |
| FeeRateProperties.FeeMonotoneInRate | units/src/fee_rate.rs:112-121 | a lower rate over the same weight succeeds whenever the higher one does, and never costs more |
| FeeRateProperties.FeeMonotoneInWeight | units/src/fee_rate.rs:112-121 | a lighter weight at the same rate succeeds whenever the heavier one does, and never costs more |
| FeeRateProperties.FeeExamples | units/src/fee_rate.rs:428-451 | `from_sat_per_vb(10)` over 40 wu is 100 sat. 10 sat/kwu over `Weight::MAX` is absent. `from_sat_per_vb(3)` over 12 wu is 9 sat. 864 sat/kwu over 381 wu is 330 sat, rounded up from 329.184 |
| FeeRates.FeeWu | units/src/fee_rate.rs:147-152 | the same result as `checked_mul_by_weight` for every weight |
| FeeRates.FeeVb | units/src/fee_rate.rs:154-162 | absent when the vbyte-to-weight conversion is absent; otherwise the fee of the converted weight |
| FeeRateProperties.FeeVbOfPerVbRateIsExact | units/src/fee_rate.rs:154-162 | with 4 wu per vbyte, a rate built from whole sat/vB charges exactly `sat_vb * vb`, with nothing rounded |
| FeeRates.Add | units/src/fee_rate.rs:188-210 | where the sum fits, the result is what checked addition of the raw value returns |
| FeeRates.Sub | units/src/fee_rate.rs:212-234 | where no underflow occurs, the result is what checked subtraction of the raw value returns |
| FeeRates.AddAssign | units/src/fee_rate.rs:261-267 | `+=` leaves the left operand equal to `lhs + rhs` |
| FeeRates.SubAssign | units/src/fee_rate.rs:269-275 | `-=` leaves the left operand equal to `lhs - rhs` |
| FeeRateProperties.AddCommutes | units/src/fee_rate.rs:188-192 | `a + b == b + a` |
| FeeRateProperties.AddSubRoundTrip | units/src/fee_rate.rs:188-234 | `(a + b) - b == a` |
| FeeRateProperties.OperatorExamples | units/src/fee_rate.rs:301-347 | 1 + 2 = 3 and 3 - 2 = 1, and the same with `+=` and `-=` |
| FeeRates.Sum | units/src/fee_rate.rs:277-293 | the sum is `from_sat_per_kwu` of the total of the raw values, and no summand exceeds it |
| FeeRates.MulWeightByRate | units/src/fee_rate.rs:236-243 | `Weight * FeeRate`: where nothing overflows, the same amount as `checked_mul_by_weight` |
| FeeRates.MulRateByWeight | units/src/fee_rate.rs:245-249 | `FeeRate * Weight`: where nothing overflows, the same amount as `fee_wu` |
| FeeRateProperties.MulIsSymmetric | units/src/fee_rate.rs:236-249 | `rate * weight == weight * rate` |
| FeeRates.DivAmountByWeight | units/src/fee_rate.rs:251-259 | truncating: `r * wu <= sat * 1000 < (r + 1) * wu` |
| FeeRateProperties.DivThenMulNeverExceeds | units/src/fee_rate.rs:251-258 | charging `amount / weight` back over `weight` never costs more than `amount`. For weights of at most 1000 wu it gives `amount` back exactly |
| FeeRateProperties.DivExample | units/src/fee_rate.rs:349-353 | 329 sat / 381 wu is 863 sat/kwu |

## Findings

| source | as written | input that shows it | evidently intended | confidence | as-written member | corrected member |
|---|---|---|---|---|---|---|
| units/src/fee_rate.rs:77 | `to_sat_per_vb_ceil` computes `(self.0 + 249) / 250` with an unchecked `+` | `FeeRate::MAX`, and also `from_sat_per_vb(u64::MAX / 250)` (raw 18446744073709551500), which the checked constructor accepts. The addition overflows, so a debug build panics. A release build wraps and returns 0 sat/vB for `FeeRate::MAX`, below its floor of 73786976294838206 | a rounded-up sat/vB value for every rate | medium, not executed | FeeRates.ToSatPerVbCeilWrapping (counterexample lemma FeeRateProperties.CeilOverflowsOnRepresentableRate) | FeeRates.ToSatPerVbCeilTotal |

The round-trip contract of `FromSatPerVb` and the lemma `CeilFloorGap` use the
corrected conversion. `ToSatPerVbCeil` keeps the source's expression, with the
overflow excluded by its `requires`.

## Left out

- `fmt::Display` (lines 173-182): formatting through the Rust formatter is presentation, not arithmetic.
- The serde derive and the `Arbitrary` impl (lines 21-22, 165-171): serialisation and fuzzing support.
- `impl_parse_str_from_int_infallible!` (line 295): the macro is defined in another file, which is not part of this model.
- The derived `Debug`, `Hash` and `Ord`: the model defines no ordering on fee rates and compares raw `kwu` values directly where it needs to. The derived `Eq` is Dafny's datatype equality.
- `Weight::from_vb` is defined in another file, which is not part of this model. `FeeVb` therefore takes the vbyte-to-weight conversion as a function parameter. The unit test's `Weight::from_vb(10)` and `Weight::from_vb(3)` appear in `FeeExamples` as 40 wu and 12 wu, which is what 4 wu per vbyte gives.
- `Weight::MAX` is taken to be `u64::MAX` weight units. The weight type is not part of this model.
- The doc comment at line 257 names a `checked_div_by_weight` that this file does not define.
- The owned and borrowed operator forms are collapsed into one function each, because they compute the same value.
- The unchecked operators panic on overflow in debug builds and wrap in release builds. The model states no-overflow `requires` instead:
- FromSatPerVbUnchecked: requires `sat_vb * 250 <= u64::MAX`, and does not model the release-build wrap.
- ToSatPerVbCeil: requires `kwu + 249 <= u64::MAX`, because the source's addition is unchecked. The wrapping behaviour is `ToSatPerVbCeilWrapping`, and the corrected total version is `ToSatPerVbCeilTotal`.
- Add: requires the sum to fit in a `u64`, and does not model wrap or panic.
- Sub: requires no underflow, and does not model wrap or panic.
- AddAssign: requires the sum to fit, as for `Add`.
- SubAssign: requires no underflow, as for `Sub`.
- Sum: requires the total of the raw values to fit. The source adds without checking, and the model does not reproduce the wrap or panic. It sums a sequence rather than an arbitrary iterator.
- MulWeightByRate: requires `kwu * wu + 999 <= u64::MAX`, and does not model wrap or panic.
- MulRateByWeight: requires the same as `MulWeightByRate`.
- DivAmountByWeight: requires a non-zero weight, where the source panics, and `sat * 1000 <= u64::MAX`, where the source's multiplication overflows.
