/** The fee rate a friend asks for forwarding credits (components/proto/src/funder/messages.rs).

    A rate is a linear function with a 32-bit fixed-point slope: paying `x` credits costs
    `x * mul / 2^32 + add`, rounded down. */
module Rate {
  import opened Wrappers
  import opened Integers

  const TWO_32: nat := 0x1_0000_0000

  type U32 = x: int | 0 <= x < TWO_32

  datatype Rate = Rate(mul: U32, add: U32)

  function Fee(rate: Rate, payment: nat): nat {
    payment * rate.mul / TWO_32 + rate.add
  }

  function CalcFee(rate: Rate, destPayment: U128): (r: Option<U128>)
    ensures r.None? <==> Fee(rate, destPayment) > U128_MAX
    ensures r.Some? ==> 0 <= destPayment * rate.mul - (r.value - rate.add) * TWO_32 < TWO_32
  {
    var fee := Fee(rate, destPayment);
    if fee <= U128_MAX then Some(fee) else None
  }

  /** The slope is less than one, by enough to leave room for the flat part: the fee on a payment always fits. */
  lemma FeeAlwaysFits(rate: Rate, payment: U128)
    ensures CalcFee(rate, payment).Some?
  {
    var product := payment * rate.mul;
    var q := product / TWO_32;
    assert q * TWO_32 <= product;
    MulSign(payment, TWO_32 - 1 - rate.mul);
    assert payment * (TWO_32 - 1 - rate.mul) == payment * TWO_32 - payment - product;
    assert q * TWO_32 <= payment * TWO_32 - payment;
  }

  function Denominator(rate: Rate): nat {
    rate.mul + TWO_32
  }

  function MaxPayable(rate: Rate, capacity: U128): (r: U128)
    ensures r <= capacity
  {
    if capacity < rate.add then 0
    else
      var numerator := (capacity - rate.add) * TWO_32;
      QuotientAtMost(capacity - rate.add, TWO_32, Denominator(rate));
      numerator / Denominator(rate)
  }

  lemma QuotientAtMost(c: nat, k: nat, d: nat)
    requires 0 < k <= d
    ensures 0 <= c * k / d <= c
  {
    var q := c * k / d;
    assert c * k == q * d + c * k % d;
    assert (q - c) * k + q * (d - k) + c * k % d == 0;
    MulSign(q, d - k);
    MulSign(q - c - 1, k);
    assert (q - c) * k == (q - c - 1) * k + k;
  }

  lemma MulSign(a: int, b: nat)
    ensures a >= 0 ==> a * b >= 0
  {
  }

  /** A payment and its fee fit a capacity exactly when the unrounded cost stays below the next credit. */
  lemma FitsIff(rate: Rate, capacity: U128, payment: nat)
    requires capacity >= rate.add
    ensures payment + Fee(rate, payment) <= capacity
       <==> payment * Denominator(rate) < (capacity - rate.add + 1) * TWO_32
  {
    var c := capacity - rate.add;
    var product := payment * rate.mul;
    assert payment * Denominator(rate) == product + payment * TWO_32;
  }

  /** What `MaxPayable` promises: everything up to it fits with its fee, at most one more credit would, and it is
      the true maximum exactly when the division leaves no more than `mul`. */
  lemma MaxPayableBounds(rate: Rate, capacity: U128, payment: nat)
    requires capacity >= rate.add
    ensures payment <= MaxPayable(rate, capacity) ==> payment + Fee(rate, payment) <= capacity
    ensures payment > MaxPayable(rate, capacity) + 1 ==> payment + Fee(rate, payment) > capacity
    ensures payment == MaxPayable(rate, capacity) + 1 ==>
              (payment + Fee(rate, payment) > capacity
               <==> (capacity - rate.add) * TWO_32 % Denominator(rate) <= rate.mul)
  {
    var d := Denominator(rate);
    var numerator := (capacity - rate.add) * TWO_32;
    var q := numerator / d;
    assert numerator == q * d + numerator % d;
    FitsIff(rate, capacity, payment);
    assert (capacity - rate.add + 1) * TWO_32 == numerator + TWO_32;
    assert payment * d == (payment - q) * d + q * d;
    MulSign(q - payment, d);
    assert (payment - q) * d == -((q - payment) * d);
    MulSign(payment - q - 2, d);
    assert (payment - q) * d == (payment - q - 2) * d + 2 * d;
  }

  /** One credit through a capacity of one at the smallest slope costs nothing extra, but is not offered. */
  lemma MaxPayableIsNotAlwaysMaximal()
    ensures MaxPayable(Rate(1, 0), 1) == 0 && 1 + Fee(Rate(1, 0), 1) <= 1
  {
    MaxPayableBounds(Rate(1, 0), 1, 1);
  }

  /** Below the constant part of the fee nothing can be paid, yet the code answers zero. */
  lemma NothingPayable(rate: Rate, capacity: U128, payment: nat)
    requires capacity < rate.add
    ensures MaxPayable(rate, capacity) == 0 && payment + Fee(rate, payment) > capacity
  {
    assert payment * rate.mul >= 0;
  }
}
