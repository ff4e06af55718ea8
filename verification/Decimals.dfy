/** Decimal arithmetic.
    Decimal values are reals.  Where Python rounds explicitly (`quantize`) the rounding is written out
    as round-half-even; where it rounds implicitly (the context precision) the replays below take the
    arithmetic as a parameter of type Context. */
module Decimals {

  /** The four operations as some decimal context performs them: exactly, or with any rounding at all.
      A result that depends on the operands alone is all that is asked of them. */
  datatype Context = Context(
    add: (real, real) -> real,
    sub: (real, real) -> real,
    mul: (real, real) -> real,
    div: (real, real) -> real)

  /** Exact arithmetic; nothing in the model divides by zero. */
  const EXACT := Context((x, y) => x + y, (x, y) => x - y, (x, y) => x * y, (x, y) => if y == 0.0 then 0.0 else x / y)

  function Min(x: real, y: real): real { if x <= y then x else y }

  function Max(x: real, y: real): real { if x >= y then x else y }

  function Abs(x: real): real { if x < 0.0 then -x else x }

  /** An amount at a rate; products are named so that equal factors are seen to give equal products. */
  function Times(amount: real, rate: real): real { amount * rate }

  function RoundHalfEven(x: real): int {
    var below := x.Floor;
    var part := x - below as real;
    if part < 0.5 then below
    else if part > 0.5 then below + 1
    else if below % 2 == 0 then below
    else below + 1
  }

  /** `x.quantize(Decimal("0.0001"))`, with the default rounding. */
  function QuantizeMoney(x: real): real {
    RoundHalfEven(x * 10000.0) as real / 10000.0
  }

  /** x has at most four decimal places. */
  predicate IsMoney(x: real) {
    (x * 10000.0).Floor as real == x * 10000.0
  }

  lemma {:induction false} TimesInverse(x: real)
    requires x != 0.0
    ensures Times(x, 1.0 / x) == 1.0 && Times(1.0 / x, x) == 1.0
  {}

  lemma {:induction false} TimesAssociates(x: real, y: real, z: real)
    ensures Times(Times(x, y), z) == Times(x, Times(y, z))
  {}

  lemma {:induction false} TimesDistributes(x: real, y: real, z: real)
    ensures Times(x + y, z) == Times(x, z) + Times(y, z)
  {}

  /** Rounding picks a nearest integer, and the even one of two equally near ones. */
  lemma {:induction false} RoundHalfEvenNearest(x: real, k: int)
    ensures Abs(x - RoundHalfEven(x) as real) <= Abs(x - k as real)
    ensures k != RoundHalfEven(x) && Abs(x - RoundHalfEven(x) as real) == Abs(x - k as real)
            ==> RoundHalfEven(x) % 2 == 0
  {
    var below := x.Floor;
    if k <= below {
      assert k as real <= below as real;
    } else {
      assert k as real >= (below + 1) as real;
      if k > below + 1 {
        assert k as real >= (below + 2) as real;
      }
    }
    if k < below {
      assert k as real <= (below - 1) as real;
    }
  }

  /** Quantizing picks a nearest multiple of a ten-thousandth, and the even one of two equally near ones. */
  lemma {:induction false} QuantizeNearest(x: real, k: int)
    ensures IsMoney(QuantizeMoney(x))
    ensures Abs(x - QuantizeMoney(x)) <= Abs(x - k as real / 10000.0)
    ensures QuantizeMoney(x) != k as real / 10000.0 && Abs(x - QuantizeMoney(x)) == Abs(x - k as real / 10000.0)
            ==> (QuantizeMoney(x) * 10000.0).Floor % 2 == 0
  {
    RoundHalfEvenNearest(x * 10000.0, k);
    var m := RoundHalfEven(x * 10000.0);
    assert QuantizeMoney(x) * 10000.0 == m as real;
    WholeIsMoney(QuantizeMoney(x), m);
    hide RoundHalfEven, QuantizeMoney;
  }

  lemma {:induction false} QuantizeError(x: real)
    ensures Abs(x - QuantizeMoney(x)) <= 0.00005
  {}

  lemma {:induction false} QuantizeExact(x: real)
    requires IsMoney(x)
    ensures QuantizeMoney(x) == x
  {}

  lemma {:induction false} MoneyAdds(x: real, y: real)
    requires IsMoney(x) && IsMoney(y)
    ensures IsMoney(x + y) && IsMoney(x - y) && IsMoney(-x)
  {
    var a, b := (x * 10000.0).Floor, (y * 10000.0).Floor;
    WholeIsMoney(x + y, a + b);
    WholeIsMoney(x - y, a - b);
    WholeIsMoney(-x, -a);
  }

  lemma {:induction false} WholeIsMoney(x: real, k: int)
    requires x * 10000.0 == k as real
    ensures IsMoney(x)
  {}
}
