/** Field elements of the Cairo machine and the comparisons its library builds on range checks.

    A felt is represented by its signed representative, an integer in [-HALF, HALF]. Arithmetic
    is carried out on the integers; every comparison reduces its operand modulo P, as the
    range-check builtin does. The contracts below say for which operands the reduced comparison
    decides the integer one.
 */
module Felt {

  /** Result of a computation that may contain a failing `assert`. A failed assert has no
      proof, so `Abort` means that the execution does not exist. */
  datatype Outcome<+T> = Abort | Done(value: T) {
    predicate IsFailure() { Abort? }
    function PropagateFailure<U>(): Outcome<U>
      requires Abort?
    { Abort }
    function Extract(): T
      requires Done?
    { value }
  }

  /** A Cairo `assert` on a condition that carries no value. */
  function Require(condition: bool): Outcome<()> {
    if condition then Done(()) else Abort
  }

  const P: int := 0x800000000000011000000000000000000000000000000000000000000000001
  const HALF: int := 0x400000000000008800000000000000000000000000000000000000000000000
  /** 2^128, the bound of the range-check builtin. */
  const RC_BOUND: int := 0x100000000000000000000000000000000
  /** 2^250, the bound of assert_250_bit. */
  const BOUND_250: int := 0x400000000000000000000000000000000000000000000000000000000000000

  type felt = x: int | -HALF <= x <= HALF

  /** The representative of an integer in [0, P). */
  function Reduce(a: int): (r: int)
    ensures 0 <= r < P
    ensures 0 <= a < P ==> r == a
    ensures -P <= a < 0 ==> r == a + P
    decreases if a < 0 then -a else a
  {
    if 0 <= a < P then a
    else if -P <= a < 0 then a + P
    else if a < 0 then Reduce(a + P)
    else Reduce(a - P)
  }

  /** Reduce is the remainder modulo P. */
  lemma {:induction false} ReduceIsRemainder(a: int)
    ensures Reduce(a) == a % P
    decreases if a < 0 then -a else a
  {
    if a >= P {
      ReduceIsRemainder(a - P);
    } else if a < -P {
      ReduceIsRemainder(a + P);
    }
  }

  /** is_nn, assert_nn: one range check on the operand. */
  predicate IsNn(a: int)
    ensures RC_BOUND - P <= a < P ==> (IsNn(a) <==> 0 <= a < RC_BOUND)
  {
    Reduce(a) < RC_BOUND
  }

  /** is_le, assert_le. */
  predicate IsLe(a: int, b: int) {
    IsNn(b - a)
  }

  /** is_nn_le, assert_nn_le. */
  predicate IsNnLe(a: int, b: int) {
    IsNn(a) && IsLe(a, b)
  }

  /** is_in_range, assert_in_range: lower <= value < upper. */
  predicate IsInRange(value: int, lower: int, upper: int) {
    IsLe(lower, value) && IsLe(value, upper - 1)
  }

  /** is_le_felt: compares the representatives in [0, P). */
  predicate IsLeFelt(a: int, b: int)
    ensures 0 <= a < P && 0 <= b < P ==> (IsLeFelt(a, b) <==> a <= b)
  {
    Reduce(a) <= Reduce(b)
  }

  /** assert_250_bit. */
  predicate Is250Bit(a: int)
    ensures BOUND_250 - P <= a < P ==> (Is250Bit(a) <==> 0 <= a < BOUND_250)
  {
    Reduce(a) < BOUND_250
  }

  /** The signed representative of an integer modulo P. */
  function Signed(a: int): (r: felt)
    ensures (a - r) % P == 0
    ensures -HALF <= a <= HALF ==> r == a
  {
    var m := a % P;
    var r := if m <= HALF then m else m - P;
    assert a == (a / P) * P + m;
    assert (a - r) % P == 0 by {
      MultipleOfP(a / P);
      MultipleOfP(a / P + 1);
      assert a - r == (a / P) * P || a - r == (a / P + 1) * P;
    }
    r
  }

  lemma {:induction false} MultipleOfP(k: int)
    ensures (k * P) % P == 0
  {
  }

  /** signed_div_rem: floor division whose quotient is asserted to lie in [-bound, bound). */
  function SignedDivRem(value: int, div: int, bound: int): Outcome<int>
    requires div > 0
  {
    var q := Signed(value) / div;
    if -bound <= q < bound then Done(q) else Abort
  }

  /** The product, as repeated addition. The checks on amounts are written with it, so that they stay
      linear wherever their products do not matter. */
  function Times(x: int, y: int): int
    decreases if x < 0 then 1 - x else x
  {
    if x < 0 then -Times(-x, y) else if x == 0 then 0 else y + Times(x - 1, y)
  }

  lemma {:induction false} TimesIsProduct(x: int, y: int)
    ensures Times(x, y) == x * y
    decreases if x < 0 then 1 - x else x
  {
    if x < 0 {
      TimesIsProduct(-x, y);
    } else if x > 0 {
      TimesIsProduct(x - 1, y);
    }
  }

  function Abs(x: int): int {
    if x < 0 then -x else x
  }
}
