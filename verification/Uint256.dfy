/** The checked integer arithmetic of backend/internal/curve/math.go: unbounded
    integers with explicit 256-bit range checks. */
module Uint256 {
  import opened Wrappers

  function Lsh(x: int, n: nat): int
    decreases n
  {
    if n == 0 then x else Lsh(2 * x, n - 1)
  }

  const MAX_UINT256: int := Lsh(1, 256) - 1

  lemma MaxUint256IsTwoTo256MinusOne()
    ensures MAX_UINT256 == 0x1_0000000000000000_0000000000000000_0000000000000000_0000000000000000 - 1
  {
    hide Lsh, Power2;
    LshMultiplies(1, 256);
    EighthPower();
    PowersMultiply(8, 8);
    PowersMultiply(16, 16);
    PowersMultiply(32, 32);
    PowersMultiply(64, 64);
    PowersMultiply(128, 128);
  }

  function Power2(n: nat): nat {
    if n == 0 then 1 else 2 * Power2(n - 1)
  }

  lemma {:induction false} LshMultiplies(x: int, n: nat)
    ensures Lsh(x, n) == x * Power2(n)
    decreases n
  {
    if n > 0 {
      LshMultiplies(2 * x, n - 1);
    }
  }

  lemma EighthPower()
    ensures Power2(8) == 0x100
  {
  }

  lemma {:induction false} PowersMultiply(a: nat, b: nat)
    ensures Power2(a + b) == Power2(a) * Power2(b)
  {
    if a > 0 {
      PowersMultiply(a - 1, b);
    }
  }

  datatype Error =
    | ZeroInput
    | ZeroOutput
    | ArithmeticOverflow
    | DivisionByZero
    | InternalInvariant
    | InvalidGraduationETH
    | InvalidAmount(field: string)
    | InvalidSupplyAllocation(totalSupply: int, curveTokens: int, lpTokens: int)
    | InvalidCurveAllocation(curveTokens: int, lpTokens: int)
    | InvalidVirtualReserves(initialVirtualETH: int, initialVirtualToken: int, curveTokens: int)
    | InvalidTradeFeeBPS(tradeFeeBPS: int)
    | InvalidProtocolShareBPS(protocolShareBPS: int)
    | InvalidCurveBoundary(product: int, finalVirtualToken: int, finalVirtualETH: int)
    | WrongPhase(expected: int, actual: int)
    | Oversell(attempted: int, sold: int)

  predicate IsUint256(x: int) {
    0 <= x <= MAX_UINT256
  }

  /** `None` is nil. */
  function CopyUint256(field: string, value: Option<int>): Result<int, Error> {
    if value.None? || !IsUint256(value.value) then Err(InvalidAmount(field)) else Ok(value.value)
  }

  function CheckedAdd(left: int, right: int): Result<int, Error> {
    if left + right > MAX_UINT256 then Err(ArithmeticOverflow) else Ok(left + right)
  }

  function CheckedSub(left: int, right: int): Result<int, Error> {
    if left < right then Err(ArithmeticOverflow) else Ok(left - right)
  }

  function CheckedMul(left: int, right: int): Result<int, Error> {
    if left * right > MAX_UINT256 then Err(ArithmeticOverflow) else Ok(left * right)
  }

  /** The source divides with Quo; every caller passes non-negative operands, where
      truncation and Dafny's division agree. */
  function MulDiv(x: int, y: int, denominator: int): Result<int, Error>
    requires x >= 0 && y >= 0 && denominator >= 0
  {
    if denominator == 0 then Err(DivisionByZero)
    else if x * y / denominator > MAX_UINT256 then Err(ArithmeticOverflow)
    else Ok(x * y / denominator)
  }

  /** The ceiling quotient as the source computes it. */
  function CeilQuotient(numerator: int, denominator: int): int
    requires numerator >= 0 && denominator > 0
  {
    if numerator == 0 then 0 else (numerator - 1) / denominator + 1
  }

  function CeilDiv(numerator: int, denominator: int): Result<int, Error>
    requires numerator >= 0 && denominator >= 0
  {
    if denominator == 0 then Err(DivisionByZero) else Ok(CeilQuotient(numerator, denominator))
  }

  // ---- what the two quotients mean -------------------------------------------------

  lemma MulMonotone(a: int, b: int, c: int)
    requires a <= b && c >= 0
    ensures a * c <= b * c
  {
  }

  lemma FloorBounds(a: int, d: int)
    requires a >= 0 && d > 0
    ensures a / d * d <= a < (a / d + 1) * d
    ensures a / d >= 0
  {
    assert a == a / d * d + a % d;
  }

  /** Floor division is the right adjoint of multiplication. */
  lemma FloorIsGreatest(a: int, d: int, q: int)
    requires a >= 0 && d > 0
    ensures q <= a / d <==> q * d <= a
  {
    FloorBounds(a, d);
    if q <= a / d {
      MulMonotone(q, a / d, d);
    } else {
      MulMonotone(a / d + 1, q, d);
    }
  }

  /** Ceiling division is the left adjoint: the least q with numerator <= q * denominator. */
  lemma CeilIsLeast(numerator: int, denominator: int, q: int)
    requires numerator >= 0 && denominator > 0 && q >= 0
    ensures CeilQuotient(numerator, denominator) <= q <==> numerator <= q * denominator
  {
    if numerator > 0 {
      FloorIsGreatest(numerator - 1, denominator, q);
    }
  }

  lemma CeilNonNegative(numerator: int, denominator: int)
    requires numerator >= 0 && denominator > 0
    ensures CeilQuotient(numerator, denominator) >= 0
    ensures numerator > 0 ==> CeilQuotient(numerator, denominator) > 0
  {
    if numerator > 0 {
      FloorBounds(numerator - 1, denominator);
    }
  }
}
