/** Bounded integers, checked arithmetic and the program's error results. */
module Checked {

  const U64_MAX: int := 0xFFFF_FFFF_FFFF_FFFF
  const U128_MAX: int := 0xFFFF_FFFF_FFFF_FFFF_FFFF_FFFF_FFFF_FFFF
  const I64_MIN: int := -0x8000_0000_0000_0000
  const I64_MAX: int := 0x7FFF_FFFF_FFFF_FFFF

  type u16 = x: int | 0 <= x <= 0xFFFF
  type u64 = x: int | 0 <= x <= U64_MAX
  type u128 = x: int | 0 <= x <= U128_MAX
  type i64 = x: int | I64_MIN <= x <= I64_MAX

  /** The error codes that accounting can raise; TokenFailure stands for an error of the token program. */
  datatype Error =
    | NotInitialized
    | InvalidAmount
    | InvalidPenalty
    | InvalidBurn
    | InvalidLockPolicy
    | EpochNotReady
    | ActivationNotReady
    | NoRewards
    | NoEligibleStake
    | InsufficientPositionBalance
    | FundingSnapshotMismatch
    | MathOverflow
    | TokenFailure

  datatype Result<+T> = Success(value: T) | Failure(error: Error) {
    predicate IsFailure() {
      Failure?
    }

    function PropagateFailure<U>(): Result<U>
      requires Failure?
    {
      Failure(error)
    }

    function Extract(): T
      requires Success?
    {
      value
    }
  }

  datatype Option<+T> = None | Some(value: T)

  function Min(a: int, b: int): int {
    if a <= b then a else b
  }

  function Max(a: int, b: int): int {
    if a <= b then b else a
  }

  function CheckedAdd64(a: u64, b: u64): Result<u64> {
    if a + b <= U64_MAX then Success(a + b) else Failure(MathOverflow)
  }

  function CheckedSub64(a: u64, b: u64): Result<u64> {
    if b <= a then Success(a - b) else Failure(MathOverflow)
  }

  function ToU64(a: u128): Result<u64> {
    if a <= U64_MAX then Success(a) else Failure(MathOverflow)
  }

  function CheckedAdd128(a: u128, b: u128): Result<u128> {
    if a + b <= U128_MAX then Success(a + b) else Failure(MathOverflow)
  }

  function CheckedSub128(a: u128, b: u128): Result<u128> {
    if b <= a then Success(a - b) else Failure(MathOverflow)
  }

  function CheckedMul128(a: u128, b: u128): Result<u128> {
    if 0 <= a * b <= U128_MAX then Success(a * b) else Failure(MathOverflow)
  }

  function CheckedAddI64(a: i64, b: i64): Result<i64> {
    if I64_MIN <= a + b <= I64_MAX then Success(a + b) else Failure(MathOverflow)
  }

  function CheckedMulI64(a: i64, b: i64): Result<i64> {
    if I64_MIN <= a * b <= I64_MAX then Success(a * b) else Failure(MathOverflow)
  }

  /** Lifetime counters stop at the top instead of failing. */
  function SatAdd(a: int, b: int): int {
    Min(a + b, U64_MAX)
  }
}
