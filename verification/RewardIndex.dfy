/** The program's pure reward-index helpers, in their checked form, and what they compute. */
module RewardIndex {
  import opened Arithmetic
  import opened Checked
  import opened State
  import opened Spec

  /** The index step for a batch of rewards over the eligible stake. */
  function RewardIndexDelta(amount: u64, eligible: u64): (r: Result<u128>)
    ensures r.Success? <==> 0 < eligible <= amount * SCALE
    ensures r.Success? ==> r.value * eligible <= amount * SCALE < (r.value + 1) * eligible
    ensures r.Failure? ==> r.error == InvalidAmount
  {
    if amount == 0 || eligible == 0 then Failure(InvalidAmount)
    else
      var scaled: u128 := amount * SCALE;
      QuotientBounds(scaled, eligible);
      var delta := scaled / eligible;
      if delta == 0 then Failure(InvalidAmount) else Success(delta)
  }

  /** It is the delta of the exact model, which leaves the index alone where this one reports an error. */
  lemma DeltaIsBatchDelta(amount: u64, eligible: u64)
    ensures RewardIndexDelta(amount, eligible)
         == if BatchDelta(amount, eligible) > 0 then Success(BatchDelta(amount, eligible)) else Failure(InvalidAmount)
  {
    if eligible > 0 {
      QuotientBounds(amount * SCALE, eligible);
    }
  }

  lemma QuotientBounds(n: int, d: int)
    requires 0 <= n && 0 < d
    ensures 0 <= n / d <= n
    ensures n / d * d <= n < (n / d + 1) * d
    ensures n / d > 0 <==> d <= n
  {
    DivMod(n, d);
    var q := n / d;
    assert (q + 1) * d == q * d + d;
    if q > 0 {
      ProductNonNegative(q - 1, d);
      ProductNonNegative(q, d - 1);
    }
  }

  /** The index growth since a position's checkpoint, across at most one wrap. */
  function RewardIndexDeltaSince(c: Config, p: Position): Result<u128>
    requires 0 <= c.rewardIndex < WRAP && 0 <= c.rewardIndexGeneration < GENERATIONS
    requires 0 <= p.rewardIndexCheckpoint < WRAP && 0 <= p.rewardIndexGenerationCheckpoint < GENERATIONS
  {
    if c.rewardIndexGeneration == p.rewardIndexGenerationCheckpoint then
      if c.rewardIndex < p.rewardIndexCheckpoint then Failure(MathOverflow)
      else CheckedSub128(c.rewardIndex, p.rewardIndexCheckpoint)
    else
      var generations :- CheckedSub64(c.rewardIndexGeneration, p.rewardIndexGenerationCheckpoint);
      if generations != 1 then Failure(MathOverflow)
      else
        var rest :- CheckedSub128(U128_MAX, p.rewardIndexCheckpoint);
        var tail :- CheckedAdd128(rest, 1);
        CheckedAdd128(tail, c.rewardIndex)
  }

  /**
   The wrapped difference is exact: it exists just when the unwrapped difference fits in 128 bits,
   for checkpoint 0 and for gaps of several generations alike, and then it is that difference.
   */
  lemma DeltaSinceExact(c: Config, p: Position)
    requires 0 <= c.rewardIndex < WRAP && 0 <= c.rewardIndexGeneration < GENERATIONS
    requires 0 <= p.rewardIndexCheckpoint < WRAP && 0 <= p.rewardIndexGenerationCheckpoint < GENERATIONS
    ensures RewardIndexDeltaSince(c, p)
         == if InReach(c, p) then Success(c.Index() - p.Checkpoint()) else Failure(MathOverflow)
  {}

  /** The minimum lock must cover the activation delay and two epochs. */
  function AssertLockPolicy(minLockSeconds: i64, activationDelaySeconds: i64, epochSeconds: i64): (r: Result<()>)
    ensures r.Success? <==>
      0 < activationDelaySeconds && 0 < epochSeconds && activationDelaySeconds + 2 * epochSeconds <= minLockSeconds
    ensures r == Failure(InvalidAmount) <==> Min(minLockSeconds, Min(activationDelaySeconds, epochSeconds)) <= 0
    ensures r == Failure(MathOverflow) <==>
      && 0 < minLockSeconds && 0 < activationDelaySeconds && 0 < epochSeconds
      && I64_MAX < activationDelaySeconds + 2 * epochSeconds
    ensures r == Failure(InvalidLockPolicy) <==>
      && 0 < minLockSeconds && 0 < activationDelaySeconds && 0 < epochSeconds
      && minLockSeconds < activationDelaySeconds + 2 * epochSeconds <= I64_MAX
  {
    if minLockSeconds <= 0 || activationDelaySeconds <= 0 || epochSeconds <= 0 then Failure(InvalidAmount)
    else
      var epochs :- CheckedMulI64(epochSeconds, 2);
      var minimumLock :- CheckedAddI64(activationDelaySeconds, epochs);
      if minLockSeconds < minimumLock then Failure(InvalidLockPolicy) else Success(())
  }
}
