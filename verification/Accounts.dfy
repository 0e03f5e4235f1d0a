/**
 The two account records as the program works on them: loaded, updated field by field in their
 stored widths with checked arithmetic, and written back.
 */
module Accounts {
  import opened Arithmetic
  import opened Checked
  import opened State
  import opened Spec
  import opened Safety
  import opened RewardIndex

  /** The carried remainders, which stay below their scale. */
  type fraction = x: int | 0 <= x < SCALE
  type basis = x: int | 0 <= x < BPS

  class ArenaConfig {
    const policy: Policy
    const createdTs: i64
    var lastEpochTs: i64
    var currentEpoch: u64
    var totalLocked: u64
    var eligibleLocked: u64
    var warmingLocked: u64
    var pendingActivationLocked: u64
    var pendingRewards: u64
    var rewardDust: u64
    var rewardIndex: u128
    var rewardIndexGeneration: u64
    var totalRewardsFunded: u64
    var totalRewardsDistributed: u64
    var totalRewardsClaimed: u64
    var totalPenaltiesCollected: u64
    var totalBurned: u64
    var totalRewardsExpired: u64

    function Value(): (c: Config)
      reads this
      ensures c.Fits()
    {
      Config(policy, createdTs, lastEpochTs, currentEpoch, totalLocked, eligibleLocked, warmingLocked,
             pendingActivationLocked, pendingRewards, rewardDust, rewardIndex, rewardIndexGeneration,
             totalRewardsFunded, totalRewardsDistributed, totalRewardsClaimed, totalPenaltiesCollected,
             totalBurned, totalRewardsExpired)
    }

    constructor Load(c: Config)
      requires c.Fits()
      ensures Value() == c
    {
      policy, createdTs, lastEpochTs, currentEpoch := c.policy, c.createdTs, c.lastEpochTs, c.currentEpoch;
      totalLocked, eligibleLocked := c.totalLocked, c.eligibleLocked;
      warmingLocked, pendingActivationLocked := c.warmingLocked, c.pendingActivationLocked;
      pendingRewards, rewardDust := c.pendingRewards, c.rewardDust;
      rewardIndex, rewardIndexGeneration := c.rewardIndex, c.rewardIndexGeneration;
      totalRewardsFunded, totalRewardsDistributed := c.totalRewardsFunded, c.totalRewardsDistributed;
      totalRewardsClaimed, totalPenaltiesCollected := c.totalRewardsClaimed, c.totalPenaltiesCollected;
      totalBurned, totalRewardsExpired := c.totalBurned, c.totalRewardsExpired;
    }

    /** The index wraps at 128 bits into the generation; the unwrapped index moves by exactly delta. */
    method AddRewardIndex(delta: u128) returns (r: Result<()>)
      modifies this`rewardIndex, this`rewardIndexGeneration
      ensures r == if old(Value()).Index() + delta < GENERATIONS * WRAP then Success(()) else Failure(MathOverflow)
      ensures r.Success? ==> Value() == Advance(old(Value()), delta)
      ensures r.Success? ==> Value().Index() == old(Value()).Index() + delta
    {
      var sum := rewardIndex + delta;
      var wrapped := sum > U128_MAX;
      rewardIndex := if wrapped then sum - WRAP else sum;
      if wrapped {
        var next :- CheckedAdd64(rewardIndexGeneration, 1);
        rewardIndexGeneration := next;
      }
      return Success(());
    }

    method CommitRewardsToIndex(amount: u64, eligibleSnapshot: u64) returns (r: Result<()>)
      modifies this`rewardIndex, this`rewardIndexGeneration, this`totalRewardsDistributed
      ensures r == if BatchDelta(amount, eligibleSnapshot) == 0 then Failure(InvalidAmount)
                   else if !RoomFor(old(Value()), amount, eligibleSnapshot) then Failure(MathOverflow)
                   else Success(())
      ensures r.Success? ==> Value() == Committed(old(Value()), amount, eligibleSnapshot)
    {
      DeltaIsBatchDelta(amount, eligibleSnapshot);
      var delta :- RewardIndexDelta(amount, eligibleSnapshot);
      var _ :- AddRewardIndex(delta);
      totalRewardsDistributed := SatAdd(totalRewardsDistributed, amount);
      return Success(());
    }

    /** Like the above, but a batch too small to move the index is left in the pool without error. */
    method TryCommitRewardsToIndex(amount: u64, eligibleSnapshot: u64) returns (r: Result<()>)
      modifies this`rewardIndex, this`rewardIndexGeneration, this`totalRewardsDistributed
      ensures r == if RoomFor(old(Value()), amount, eligibleSnapshot) then Success(()) else Failure(MathOverflow)
      ensures r.Success? ==> Value() == Committed(old(Value()), amount, eligibleSnapshot)
    {
      DeltaIsBatchDelta(amount, eligibleSnapshot);
      if amount == 0 || eligibleSnapshot == 0 {
        return Success(());
      }
      var delta := RewardIndexDelta(amount, eligibleSnapshot);
      if delta.Success? {
        var _ :- AddRewardIndex(delta.value);
        totalRewardsDistributed := SatAdd(totalRewardsDistributed, amount);
      }
      return Success(());
    }
  }

  class ArenaPosition {
    var lockedAmount: u64
    var eligibleAmount: u64
    var warmingAmount: u64
    var pendingActivationAmount: u64
    var warmingEpoch: u64
    var pendingRewards: u64
    var rewardIndexCheckpoint: u128
    var rewardIndexGenerationCheckpoint: u64
    var rewardAccrualRemainder: fraction
    var unlockTs: i64
    var activationTs: i64
    var penaltyRemainder: basis
    var burnRemainder: basis
    var totalRewardsClaimed: u64

    function Value(): (p: Position)
      reads this
      ensures p.Fits()
    {
      Position(lockedAmount, eligibleAmount, warmingAmount, pendingActivationAmount, warmingEpoch, pendingRewards,
               rewardIndexCheckpoint, rewardIndexGenerationCheckpoint, rewardAccrualRemainder, unlockTs, activationTs,
               penaltyRemainder, burnRemainder, totalRewardsClaimed)
    }

    constructor Load(p: Position)
      requires p.Fits()
      ensures Value() == p
    {
      lockedAmount, eligibleAmount := p.lockedAmount, p.eligibleAmount;
      warmingAmount, pendingActivationAmount := p.warmingAmount, p.pendingActivationAmount;
      warmingEpoch, pendingRewards := p.warmingEpoch, p.pendingRewards;
      rewardIndexCheckpoint := p.rewardIndexCheckpoint;
      rewardIndexGenerationCheckpoint := p.rewardIndexGenerationCheckpoint;
      rewardAccrualRemainder := p.rewardAccrualRemainder;
      unlockTs, activationTs := p.unlockTs, p.activationTs;
      penaltyRemainder, burnRemainder := p.penaltyRemainder, p.burnRemainder;
      totalRewardsClaimed := p.totalRewardsClaimed;
    }

    /** The scaled product of stake and index growth, with the carry, becomes whole pending tokens and a carry. */
    method Credit(delta: u128) returns (r: Result<()>)
      modifies this`rewardAccrualRemainder, this`pendingRewards
      ensures var scaled := eligibleAmount * delta + old(rewardAccrualRemainder);
        && r == (if && 0 <= eligibleAmount * delta && scaled <= U128_MAX
                    && old(pendingRewards) + scaled / SCALE <= U64_MAX
                 then Success(()) else Failure(MathOverflow))
        && (r.Success? ==>
              && rewardAccrualRemainder == scaled % SCALE
              && pendingRewards == old(pendingRewards) + scaled / SCALE)
    {
      var product :- CheckedMul128(eligibleAmount, delta);
      var scaled :- CheckedAdd128(product, rewardAccrualRemainder);
      rewardAccrualRemainder := scaled % SCALE;
      var earned :- ToU64(scaled / SCALE);
      var pending :- CheckedAdd64(pendingRewards, earned);
      pendingRewards := pending;
      return Success(());
    }

    /** Crediting the index growth since the checkpoint settles the position, or fails in its widths. */
    method AccrueRewards(config: ArenaConfig) returns (r: Result<()>)
      modifies this
      ensures r == if InReach(config.Value(), old(Value()))
                      && Liability(old(Value()), config.Value().Index()) / SCALE <= U64_MAX
                   then Success(()) else Failure(MathOverflow)
      ensures r.Success? ==> Value() == Settle(config.Value(), old(Value()))
    {
      DeltaSinceExact(config.Value(), Value());
      if InReach(config.Value(), Value()) {
        AccrualArithmetic(Value(), config.Value().Index());
      }
      var delta :- RewardIndexDeltaSince(config.Value(), Value());
      if delta > 0 && eligibleAmount > 0 {
        var _ :- Credit(delta);
      }
      rewardIndexCheckpoint := config.rewardIndex;
      rewardIndexGenerationCheckpoint := config.rewardIndexGeneration;
      return Success(());
    }

    /** The early-exit penalty as (reward share, burn share), carrying both remainders. */
    method PenaltySplit(amount: u64, earlyExitPenaltyBps: u16, burnPenaltyBps: u16) returns (r: Result<(u64, u64)>)
      modifies this`penaltyRemainder, this`burnRemainder
      ensures r.Success? <==>
        earlyExitPenaltyBps > 0 ==>
          && (amount * earlyExitPenaltyBps + old(penaltyRemainder)) / BPS <= U64_MAX
          && (burnPenaltyBps > 0 ==> (amount * burnPenaltyBps + old(burnRemainder)) / BPS <= U64_MAX)
      ensures r.Success? ==>
        var s := Spec.PenaltySplit(amount, earlyExitPenaltyBps, burnPenaltyBps,
                                   old(penaltyRemainder), old(burnRemainder));
        && r.value == (s.reward, s.burn)
        && s.reward + s.burn <= amount
        && Value() == old(Value()).(penaltyRemainder := s.penaltyRemainder, burnRemainder := s.burnRemainder)
      ensures r.Success? && burnPenaltyBps > 0 ==>
        r.value.0 == 0 || BPS * r.value.1 + burnRemainder == amount * burnPenaltyBps + old(burnRemainder)
      ensures r.Failure? ==> r.error == MathOverflow
    {
      if earlyExitPenaltyBps == 0 {
        return Success((0, 0));
      }
      SmallProduct(amount, earlyExitPenaltyBps);
      SmallProduct(amount, burnPenaltyBps);
      var scaled: u128 := amount * earlyExitPenaltyBps + penaltyRemainder;
      var penalty :- ToU64(scaled / BPS);
      penaltyRemainder := scaled % BPS;
      penalty := Min(penalty, amount);
      var burn: u64 := 0;
      if burnPenaltyBps > 0 {
        var scaledBurn: u128 := amount * burnPenaltyBps + burnRemainder;
        var rawBurn :- ToU64(scaledBurn / BPS);
        burnRemainder := scaledBurn % BPS;
        burn := Min(rawBurn, penalty);
      } else {
        burnRemainder := 0;
      }
      return Success((penalty - burn, burn));
    }
  }

  /** The program's steps compute the settled amounts, and overflow only when those do not fit. */
  lemma AccrualArithmetic(p: Position, index: int)
    requires p.Fits() && p.Checkpoint() <= index
    ensures var product := p.eligibleAmount * (index - p.Checkpoint());
      var owed := Liability(p, index);
      && 0 <= product
      && owed / SCALE == p.pendingRewards + (product + p.rewardAccrualRemainder) / SCALE
      && owed % SCALE == (product + p.rewardAccrualRemainder) % SCALE
      && (product + p.rewardAccrualRemainder > U128_MAX ==> owed / SCALE > U64_MAX)
      && (p.eligibleAmount == 0 || index == p.Checkpoint() ==> product == 0)
  {
    ProductNonNegative(p.eligibleAmount, index - p.Checkpoint());
    var n := p.eligibleAmount * (index - p.Checkpoint()) + p.rewardAccrualRemainder;
    assert Liability(p, index) == p.pendingRewards * SCALE + n;
  }

  lemma SmallProduct(amount: u64, bps: u16)
    ensures 0 <= amount * bps <= U64_MAX * 0xFFFF
  {
    ProductNonNegative(amount, bps);
    ProductNonNegative(U64_MAX - amount, bps);
    ProductNonNegative(U64_MAX, 0xFFFF - bps);
  }
}
