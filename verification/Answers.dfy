/** Which answer each instruction gives in a safe state: when it is accepted, and when each error is raised. */
module Answers {
  import opened Arithmetic
  import opened Checked
  import opened State
  import opened Spec
  import opened Safety
  import opened Preservation
  import opened Penalty
  import opened EarlyExits
  import opened Laws
  import opened MapSum

  /** How far the index has grown since a position was last settled. */
  function Gap(w: World, owner: Key): int {
    w.config.Index() - w.Lookup(owner).Checkpoint()
  }

  lemma DepositAnswers(w: World, owner: Key, amount: nat, now: int)
    requires Safe(w)
    ensures var r, policy := DepositStep(w, owner, amount, now), w.config.policy;
      var wallet := w.tokens.Balance(Wallet(owner));
      && (r.Success? <==>
            && policy.minDepositAmount <= amount <= wallet
            && Gap(w, owner) < WRAP && now + policy.minLockSeconds <= I64_MAX)
      && (r == Failure(InvalidAmount) <==> amount < policy.minDepositAmount)
      && (r == Failure(TokenFailure) <==> policy.minDepositAmount <= amount && wallet < amount)
      && (r == Failure(MathOverflow) <==>
            && policy.minDepositAmount <= amount <= wallet
            && (WRAP <= Gap(w, owner) || I64_MAX < now + policy.minLockSeconds))
  {
    LookupOk(w, owner);
  }

  lemma ActivateAnswers(w: World, owner: Key, now: int)
    requires Safe(w)
    ensures var r, p := ActivateStep(w, owner, now), w.Lookup(owner);
      var early := p.pendingActivationAmount > 0 && now < p.activationTs;
      && (r.Success? <==> p.lockedAmount > 0 && Gap(w, owner) < WRAP && !early)
      && (r == Failure(NotInitialized) <==> owner !in w.positions)
      && (r == Failure(InvalidAmount) <==> owner in w.positions && p.lockedAmount == 0)
      && (r == Failure(MathOverflow) <==>
            p.lockedAmount > 0 && WRAP <= Gap(w, owner) && (Due(w.config, p) > 0 || !early))
      && (r == Failure(ActivationNotReady) <==>
            p.lockedAmount > 0 && early && (Gap(w, owner) < WRAP || Due(w.config, p) == 0))
  {
    LookupOk(w, owner);
  }

  /** A claim needs a whole token owed, or due stake to promote. */
  lemma ClaimAnswers(w: World, owner: Key)
    requires Safe(w)
    ensures var r, p := ClaimStep(w, owner), w.Lookup(owner);
      var nothing := Liability(p, w.config.Index()) < SCALE && Due(w.config, p) == 0;
      && (r.Success? <==> p.lockedAmount > 0 && Gap(w, owner) < WRAP && !nothing)
      && (r == Failure(NotInitialized) <==> owner !in w.positions)
      && (r == Failure(InsufficientPositionBalance) <==> owner in w.positions && p.lockedAmount == 0)
      && (r == Failure(MathOverflow) <==> p.lockedAmount > 0 && WRAP <= Gap(w, owner))
      && (r == Failure(NoRewards) <==> p.lockedAmount > 0 && Gap(w, owner) < WRAP && nothing)
  {
    LookupOk(w, owner);
    LiabilityBacked(w, owner);
  }

  /** A withdrawal fails on what was asked, on reach, or at the top of the last index generation. */
  lemma WithdrawAnswers(w: World, owner: Key, amount: nat, now: int)
    requires Safe(w)
    ensures var r, p, e := WithdrawStep(w, owner, amount, now), w.Lookup(owner), ExitAt(w, owner, amount, now);
      var fits := w.config.Index() + BatchDelta(e.reward, e.base) < GENERATIONS * WRAP;
      && (r.Success? <==> 0 < amount <= p.lockedAmount && Gap(w, owner) < WRAP && fits)
      && (r == Failure(InvalidAmount) <==> amount == 0)
      && (r == Failure(NotInitialized) <==> 0 < amount && owner !in w.positions)
      && (r == Failure(InsufficientPositionBalance) <==> 0 < amount && owner in w.positions && p.lockedAmount < amount)
      && (r == Failure(MathOverflow) <==> 0 < amount <= p.lockedAmount && (WRAP <= Gap(w, owner) || !fits))
  {
    LookupOk(w, owner);
  }

  /** Funding needs eligible stake, a batch that moves the index, and, when checked, the expected base and epoch. */
  lemma FundAnswers(w: World, funder: Key, amount: nat, expected: Option<(nat, nat)>)
    requires Safe(w)
    ensures var r, base := FundStep(w, funder, amount, expected), Sum(w.positions, Eligible());
      var wallet, due := w.tokens.Balance(Wallet(funder)), 0 < amount && 0 < base;
      var stale := expected.Some? && (base != expected.value.0 || expected.value.1 < w.config.currentEpoch);
      var small, fits := amount * SCALE < base, w.config.Index() + BatchDelta(amount, base) < GENERATIONS * WRAP;
      && (r.Success? <==> due && !stale && !small && amount <= wallet && fits)
      && (r == Failure(InvalidAmount) <==> amount == 0 || (due && !stale && small))
      && (r == Failure(NoEligibleStake) <==> 0 < amount && base == 0)
      && (r == Failure(FundingSnapshotMismatch) <==> due && stale)
      && (r == Failure(TokenFailure) <==> due && !stale && !small && wallet < amount)
      && (r == Failure(MathOverflow) <==> due && !stale && !small && amount <= wallet && !fits)
  {
    if w.config.eligibleLocked > 0 {
      BatchLargest(amount, w.config.eligibleLocked);
      NoStep(amount, w.config.eligibleLocked);
    }
  }

  /** A batch does not move the index exactly when it is below one scaled unit for each unit of stake. */
  lemma NoStep(batch: nat, base: nat)
    requires 0 < base
    ensures BatchDelta(batch, base) == 0 <==> batch * SCALE < base
  {
    BatchLargest(batch, base);
    ProductMonotone(1, BatchDelta(batch, base), base);
  }

  lemma RollAnswers(w: World, now: int)
    requires Safe(w) && now <= I64_MAX
    ensures var r, c := RollStep(w, now), w.config;
      var next := c.createdTs + (c.currentEpoch + 1) * c.policy.epochSeconds;
      && (r.Success? <==> next <= now)
      && (r == Failure(MathOverflow) <==> I64_MAX < next)
      && (r == Failure(EpochNotReady) <==> now < next <= I64_MAX)
  {
    Distribute(w.config.currentEpoch, 1, w.config.policy.epochSeconds);
  }

  /** Finalization is open exactly when nobody has stake left. */
  lemma FinalizeAnswers(w: World)
    requires Safe(w)
    ensures FinalizeStep(w).Success? <==> forall o <- w.positions :: w.positions[o].lockedAmount == 0
    ensures FinalizeStep(w).Failure? ==> FinalizeStep(w).error == InvalidAmount
  {
    if forall o <- w.positions :: w.positions[o].lockedAmount == 0 {
      SumZero(w.positions, Locked());
    } else if w.config.totalLocked == 0 {
      NothingOwed(w);
    }
  }

  lemma SendAnswers(w: World, sender: Key, to: Account, amount: nat)
    ensures SendStep(w, sender, to, amount).Success? <==> amount <= w.tokens.Balance(Wallet(sender))
    ensures SendStep(w, sender, to, amount).Failure? ==> SendStep(w, sender, to, amount).error == TokenFailure
  {}

  // ---- Initialization ----

  /** What withdrawing just the minimum deposit early, with nothing carried, costs. */
  function MinimumSplit(policy: Policy): Split {
    PenaltySplit(policy.minDepositAmount, policy.earlyExitPenaltyBps, policy.burnPenaltyBps, 0, 0)
  }

  /** At rates that are not zero even the minimum deposit is charged, and burned, a whole unit. */
  predicate Felt(policy: Policy) {
    && (policy.earlyExitPenaltyBps > 0 ==> MinimumSplit(policy).reward + MinimumSplit(policy).burn >= 1)
    && (policy.burnPenaltyBps > 0 ==> MinimumSplit(policy).burn >= 1)
  }

  /** The two guards on the minimum deposit say exactly that. */
  lemma FeltIff(policy: Policy)
    requires PolicyOk(policy)
    ensures Felt(policy) <==>
      && (policy.earlyExitPenaltyBps > 0 ==> BPS <= policy.minDepositAmount * policy.earlyExitPenaltyBps)
      && (policy.burnPenaltyBps > 0 ==> BPS <= policy.minDepositAmount * policy.burnPenaltyBps)
  {
    var least := policy.minDepositAmount;
    ShareBounds(least, policy.earlyExitPenaltyBps, 0);
    ShareBounds(least, policy.burnPenaltyBps, 0);
    ShareOrder(least, policy.burnPenaltyBps, policy.earlyExitPenaltyBps);
  }

  /** A policy is accepted if and only if it is sound and its penalties can be felt on a minimum deposit. */
  lemma InitializeAnswers(policy: Policy, now: int, tokens: Tokens)
    ensures var r := Initialized(policy, now, tokens);
      r.Success? <==> PolicyOk(policy) && Felt(policy)
    ensures Initialized(policy, now, tokens).Success? ==>
      var w := Initialized(policy, now, tokens).value;
      && w.config.policy == policy && w.config.createdTs == w.config.lastEpochTs == now
      && w.config.currentEpoch == 0 && w.config.Index() == 0
      && w.positions == map[] && w.tokens == tokens
  {
    if PolicyOk(policy) {
      FeltIff(policy);
    }
  }

  /** Which error a refused policy gets, in the order of the checks. */
  lemma InitializeErrors(policy: Policy, now: int, tokens: Tokens)
    ensures var r := Initialized(policy, now, tokens);
      var locked := policy.activationDelaySeconds + 2 * policy.epochSeconds;
      var bps, burnBps, least := policy.earlyExitPenaltyBps, policy.burnPenaltyBps, policy.minDepositAmount;
      var positive := 0 < policy.minLockSeconds && 0 < policy.activationDelaySeconds && 0 < policy.epochSeconds;
      var sound := positive && locked <= I64_MAX && locked <= policy.minLockSeconds;
      && (r == Failure(MathOverflow) <==> positive && I64_MAX < locked)
      && (r == Failure(InvalidLockPolicy) <==> positive && policy.minLockSeconds < locked <= I64_MAX)
      && (r == Failure(InvalidAmount) <==> !positive || (sound && least == 0))
      && (r == Failure(InvalidPenalty) <==>
            && sound && 0 < least
            && (MAX_EARLY_EXIT_PENALTY_BPS < bps || (burnBps <= bps && 0 < bps && least * bps < BPS)))
      && (r == Failure(InvalidBurn) <==>
            && sound && 0 < least && bps <= MAX_EARLY_EXIT_PENALTY_BPS
            && (bps < burnBps || (0 < burnBps && BPS <= least * bps && least * burnBps < BPS)))
  {}

  /** So an early withdrawal of at least a minimum deposit always costs a unit, whatever is carried. */
  lemma PenaltyFelt(policy: Policy, amount: nat, penaltyRem: int, burnRem: int)
    requires PolicyOk(policy) && Felt(policy) && RemaindersOk(penaltyRem, burnRem)
    requires policy.minDepositAmount <= amount
    ensures var s := PenaltySplit(amount, policy.earlyExitPenaltyBps, policy.burnPenaltyBps, penaltyRem, burnRem);
      && (policy.earlyExitPenaltyBps > 0 ==> 1 <= s.reward + s.burn)
      && (policy.burnPenaltyBps > 0 ==> 1 <= s.burn)
  {
    var bps, burnBps := policy.earlyExitPenaltyBps, policy.burnPenaltyBps;
    FeltIff(policy);
    ProductMonotone(policy.minDepositAmount, amount, bps);
    ProductMonotone(policy.minDepositAmount, amount, burnBps);
    ShareBounds(amount, bps, penaltyRem);
    ShareBounds(amount, burnBps, burnRem);
  }

  // ---- Minimum deposits over runs ----

  /** The owner has made no accepted withdrawal. */
  predicate NeverWithdrew(w: World, calls: seq<Call>, owner: Key) {
    calls == [] ||
    var n := |calls| - 1;
    NeverWithdrew(w, calls[..n], owner) && !OwnWithdrawal(Run(w, calls[..n]), calls[n], owner)
  }

  lemma LockedSteps(w: World, call: Call, owner: Key)
    requires Safe(w) && CallOk(call) && !OwnWithdrawal(w, call, owner)
    ensures var p, q := w.Lookup(owner), After(w, call).Lookup(owner);
      q.lockedAmount == p.lockedAmount || q.lockedAmount >= p.lockedAmount + w.config.policy.minDepositAmount
  {}

  /** Stake that was never withdrawn from is none at all or at least one minimum deposit. */
  lemma {:induction false} MinimumHeld(w: World, calls: seq<Call>, owner: Key)
    requires Fresh(w) && CallsOk(calls) && NeverWithdrew(w, calls, owner)
    ensures var locked := Run(w, calls).Lookup(owner).lockedAmount;
      locked == 0 || w.config.policy.minDepositAmount <= locked
  {
    if calls != [] {
      var n := |calls| - 1;
      MinimumHeld(w, calls[..n], owner);
      RunSafe(w, calls[..n]);
      PolicyFixedOver(w, calls[..n]);
      LockedSteps(Run(w, calls[..n]), calls[n], owner);
    }
  }
}
