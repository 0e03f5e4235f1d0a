/**
 The instructions over the stored accounts. Each loads the records it needs, works on them in place,
 and stores them back only on success; in a safe state each is exactly one step of the specification.
 */
module Program {
  import opened Arithmetic
  import opened Checked
  import opened State
  import opened Spec
  import opened Safety
  import opened RewardIndex
  import opened Accounts

  // ---- Steps on two records ----

  /** What settling and promoting one position needs of the 64-bit widths. */
  predicate TouchFits(c: Config, p: Position) {
    && Liability(p, c.Index()) / SCALE <= U64_MAX
    && (WarmingReady(c, p) ==>
          && p.eligibleAmount + p.warmingAmount <= U64_MAX
          && p.warmingAmount <= c.warmingLocked
          && c.eligibleLocked + p.warmingAmount <= U64_MAX)
  }

  /** Moves the warming stake of a settled position into the eligible bucket, earning from here on. */
  method PromoteWarming(config: ArenaConfig, position: ArenaPosition) returns (r: Result<()>)
    requires position.Value().Checkpoint() == config.Value().Index()
    modifies config`warmingLocked, config`eligibleLocked, position
    ensures var amount := old(position.warmingAmount);
      && r == (if && old(position.eligibleAmount) + amount <= U64_MAX
                  && amount <= old(config.warmingLocked)
                  && old(config.eligibleLocked) + amount <= U64_MAX
               then Success(()) else Failure(MathOverflow))
      && (r.Success? ==>
            && config.warmingLocked == old(config.warmingLocked) - amount
            && config.eligibleLocked == old(config.eligibleLocked) + amount
            && position.Value() == old(position.Value()).(warmingAmount := 0,
                                                          eligibleAmount := old(position.eligibleAmount) + amount))
  {
    var amount := position.warmingAmount;
    position.warmingAmount := 0;
    var eligible :- CheckedAdd64(position.eligibleAmount, amount);
    position.eligibleAmount := eligible;
    var warmingLocked :- CheckedSub64(config.warmingLocked, amount);
    config.warmingLocked := warmingLocked;
    var eligibleLocked :- CheckedAdd64(config.eligibleLocked, amount);
    config.eligibleLocked := eligibleLocked;
    position.rewardIndexCheckpoint := config.rewardIndex;
    position.rewardIndexGenerationCheckpoint := config.rewardIndexGeneration;
    return Success(());
  }

  method MatureWarmingIfReady(config: ArenaConfig, position: ArenaPosition) returns (r: Result<()>)
    modifies config`warmingLocked, config`eligibleLocked, position
    ensures TouchFits(old(config.Value()), old(position.Value())) ==>
      (r.Success? <==> WarmingReady(old(config.Value()), old(position.Value()))
                       ==> InReach(old(config.Value()), old(position.Value())))
    ensures r.Failure? ==> r.error == MathOverflow
    ensures r.Success? ==>
      && config.Value() == TouchedConfig(old(config.Value()), old(position.Value()))
      && position.Value()
         == if WarmingReady(old(config.Value()), old(position.Value()))
            then TouchedPosition(old(config.Value()), old(position.Value()))
            else old(position.Value())
    ensures r.Success? ==> position.warmingAmount == 0 || config.currentEpoch <= position.warmingEpoch
    ensures r.Success? ==>
      position.eligibleAmount + position.warmingAmount == old(position.eligibleAmount) + old(position.warmingAmount)
  {
    if position.warmingAmount == 0 {
      return Success(());
    }
    if config.currentEpoch <= position.warmingEpoch {
      return Success(());
    }
    var _ :- position.AccrueRewards(config);
    r := PromoteWarming(config, position);
  }

  /** Promotion followed by accrual: what every owner instruction but Activate starts with. */
  method Touch(config: ArenaConfig, position: ArenaPosition) returns (r: Result<()>)
    modifies config`warmingLocked, config`eligibleLocked, position
    ensures TouchFits(old(config.Value()), old(position.Value())) ==>
      (r.Success? <==> InReach(old(config.Value()), old(position.Value())))
    ensures r.Failure? ==> r.error == MathOverflow
    ensures r.Success? ==>
      && config.Value() == TouchedConfig(old(config.Value()), old(position.Value()))
      && position.Value() == TouchedPosition(old(config.Value()), old(position.Value()))
    ensures r.Success? ==> position.warmingAmount == 0 || config.currentEpoch <= position.warmingEpoch
  {
    var _ :- MatureWarmingIfReady(config, position);
    if WarmingReady(old(config.Value()), old(position.Value())) {
      SettledAlready(config.Value(), position.Value());
      AtCheckpoint(config.Value(), position.Value());
    }
    r := position.AccrueRewards(config);
  }

  /** The three buckets can give up a withdrawal of this amount. */
  predicate Reducible(c: Config, p: Position, amount: int) {
    && PendingPart(p, amount) <= c.pendingActivationLocked
    && WarmingPart(p, amount) <= c.warmingLocked
    && EligiblePart(p, amount) <= p.eligibleAmount
    && EligiblePart(p, amount) <= c.eligibleLocked
    && amount <= p.lockedAmount
    && amount <= c.totalLocked
  }

  /** Takes what it can of an amount from the stake pending activation, and returns the rest. */
  method TakePending(config: ArenaConfig, position: ArenaPosition, amount: u64) returns (r: Result<u64>)
    modifies config`pendingActivationLocked, position`pendingActivationAmount
    ensures var taken := Min(old(position.pendingActivationAmount), amount);
      && r == (if taken <= old(config.pendingActivationLocked) then Success(amount - taken) else Failure(MathOverflow))
      && (r.Success? ==>
            && config.pendingActivationLocked == old(config.pendingActivationLocked) - taken
            && position.pendingActivationAmount == old(position.pendingActivationAmount) - taken)
  {
    var reduction: u64 := Min(position.pendingActivationAmount, amount);
    if reduction > 0 {
      position.pendingActivationAmount := position.pendingActivationAmount - reduction;
      var pendingLocked :- CheckedSub64(config.pendingActivationLocked, reduction);
      config.pendingActivationLocked := pendingLocked;
    }
    return Success(amount - reduction);
  }

  method TakeWarming(config: ArenaConfig, position: ArenaPosition, amount: u64) returns (r: Result<u64>)
    modifies config`warmingLocked, position`warmingAmount
    ensures var taken := Min(old(position.warmingAmount), amount);
      && r == (if taken <= old(config.warmingLocked) then Success(amount - taken) else Failure(MathOverflow))
      && (r.Success? ==>
            && config.warmingLocked == old(config.warmingLocked) - taken
            && position.warmingAmount == old(position.warmingAmount) - taken)
  {
    var reduction: u64 := Min(position.warmingAmount, amount);
    if reduction > 0 {
      position.warmingAmount := position.warmingAmount - reduction;
      var warmingLocked :- CheckedSub64(config.warmingLocked, reduction);
      config.warmingLocked := warmingLocked;
    }
    return Success(amount - reduction);
  }

  method TakeEligible(config: ArenaConfig, position: ArenaPosition, amount: u64) returns (r: Result<()>)
    modifies config`eligibleLocked, position`eligibleAmount
    ensures r == if amount <= old(position.eligibleAmount) && amount <= old(config.eligibleLocked)
                 then Success(()) else Failure(MathOverflow)
    ensures r.Success? ==>
      && config.eligibleLocked == old(config.eligibleLocked) - amount
      && position.eligibleAmount == old(position.eligibleAmount) - amount
  {
    if amount > 0 {
      var eligible :- CheckedSub64(position.eligibleAmount, amount);
      position.eligibleAmount := eligible;
      var eligibleLocked :- CheckedSub64(config.eligibleLocked, amount);
      config.eligibleLocked := eligibleLocked;
    }
    return Success(());
  }

  /** Takes an amount from the buckets in order: pending activation, warming, eligible. */
  method ReduceBuckets(config: ArenaConfig, position: ArenaPosition, amount: u64) returns (r: Result<()>)
    modifies config`pendingActivationLocked, config`warmingLocked, config`eligibleLocked
    modifies position`pendingActivationAmount, position`warmingAmount, position`eligibleAmount
    ensures
      var pending := Min(old(position.pendingActivationAmount), amount);
      var warming := Min(old(position.warmingAmount), amount - pending);
      var eligible := amount - pending - warming;
      && r == (if && pending <= old(config.pendingActivationLocked)
                  && warming <= old(config.warmingLocked)
                  && eligible <= old(position.eligibleAmount)
                  && eligible <= old(config.eligibleLocked)
               then Success(()) else Failure(MathOverflow))
      && (r.Success? ==>
            && config.pendingActivationLocked == old(config.pendingActivationLocked) - pending
            && config.warmingLocked == old(config.warmingLocked) - warming
            && config.eligibleLocked == old(config.eligibleLocked) - eligible
            && position.pendingActivationAmount == old(position.pendingActivationAmount) - pending
            && position.warmingAmount == old(position.warmingAmount) - warming
            && position.eligibleAmount == old(position.eligibleAmount) - eligible)
  {
    var afterPending :- TakePending(config, position, amount);
    var afterWarming :- TakeWarming(config, position, afterPending);
    r := TakeEligible(config, position, afterWarming);
  }

  /** Takes it from the totals too; a full exit gives up the carried fraction. */
  method ReduceFields(config: ArenaConfig, position: ArenaPosition, amount: u64) returns (r: Result<()>)
    modifies config`pendingActivationLocked, config`warmingLocked, config`eligibleLocked, config`totalLocked
    modifies position`pendingActivationAmount, position`warmingAmount, position`eligibleAmount,
             position`lockedAmount, position`rewardAccrualRemainder
    ensures
      var pending := Min(old(position.pendingActivationAmount), amount);
      var warming := Min(old(position.warmingAmount), amount - pending);
      var eligible := amount - pending - warming;
      && r == (if && pending <= old(config.pendingActivationLocked)
                  && warming <= old(config.warmingLocked)
                  && eligible <= old(position.eligibleAmount)
                  && eligible <= old(config.eligibleLocked)
                  && amount <= old(position.lockedAmount)
                  && amount <= old(config.totalLocked)
               then Success(()) else Failure(MathOverflow))
      && (r.Success? ==>
            && config.pendingActivationLocked == old(config.pendingActivationLocked) - pending
            && config.warmingLocked == old(config.warmingLocked) - warming
            && config.eligibleLocked == old(config.eligibleLocked) - eligible
            && config.totalLocked == old(config.totalLocked) - amount
            && position.pendingActivationAmount == old(position.pendingActivationAmount) - pending
            && position.warmingAmount == old(position.warmingAmount) - warming
            && position.eligibleAmount == old(position.eligibleAmount) - eligible
            && position.lockedAmount == old(position.lockedAmount) - amount
            && position.rewardAccrualRemainder
               == if position.lockedAmount == 0 then 0 else old(position.rewardAccrualRemainder))
  {
    var _ :- ReduceBuckets(config, position, amount);
    var locked :- CheckedSub64(position.lockedAmount, amount);
    position.lockedAmount := locked;
    var totalLocked :- CheckedSub64(config.totalLocked, amount);
    config.totalLocked := totalLocked;
    if position.lockedAmount == 0 {
      position.rewardAccrualRemainder := 0;
    }
    return Success(());
  }

  method ReducePositionStake(config: ArenaConfig, position: ArenaPosition, amount: u64) returns (r: Result<()>)
    modifies config`pendingActivationLocked, config`warmingLocked, config`eligibleLocked, config`totalLocked
    modifies position`pendingActivationAmount, position`warmingAmount, position`eligibleAmount,
             position`lockedAmount, position`rewardAccrualRemainder
    ensures r == if Reducible(old(config.Value()), old(position.Value()), amount)
                 then Success(()) else Failure(MathOverflow)
    ensures r.Success? ==>
      && config.Value() == ReducedConfig(old(config.Value()), old(position.Value()), amount)
      && position.Value() == ReducedPosition(old(position.Value()), amount)
  {
    r := ReduceFields(config, position, amount);
  }

  method PayPendingRewards(config: ArenaConfig, position: ArenaPosition, tokens: Tokens, owner: Key)
    returns (r: Result<Tokens>)
    modifies config`totalRewardsClaimed, position
    ensures r == if old(position.pendingRewards) <= tokens.pool || old(position.pendingRewards) == 0
                 then Success(tokens.Move(Pool, Wallet(owner), old(position.pendingRewards)))
                 else Failure(TokenFailure)
    ensures r.Success? && 0 <= tokens.pool ==> 0 <= r.value.pool
    ensures r.Success? ==>
      && config.Value() == PaidConfig(old(config.Value()), old(position.pendingRewards))
      && position.Value() == PaidPosition(old(position.Value()), old(position.pendingRewards))
  {
    var amount := position.pendingRewards;
    if amount == 0 {
      return Success(tokens);
    }
    var paid :- tokens.Transfer(Pool, Wallet(owner), amount);
    position.pendingRewards := 0;
    position.totalRewardsClaimed := SatAdd(position.totalRewardsClaimed, amount);
    config.totalRewardsClaimed := SatAdd(config.totalRewardsClaimed, amount);
    return Success(paid);
  }

  /** Transfers out of custody skip the token program when there is nothing to move. */
  function TransferFromProgram(t: Tokens, from: Account, to: Account, amount: nat): (r: Result<Tokens>)
    ensures r.Success? <==> amount == 0 || amount <= t.Balance(from)
    ensures r.Success? ==> r.value == t.Move(from, to, amount)
    ensures r.Failure? ==> r.error == TokenFailure
  {
    if amount == 0 then Success(t) else t.Transfer(from, to, amount)
  }

  function BurnFromProgram(t: Tokens, from: Account, amount: nat): (r: Result<Tokens>)
    ensures r.Success? <==> amount == 0 || amount <= t.Balance(from)
    ensures r.Success? ==> r.value == t.Burn(from, amount)
    ensures r.Failure? ==> r.error == TokenFailure
  {
    if amount == 0 then Success(t) else t.BurnFrom(from, amount)
  }

  /** The share of a withdrawal that is redistributed and the share that is burned. */
  method ExitPenalty(config: ArenaConfig, position: ArenaPosition, amount: u64, now: i64, eligibleLockedAfter: u64)
    returns (r: Result<(u64, u64)>)
    requires eligibleLockedAfter == config.eligibleLocked - EligiblePart(position.Value(), amount)
    modifies position`penaltyRemainder, position`burnRemainder
    ensures PolicyOk(config.policy) ==> r.Success?
    ensures r.Success? ==>
      var e := ExitOf(config.Value(), old(position.Value()), amount, now);
      && r.value == (e.reward, e.burned)
      && r.value.0 + r.value.1 <= amount
      && position.Value() == old(position.Value()).(penaltyRemainder := e.split.penaltyRemainder,
                                                    burnRemainder := e.split.burnRemainder)
    ensures r.Failure? ==> r.error == MathOverflow
  {
    var rewardPenalty: u64, burned: u64 := 0, 0;
    if now < position.unlockTs && config.policy.earlyExitPenaltyBps > 0 {
      if PolicyOk(config.policy) {
        PenaltyFits(amount, config.policy.earlyExitPenaltyBps, position.penaltyRemainder);
        PenaltyFits(amount, config.policy.burnPenaltyBps, position.burnRemainder);
      }
      var split :- position.PenaltySplit(amount, config.policy.earlyExitPenaltyBps, config.policy.burnPenaltyBps);
      rewardPenalty, burned := split.0, split.1;
    } else {
      position.penaltyRemainder := 0;
      position.burnRemainder := 0;
    }
    if eligibleLockedAfter == 0 {
      burned := burned + rewardPenalty;
      rewardPenalty := 0;
    }
    return Success((rewardPenalty, burned));
  }

  lemma PenaltyFits(amount: u64, bps: u16, remainder: int)
    requires bps <= MAX_EARLY_EXIT_PENALTY_BPS && 0 <= remainder < BPS
    ensures (amount * bps + remainder) / BPS <= U64_MAX
  {
    ProductNonNegative(amount, MAX_EARLY_EXIT_PENALTY_BPS - bps);
  }

  /** Principal back to the owner, the redistributed share to the pool, the rest burned. */
  function MoveExit(t: Tokens, owner: Key, amount: nat, reward: nat, burned: nat): (r: Result<Tokens>)
    requires reward + burned <= amount
  {
    var returned := amount - reward - burned;
    var t1 :- TransferFromProgram(t, Vault, Wallet(owner), returned);
    var t2 :- TransferFromProgram(t1, Vault, Pool, reward);
    BurnFromProgram(t2, Vault, burned)
  }

  lemma MoveExitCovered(t: Tokens, owner: Key, amount: nat, reward: nat, burned: nat)
    requires reward + burned <= amount
    ensures amount <= t.vault ==> MoveExit(t, owner, amount, reward, burned).Success?
    ensures MoveExit(t, owner, amount, reward, burned).Success? ==>
      MoveExit(t, owner, amount, reward, burned).value
      == t.Move(Vault, Wallet(owner), amount - reward - burned).Move(Vault, Pool, reward).Burn(Vault, burned)
    ensures MoveExit(t, owner, amount, reward, burned).Success? ==>
      MoveExit(t, owner, amount, reward, burned).value.pool == t.pool + reward
    ensures MoveExit(t, owner, amount, reward, burned).Failure? ==>
      MoveExit(t, owner, amount, reward, burned).error == TokenFailure
  {}

  lemma PaidNothing(c: Config, p: Position, t: Tokens, owner: Key)
    requires c.Fits() && p.Fits()
    ensures PaidConfig(c, 0) == c && PaidPosition(p, 0) == p && t.Move(Pool, Wallet(owner), 0) == t
  {}

  /** Settles the position and, on a full exit, pays everything pending. */
  method SettleForExit(config: ArenaConfig, position: ArenaPosition, tokens: Tokens, owner: Key, amount: u64)
    returns (r: Result<Tokens>, ghost paid: int)
    modifies config`warmingLocked, config`eligibleLocked, config`totalRewardsClaimed, position
    ensures
      var c, p := old(config.Value()), old(position.Value());
      var p1 := TouchedPosition(c, p);
      && paid == (if amount == p1.lockedAmount then p1.pendingRewards else 0)
      && (TouchFits(c, p) && paid <= tokens.pool ==> (r.Success? <==> InReach(c, p)))
      && (TouchFits(c, p) && !InReach(c, p) ==> r == Failure(MathOverflow))
      && (r.Success? ==>
            && r.value == tokens.Move(Pool, Wallet(owner), paid)
            && (0 <= tokens.pool ==> 0 <= r.value.pool)
            && config.Value() == PaidConfig(TouchedConfig(c, p), paid)
            && position.Value() == PaidPosition(p1, paid))
  {
    ghost var p1 := TouchedPosition(config.Value(), position.Value());
    paid := if amount == p1.lockedAmount then p1.pendingRewards else 0;
    var touched := Touch(config, position);
    if touched.Failure? {
      return Failure(MathOverflow), paid;
    }
    PaidNothing(config.Value(), position.Value(), tokens, owner);
    if amount == position.lockedAmount {
      var settled := PayPendingRewards(config, position, tokens, owner);
      return settled, paid;
    }
    return Success(tokens), paid;
  }

  /** The config and position once the penalty is charged and committed, the stake not yet reduced. */
  function Charged(c: Config, reward: int, base: int, burned: int): Config {
    Committed(c, reward, base).(
      totalPenaltiesCollected := SatAdd(c.totalPenaltiesCollected, reward + burned),
      totalBurned := SatAdd(c.totalBurned, burned))
  }

  function Carrying(p: Position, split: Split): Position {
    p.(penaltyRemainder := split.penaltyRemainder, burnRemainder := split.burnRemainder)
  }

  /** The eligible stake that will remain, before anything is reduced. */
  method EligibleLockedAfter(config: ArenaConfig, position: ArenaPosition, amount: u64) returns (r: Result<u64>)
    ensures var left := config.eligibleLocked - EligiblePart(position.Value(), amount);
      r == if 0 <= left then Success(left) else Failure(MathOverflow)
  {
    var pendingReduction: u64 := Min(position.pendingActivationAmount, amount);
    var warmingReduction: u64 := Min(position.warmingAmount, amount - pendingReduction);
    var eligibleReduction: u64 := amount - pendingReduction - warmingReduction;
    r := CheckedSub64(config.eligibleLocked, eligibleReduction);
  }

  /** Commits the redistributed share over the remaining base and counts the penalty. */
  method CommitPenalty(config: ArenaConfig, reward: u64, burned: u64, base: u64) returns (r: Result<()>)
    modifies config`rewardIndex, config`rewardIndexGeneration, config`totalRewardsDistributed,
             config`totalPenaltiesCollected, config`totalBurned
    ensures r == if RoomFor(old(config.Value()), reward, base) then Success(()) else Failure(MathOverflow)
    ensures r.Success? ==> config.Value() == Charged(old(config.Value()), reward, base, burned)
  {
    var _ :- config.TryCommitRewardsToIndex(reward, base);
    config.totalPenaltiesCollected := SatAdd(config.totalPenaltiesCollected, reward + burned);
    config.totalBurned := SatAdd(config.totalBurned, burned);
    return Success(());
  }

  lemma ExitAfterPayment(c: Config, p: Position, amount: int, now: int, paid: int)
    ensures var e := ExitOf(c, p, amount, now);
      ExitOf(PaidConfig(c, paid), PaidPosition(p, paid), amount, now).(paid := e.paid) == e
  {}

  /** Charges the penalty of the touched records c and p, already paid, and commits the redistributed share. */
  method ChargeExit(config: ArenaConfig, position: ArenaPosition, tokens: Tokens, owner: Key, amount: u64, now: i64,
                    ghost c: Config, ghost p: Position, ghost e: Exit)
    returns (r: Result<Tokens>)
    requires config.Value() == PaidConfig(c, e.paid) && position.Value() == PaidPosition(p, e.paid)
    requires e == ExitOf(c, p, amount, now)
    modifies config`rewardIndex, config`rewardIndexGeneration, config`totalRewardsDistributed,
             config`totalPenaltiesCollected, config`totalBurned
    modifies position`penaltyRemainder, position`burnRemainder
    ensures PolicyOk(c.policy) && 0 <= e.base && amount <= tokens.vault ==>
      r.Success? == RoomFor(c, e.reward, e.base) && (r.Failure? ==> r.error == MathOverflow)
    ensures r.Success? ==>
      && r.value == tokens.Move(Vault, Wallet(owner), amount - e.reward - e.burned)
                          .Move(Vault, Pool, e.reward).Burn(Vault, e.burned)
      && tokens.pool <= r.value.pool
      && config.Value() == Charged(PaidConfig(c, e.paid), e.reward, e.base, e.burned)
      && position.Value() == Carrying(PaidPosition(p, e.paid), e.split)
  {
    ExitAfterPayment(c, p, amount, now, e.paid);
    var eligibleLockedAfter :- EligibleLockedAfter(config, position, amount);
    var penalty :- ExitPenalty(config, position, amount, now, eligibleLockedAfter);
    var rewardPenalty, burned := penalty.0, penalty.1;
    MoveExitCovered(tokens, owner, amount, rewardPenalty, burned);
    var t :- MoveExit(tokens, owner, amount, rewardPenalty, burned);
    var _ :- CommitPenalty(config, rewardPenalty, burned, eligibleLockedAfter);
    return Success(t);
  }

  lemma PaymentFirst(t: Tokens, owner: Key, amount: int, e: Exit)
    ensures var paid := t.Move(Pool, Wallet(owner), e.paid);
      && paid.vault == t.vault
      && ExitTokens(t, owner, amount, e)
         == paid.Move(Vault, Wallet(owner), amount - e.reward - e.burned)
                .Move(Vault, Pool, e.reward).Burn(Vault, e.burned)
  {}

  method SettleAndCharge(config: ArenaConfig, position: ArenaPosition, tokens: Tokens, owner: Key, amount: u64,
                         now: i64)
    returns (r: Result<Tokens>)
    modifies config, position
    ensures r.Success? && 0 <= tokens.pool ==> 0 <= r.value.pool
    ensures
      var c, p := old(config.Value()), old(position.Value());
      var c1, p1 := TouchedConfig(c, p), TouchedPosition(c, p);
      var e := ExitOf(c1, p1, amount, now);
      && (TouchFits(c, p) && PolicyOk(c.policy) && 0 <= e.base
          && e.paid <= tokens.pool && amount <= tokens.vault ==>
            r.Success? == (InReach(c, p) && RoomFor(c1, e.reward, e.base)) && (r.Failure? ==> r.error == MathOverflow))
      && (r.Success? ==>
            && r.value == ExitTokens(tokens, owner, amount, e)
            && config.Value() == Charged(PaidConfig(c1, e.paid), e.reward, e.base, e.burned)
            && position.Value() == Carrying(PaidPosition(p1, e.paid), e.split))
  {
    ghost var c1 := TouchedConfig(config.Value(), position.Value());
    ghost var p1 := TouchedPosition(config.Value(), position.Value());
    var settled, paid := SettleForExit(config, position, tokens, owner, amount);
    ghost var e := ExitOf(c1, p1, amount, now);
    assert e.paid == paid;
    PaymentFirst(tokens, owner, amount, e);
    if settled.Failure? {
      return settled;
    }
    r := ChargeExit(config, position, settled.value, owner, amount, now, c1, p1, e);
  }

  /** What the records and balances must hold for a withdrawal to meet no overflow or shortfall. */
  predicate Coverable(c: Config, p: Position, t: Tokens, amount: int, now: int) {
    var c1, p1 := TouchedConfig(c, p), TouchedPosition(c, p);
    && TouchFits(c, p)
    && PolicyOk(c.policy)
    && Reducible(c1, p1, amount)
    && ExitOf(c1, p1, amount, now).paid <= t.pool
    && amount <= t.vault
  }

  /** The program charges and commits before it reduces the stake; the records come out the same. */
  lemma ReduceCommutes(c: Config, p: Position, amount: int, e: Exit)
    ensures var charged := Charged(PaidConfig(c, e.paid), e.reward, e.base, e.burned);
      var carrying := Carrying(PaidPosition(p, e.paid), e.split);
      && ExitConfig(c, p, amount, e) == ReducedConfig(charged, carrying, amount)
      && ExitPosition(p, amount, e) == ReducedPosition(carrying, amount)
      && Reducible(c, p, amount) == Reducible(charged, carrying, amount)
  {}

  method WithdrawFrom(config: ArenaConfig, position: ArenaPosition, tokens: Tokens, owner: Key, amount: u64, now: i64)
    returns (r: Result<Tokens>)
    modifies config, position
    ensures r.Success? && 0 <= tokens.pool ==> 0 <= r.value.pool
    ensures
      var c, p := old(config.Value()), old(position.Value());
      var c1, p1 := TouchedConfig(c, p), TouchedPosition(c, p);
      var e := ExitOf(c1, p1, amount, now);
      Coverable(c, p, tokens, amount, now) ==>
        if !InReach(c, p) || !RoomFor(c1, e.reward, e.base) then r == Failure(MathOverflow)
        else
          && r == Success(ExitTokens(tokens, owner, amount, e))
          && config.Value() == ExitConfig(c1, p1, amount, e)
          && position.Value() == ExitPosition(p1, amount, e)
  {
    ghost var c1 := TouchedConfig(config.Value(), position.Value());
    ghost var p1 := TouchedPosition(config.Value(), position.Value());
    ghost var e := ExitOf(c1, p1, amount, now);
    ReduceCommutes(c1, p1, amount, e);
    var t :- SettleAndCharge(config, position, tokens, owner, amount, now);
    var _ :- ReducePositionStake(config, position, amount);
    return Success(t);
  }

  /** First stake sets both clocks; later deposits only push them out. */
  method ExtendClocks(position: ArenaPosition, hadLocked: bool, priorPending: u64, minUnlock: i64, minActivation: i64)
    modifies position`unlockTs, position`activationTs
    ensures position.unlockTs == if hadLocked then Max(old(position.unlockTs), minUnlock) else minUnlock
    ensures position.activationTs
         == if hadLocked && priorPending > 0 then Max(old(position.activationTs), minActivation) else minActivation
  {
    if !hadLocked {
      position.unlockTs := minUnlock;
      position.activationTs := minActivation;
    } else {
      if minUnlock > position.unlockTs {
        position.unlockTs := minUnlock;
      }
      if priorPending == 0 {
        position.activationTs := minActivation;
      } else if minActivation > position.activationTs {
        position.activationTs := minActivation;
      }
    }
  }

  predicate RoomForStake(c: Config, p: Position, amount: int) {
    && p.lockedAmount + amount <= U64_MAX
    && p.pendingActivationAmount + amount <= U64_MAX
    && c.totalLocked + amount <= U64_MAX
    && c.pendingActivationLocked + amount <= U64_MAX
  }

  method AddToTotals(config: ArenaConfig, amount: u64) returns (r: Result<()>)
    modifies config`totalLocked, config`pendingActivationLocked
    ensures r == if && old(config.totalLocked) + amount <= U64_MAX
                    && old(config.pendingActivationLocked) + amount <= U64_MAX
                 then Success(()) else Failure(MathOverflow)
    ensures r.Success? ==> config.Value() == DepositedConfig(old(config.Value()), amount)
  {
    var totalLocked :- CheckedAdd64(config.totalLocked, amount);
    var pendingLocked :- CheckedAdd64(config.pendingActivationLocked, amount);
    config.totalLocked, config.pendingActivationLocked := totalLocked, pendingLocked;
    return Success(());
  }

  /** The stake and the clocks of a touched position after a deposit. */
  method AddStake(config: ArenaConfig, position: ArenaPosition, amount: u64, now: i64) returns (r: Result<()>)
    modifies config`totalLocked, config`pendingActivationLocked
    modifies position`lockedAmount, position`pendingActivationAmount, position`unlockTs, position`activationTs
    ensures PolicyOk(config.policy) && RoomForStake(old(config.Value()), old(position.Value()), amount) ==>
      (r.Success? <==> now + config.policy.minLockSeconds <= I64_MAX)
    ensures r.Failure? ==> r.error == MathOverflow
    ensures r.Success? ==>
      && config.Value() == DepositedConfig(old(config.Value()), amount)
      && position.Value() == DepositedPosition(config.policy, old(position.Value()), amount, now)
  {
    var hadLocked := position.lockedAmount > 0;
    var priorPending := position.pendingActivationAmount;
    var minUnlock :- CheckedAddI64(now, config.policy.minLockSeconds);
    var minActivation :- CheckedAddI64(now, config.policy.activationDelaySeconds);
    var locked :- CheckedAdd64(position.lockedAmount, amount);
    position.lockedAmount := locked;
    var pending :- CheckedAdd64(position.pendingActivationAmount, amount);
    position.pendingActivationAmount := pending;
    ExtendClocks(position, hadLocked, priorPending, minUnlock, minActivation);
    r := AddToTotals(config, amount);
  }

  /** What a deposit needs of the records so that only the clock can overflow. */
  predicate Depositable(c: Config, p: Position, amount: int) {
    && TouchFits(c, p)
    && PolicyOk(c.policy)
    && RoomForStake(TouchedConfig(c, p), TouchedPosition(c, p), amount)
  }

  lemma TouchBlank(c: Config)
    ensures TouchedConfig(c, Blank(c)) == c && TouchedPosition(c, Blank(c)) == Blank(c) && InReach(c, Blank(c))
  {
    AtCheckpoint(c, Blank(c));
  }

  /** Touches the stored position, or opens one when the account holds no data, and adds the stake. */
  method DepositInto(config: ArenaConfig, stored: Option<Position>, amount: u64, now: i64) returns (r: Result<Position>)
    requires stored.Some? ==> stored.value.Fits()
    modifies config
    ensures r.Success? ==> r.value.Fits()
    ensures
      var c := old(config.Value());
      var p := if stored.Some? then stored.value else Blank(c);
      Depositable(c, p, amount) ==>
        if !InReach(c, p) || now + c.policy.minLockSeconds > I64_MAX then r == Failure(MathOverflow)
        else
          && r == Success(DepositedPosition(c.policy, TouchedPosition(c, p), amount, now))
          && config.Value() == DepositedConfig(TouchedConfig(c, p), amount)
  {
    var position: ArenaPosition;
    if stored.Some? {
      position := new ArenaPosition.Load(stored.value);
      var _ :- Touch(config, position);
    } else {
      TouchBlank(config.Value());
      position := new ArenaPosition.Load(Blank(config.Value()));
    }
    var _ :- AddStake(config, position, amount, now);
    return Success(position.Value());
  }

  /** The accounting of a claim; a claim with nothing to pay is kept only if it promoted stake. */
  method ClaimFrom(config: ArenaConfig, position: ArenaPosition, tokens: Tokens, owner: Key) returns (r: Result<Tokens>)
    modifies config, position
    ensures r.Success? && 0 <= tokens.pool ==> 0 <= r.value.pool
    ensures
      var c, p := old(config.Value()), old(position.Value());
      var c1, p1 := TouchedConfig(c, p), TouchedPosition(c, p);
      TouchFits(c, p) && p1.pendingRewards <= tokens.pool ==>
        if !InReach(c, p) then r == Failure(MathOverflow)
        else if p1.pendingRewards == 0 && !WarmingReady(c, p) then r == Failure(NoRewards)
        else
          && r == Success(tokens.Move(Pool, Wallet(owner), p1.pendingRewards))
          && config.Value() == PaidConfig(c1, p1.pendingRewards)
          && position.Value() == PaidPosition(p1, p1.pendingRewards)
  {
    var maturitySync := position.warmingAmount > 0 && config.currentEpoch > position.warmingEpoch;
    var _ :- Touch(config, position);
    if position.pendingRewards == 0 {
      PaidNothing(config.Value(), position.Value(), tokens, owner);
      if maturitySync {
        return Success(tokens);
      }
      return Failure(NoRewards);
    }
    r := PayPendingRewards(config, position, tokens, owner);
  }

  /** The guards of funding, in order, the transfer to the pool and the commit. */
  method FundInto(config: ArenaConfig, tokens: Tokens, funder: Key, amount: u64, expected: Option<(nat, nat)>)
    returns (r: Result<Tokens>)
    modifies config`rewardIndex, config`rewardIndexGeneration, config`totalRewardsDistributed, config`totalRewardsFunded
    ensures r.Success? && 0 <= tokens.pool ==> 0 <= r.value.pool
    ensures
      var c := old(config.Value());
      var base := c.eligibleLocked;
      if amount == 0 then r == Failure(InvalidAmount)
      else if base == 0 then r == Failure(NoEligibleStake)
      else if expected.Some? && (base != expected.value.0 || c.currentEpoch > expected.value.1)
      then r == Failure(FundingSnapshotMismatch)
      else if BatchDelta(amount, base) == 0 then r == Failure(InvalidAmount)
      else if tokens.Balance(Wallet(funder)) < amount then r == Failure(TokenFailure)
      else if !RoomFor(c, amount, base) then r == Failure(MathOverflow)
      else r == Success(tokens.Move(Wallet(funder), Pool, amount)) && config.Value() == FundedConfig(c, amount)
  {
    if amount == 0 {
      return Failure(InvalidAmount);
    }
    if config.eligibleLocked == 0 {
      return Failure(NoEligibleStake);
    }
    var eligibleSnapshot := config.eligibleLocked;
    if expected.Some? {
      if eligibleSnapshot != expected.value.0 || config.currentEpoch > expected.value.1 {
        return Failure(FundingSnapshotMismatch);
      }
    }
    DeltaIsBatchDelta(amount, eligibleSnapshot);
    var _ :- RewardIndexDelta(amount, eligibleSnapshot);
    var moved :- tokens.Transfer(Wallet(funder), Pool, amount);
    var _ :- config.CommitRewardsToIndex(amount, eligibleSnapshot);
    config.totalRewardsFunded := SatAdd(config.totalRewardsFunded, amount);
    return Success(moved);
  }

  method WarmTotals(config: ArenaConfig, amount: u64) returns (r: Result<()>)
    modifies config`pendingActivationLocked, config`warmingLocked
    ensures r == if amount <= old(config.pendingActivationLocked) && old(config.warmingLocked) + amount <= U64_MAX
                 then Success(()) else Failure(MathOverflow)
    ensures r.Success? ==>
      && config.pendingActivationLocked == old(config.pendingActivationLocked) - amount
      && config.warmingLocked == old(config.warmingLocked) + amount
  {
    var pendingLocked :- CheckedSub64(config.pendingActivationLocked, amount);
    config.pendingActivationLocked := pendingLocked;
    var warmingLocked :- CheckedAdd64(config.warmingLocked, amount);
    config.warmingLocked := warmingLocked;
    return Success(());
  }

  /** Moves the pending stake of a settled position into warming. */
  method StartWarming(config: ArenaConfig, position: ArenaPosition) returns (r: Result<()>)
    requires position.pendingActivationAmount > 0
    modifies config`pendingActivationLocked, config`warmingLocked
    modifies position`pendingActivationAmount, position`warmingEpoch, position`warmingAmount
    ensures
      r == if && old(position.warmingAmount) + old(position.pendingActivationAmount) <= U64_MAX
              && old(position.pendingActivationAmount) <= old(config.pendingActivationLocked)
              && old(config.warmingLocked) + old(position.pendingActivationAmount) <= U64_MAX
           then Success(()) else Failure(MathOverflow)
    ensures r.Success? ==>
      && position.pendingActivationAmount == 0
      && position.warmingAmount == old(position.warmingAmount) + old(position.pendingActivationAmount)
      && position.warmingEpoch == if old(position.warmingAmount) == 0 then config.currentEpoch
                                  else old(position.warmingEpoch)
    ensures r.Success? ==>
      && config.Value() == ActivatedConfig(old(config.Value()), old(position.Value()))
      && position.Value() == ActivatedPosition(old(config.Value()), old(position.Value()))
  {
    var amount := position.pendingActivationAmount;
    position.pendingActivationAmount := 0;
    if position.warmingAmount == 0 {
      position.warmingEpoch := config.currentEpoch;
    }
    var warming :- CheckedAdd64(position.warmingAmount, amount);
    position.warmingAmount := warming;
    r := WarmTotals(config, amount);
  }

  /** What activation needs of the records so that no check but its own guards can fail. */
  predicate Activatable(c: Config, p: Position) {
    var c1, p1 := TouchedConfig(c, p), TouchedPosition(c, p);
    && TouchFits(c, p)
    && p.lockedAmount == p.eligibleAmount + p.warmingAmount + p.pendingActivationAmount
    && p1.warmingAmount + p1.pendingActivationAmount <= U64_MAX
    && p1.pendingActivationAmount <= c1.pendingActivationLocked
    && c1.warmingLocked + p1.pendingActivationAmount <= U64_MAX
  }

  method ActivateIn(config: ArenaConfig, position: ArenaPosition, now: i64) returns (r: Result<()>)
    modifies config, position
    ensures
      var c, p := old(config.Value()), old(position.Value());
      Activatable(c, p) ==>
        if WarmingReady(c, p) && !InReach(c, p) then r == Failure(MathOverflow)
        else if p.lockedAmount == 0 then r == Failure(InvalidAmount)
        else if p.pendingActivationAmount > 0 && now < p.activationTs then r == Failure(ActivationNotReady)
        else if !InReach(c, p) then r == Failure(MathOverflow)
        else
          && r == Success(())
          && config.Value() == ActivatedConfig(TouchedConfig(c, p), TouchedPosition(c, p))
          && position.Value() == ActivatedPosition(TouchedConfig(c, p), TouchedPosition(c, p))
  {
    ghost var c, p := config.Value(), position.Value();
    var _ :- MatureWarmingIfReady(config, position);
    if WarmingReady(c, p) {
      SettledAlready(config.Value(), position.Value());
      AtCheckpoint(config.Value(), position.Value());
    }
    if position.pendingActivationAmount == 0 {
      if position.warmingAmount == 0 && position.eligibleAmount == 0 && position.lockedAmount == 0 {
        return Failure(InvalidAmount);
      }
      r := position.AccrueRewards(config);
      return;
    }
    if now < position.activationTs {
      return Failure(ActivationNotReady);
    }
    var _ :- position.AccrueRewards(config);
    r := StartWarming(config, position);
  }

  /** Finalization needs an arena without stake, and burns and counts whatever the pool holds. */
  method FinalizeIn(config: ArenaConfig, tokens: Tokens) returns (r: Result<Tokens>)
    requires 0 <= tokens.pool
    modifies config`pendingRewards, config`rewardDust, config`totalRewardsExpired, config`totalBurned
    ensures
      var c := old(config.Value());
      if c.totalLocked != 0 || c.eligibleLocked != 0 || c.warmingLocked != 0
         || c.pendingActivationLocked != 0 || c.pendingRewards != 0
      then r == Failure(InvalidAmount)
      else
        && r == Success(tokens.Burn(Pool, tokens.pool))
        && (c.rewardDust == 0 ==> config.Value() == FinalizedConfig(c, tokens.pool))
  {
    if config.totalLocked != 0 || config.eligibleLocked != 0 || config.warmingLocked != 0
       || config.pendingActivationLocked != 0 || config.pendingRewards != 0 {
      return Failure(InvalidAmount);
    }
    var amount := tokens.pool;
    if amount == 0 {
      return Success(tokens);
    }
    r := tokens.BurnFrom(Pool, amount);
    if r.Success? {
      config.pendingRewards := 0;
      config.rewardDust := 0;
      config.totalRewardsExpired := SatAdd(config.totalRewardsExpired, amount);
      config.totalBurned := SatAdd(config.totalBurned, amount);
    }
  }
}
