/**
 What each instruction does, said without its steps: what moves, what is conserved, what comes first.
 In a safe state these laws hold of every accepted call, and no other next state satisfies them.
 */
module Laws {
  import opened Arithmetic
  import opened Checked
  import opened State
  import opened Spec
  import opened Safety
  import opened Preservation
  import opened Liveness
  import opened Penalty
  import opened Ledger
  import opened EarlyExits

  // ---- The vocabulary ----

  /** The warming stake activated in an epoch that is over. */
  function Due(c: Config, p: Position): int {
    if p.warmingEpoch < c.currentEpoch then p.warmingAmount else 0
  }

  /** Everything owed is accounted for at the current index: paid, dropped, or kept in whole tokens and a fraction. */
  predicate Earned(c: Config, p: Position, q: Position, paid: int, dropped: int) {
    && q.Checkpoint() == c.Index() && 0 <= q.rewardIndexCheckpoint < WRAP
    && 0 <= q.rewardAccrualRemainder < SCALE
    && q.pendingRewards * SCALE + q.rewardAccrualRemainder == Liability(p, c.Index()) - paid * SCALE - dropped
    && q.totalRewardsClaimed == Min(U64_MAX, p.totalRewardsClaimed + paid)
  }

  predicate SameClocks(p: Position, q: Position) {
    q.unlockTs == p.unlockTs && q.activationTs == p.activationTs
  }

  predicate SameRemainders(p: Position, q: Position) {
    q.penaltyRemainder == p.penaltyRemainder && q.burnRemainder == p.burnRemainder
  }

  /** Only the owner's record is written. */
  ghost predicate OnlyOwner(w: World, owner: Key, w': World) {
    && w'.positions.Keys == w.positions.Keys + {owner}
    && (forall k <- w.positions :: k != owner ==> w'.positions[k] == w.positions[k])
    && Matches(w, owner, w'.config, w'.Lookup(owner))
  }

  /** What the config keeps in every call, and what its counters gain, up to their top. */
  predicate Gains(c: Config, c': Config, funded: int, distributed: int, claimed: int, penalties: int, burned: int,
                  expired: int)
  {
    && c'.policy == c.policy && c'.createdTs == c.createdTs
    && c'.pendingRewards == c.pendingRewards && c'.rewardDust == c.rewardDust
    && c'.totalRewardsFunded == Min(U64_MAX, c.totalRewardsFunded + funded)
    && c'.totalRewardsDistributed == Min(U64_MAX, c.totalRewardsDistributed + distributed)
    && c'.totalRewardsClaimed == Min(U64_MAX, c.totalRewardsClaimed + claimed)
    && c'.totalPenaltiesCollected == Min(U64_MAX, c.totalPenaltiesCollected + penalties)
    && c'.totalBurned == Min(U64_MAX, c.totalBurned + burned)
    && c'.totalRewardsExpired == Min(U64_MAX, c.totalRewardsExpired + expired)
  }

  predicate SameEpoch(c: Config, c': Config) {
    c'.currentEpoch == c.currentEpoch && c'.lastEpochTs == c.lastEpochTs
  }

  predicate SameStake(c: Config, c': Config) {
    && c'.totalLocked == c.totalLocked && c'.eligibleLocked == c.eligibleLocked
    && c'.warmingLocked == c.warmingLocked && c'.pendingActivationLocked == c.pendingActivationLocked
  }

  /** The index moves by the largest step whose total over the base stays within the batch. */
  predicate Indexed(c: Config, c': Config, batch: int, base: int) {
    var d := c'.Index() - c.Index();
    && 0 <= c'.rewardIndex < WRAP
    && if base == 0 then d == 0 else base * d <= batch * SCALE < base * (d + 1)
  }

  predicate SameIndex(c: Config, c': Config) {
    Indexed(c, c', 0, 0)
  }

  /** Vault, pool, one wallet and the burned total gain these amounts; no other wallet changes. */
  ghost predicate Moved(t: Tokens, t': Tokens, vault: int, pool: int, k: Key, gained: int, burned: int) {
    && t'.vault == t.vault + vault && t'.pool == t.pool + pool && t'.burned == t.burned + burned
    && forall j: Key :: t'.Balance(Wallet(j)) == t.Balance(Wallet(j)) + (if j == k then gained else 0)
  }

  // ---- The laws ----

  ghost predicate DepositLaw(w: World, owner: Key, amount: int, now: int, o: Outcome) {
    var c, c', p, q := w.config, o.world.config, w.Lookup(owner), o.world.Lookup(owner);
    var unlock, ready := now + c.policy.minLockSeconds, now + c.policy.activationDelaySeconds;
    && o.paid == o.batch == o.base == 0
    && OnlyOwner(w, owner, o.world)
    && q.lockedAmount == p.lockedAmount + amount
    && q.pendingActivationAmount == p.pendingActivationAmount + amount
    && q.eligibleAmount == p.eligibleAmount + Due(c, p) && q.warmingAmount == p.warmingAmount - Due(c, p)
    && q.warmingEpoch == p.warmingEpoch
    && Earned(c, p, q, 0, 0) && SameRemainders(p, q)
    && q.unlockTs == (if p.lockedAmount > 0 then Max(p.unlockTs, unlock) else unlock)
    && q.activationTs == (if p.pendingActivationAmount > 0 then Max(p.activationTs, ready) else ready)
    && Gains(c, c', 0, 0, 0, 0, 0, 0) && SameEpoch(c, c') && SameIndex(c, c')
    && Moved(w.tokens, o.world.tokens, amount, 0, owner, -amount, 0)
  }

  /** All pending stake starts warming in the current epoch; due stake becomes eligible first. */
  ghost predicate ActivateLaw(w: World, owner: Key, o: Outcome) {
    var c, c', p, q := w.config, o.world.config, w.Lookup(owner), o.world.Lookup(owner);
    && o.paid == o.batch == o.base == 0
    && OnlyOwner(w, owner, o.world)
    && q.lockedAmount == p.lockedAmount && q.pendingActivationAmount == 0
    && q.eligibleAmount == p.eligibleAmount + Due(c, p)
    && q.warmingAmount == p.warmingAmount - Due(c, p) + p.pendingActivationAmount
    && q.warmingEpoch == (if p.pendingActivationAmount > 0 then c.currentEpoch else p.warmingEpoch)
    && Earned(c, p, q, 0, 0) && SameRemainders(p, q) && SameClocks(p, q)
    && Gains(c, c', 0, 0, 0, 0, 0, 0) && SameEpoch(c, c') && SameIndex(c, c')
    && Moved(w.tokens, o.world.tokens, 0, 0, owner, 0, 0)
  }

  /** A claim pays every whole token that is owed. */
  ghost predicate ClaimLaw(w: World, owner: Key, o: Outcome) {
    var c, c', p, q := w.config, o.world.config, w.Lookup(owner), o.world.Lookup(owner);
    && o.batch == o.base == 0
    && OnlyOwner(w, owner, o.world)
    && q.lockedAmount == p.lockedAmount && q.pendingActivationAmount == p.pendingActivationAmount
    && q.eligibleAmount == p.eligibleAmount + Due(c, p) && q.warmingAmount == p.warmingAmount - Due(c, p)
    && q.warmingEpoch == p.warmingEpoch
    && q.pendingRewards == 0
    && Earned(c, p, q, o.paid, 0) && SameRemainders(p, q) && SameClocks(p, q)
    && Gains(c, c', 0, 0, o.paid, 0, 0, 0) && SameEpoch(c, c') && SameIndex(c, c')
    && Moved(w.tokens, o.world.tokens, 0, -o.paid, owner, o.paid, 0)
  }

  /** A bucket gives way only when every younger one is empty, and none grows. */
  predicate YoungestFirst(p: Position, due: int, q: Position) {
    && 0 <= q.pendingActivationAmount <= p.pendingActivationAmount
    && 0 <= q.warmingAmount <= p.warmingAmount - due
    && 0 <= q.eligibleAmount <= p.eligibleAmount + due
    && q.eligibleAmount + q.warmingAmount + q.pendingActivationAmount == q.lockedAmount
    && (q.warmingAmount < p.warmingAmount - due ==> q.pendingActivationAmount == 0)
    && (q.eligibleAmount < p.eligibleAmount + due ==> q.warmingAmount == 0 && q.pendingActivationAmount == 0)
  }

  /**
   The tokens an early exit is charged are its rate on the amount, to the last unit, the fraction carried.
   The burn share is its own rate on the amount, to the last unit, unless it takes the whole charge; with
   no eligible stake left the whole charge is burned.
   */
  predicate Charge(policy: Policy, p: Position, amount: int, q: Position, base: int, reward: int, burned: int) {
    && 0 <= reward && 0 <= burned
    && 0 <= q.penaltyRemainder < BPS && 0 <= q.burnRemainder < BPS
    && BPS * (reward + burned) + q.penaltyRemainder == amount * policy.earlyExitPenaltyBps + p.penaltyRemainder
    && (base == 0 ==> reward == 0)
    && (policy.burnPenaltyBps == 0 ==> q.burnRemainder == 0 && (base > 0 ==> burned == 0))
    && (policy.burnPenaltyBps > 0 ==> BurnShare(policy, p, amount, q, base, reward, burned))
  }

  predicate BurnShare(policy: Policy, p: Position, amount: int, q: Position, base: int, reward: int, burned: int) {
    var due := amount * policy.burnPenaltyBps + p.burnRemainder;
    && q.burnRemainder == due % BPS
    && (base > 0 ==>
          && BPS * burned + q.burnRemainder <= due
          && (reward > 0 ==> BPS * burned + q.burnRemainder == due))
  }

  predicate ExitCharge(c: Config, p: Position, amount: int, now: int, q: Position, base: int, reward: int, burned: int)
  {
    if now < p.unlockTs && c.policy.earlyExitPenaltyBps > 0
    then Charge(c.policy, p, amount, q, base, reward, burned)
    else reward == burned == 0 && q.penaltyRemainder == q.burnRemainder == 0
  }

  /**
   The amount leaves the youngest stake first. A full exit is paid every whole token owed and drops the
   fraction; a partial one is paid nothing.
   */
  ghost predicate WithdrawStake(w: World, owner: Key, amount: int, o: Outcome) {
    var c, p, q := w.config, w.Lookup(owner), o.world.Lookup(owner);
    var full := amount == p.lockedAmount;
    && OnlyOwner(w, owner, o.world)
    && q.lockedAmount == p.lockedAmount - amount && YoungestFirst(p, Due(c, p), q)
    && q.warmingEpoch == p.warmingEpoch && SameClocks(p, q)
    && (if full then q.pendingRewards == 0 && q.rewardAccrualRemainder == 0 else o.paid == 0)
    && Earned(c, p, q, o.paid, if full then Fraction(w, owner) else 0)
  }

  /** The amount leaves the vault to the owner, the pool and the burn; the pool's part is committed. */
  ghost predicate WithdrawTokens(w: World, owner: Key, amount: int, now: int, o: Outcome) {
    var c, c' := w.config, o.world.config;
    var burned := o.world.tokens.burned - w.tokens.burned;
    && o.base == c'.eligibleLocked
    && ExitCharge(c, w.Lookup(owner), amount, now, o.world.Lookup(owner), o.base, o.batch, burned)
    && Indexed(c, c', o.batch, o.base) && SameEpoch(c, c')
    && Gains(c, c', 0, if c'.Index() > c.Index() then o.batch else 0, o.paid, o.batch + burned, burned, 0)
    && Moved(w.tokens, o.world.tokens, -amount, o.batch - o.paid, owner, amount - o.batch - burned + o.paid, burned)
  }

  ghost predicate FundLaw(w: World, funder: Key, amount: int, o: Outcome) {
    var c, c' := w.config, o.world.config;
    && o.paid == 0 && o.batch == amount && o.base == c.eligibleLocked
    && o.world.positions == w.positions
    && SameStake(c, c') && SameEpoch(c, c') && Indexed(c, c', amount, c.eligibleLocked)
    && Gains(c, c', amount, amount, 0, 0, 0, 0)
    && Moved(w.tokens, o.world.tokens, 0, amount, funder, -amount, 0)
  }

  ghost predicate RollLaw(w: World, o: Outcome) {
    var c, c' := w.config, o.world.config;
    && o.paid == o.batch == o.base == 0
    && o.world.positions == w.positions && o.world.tokens == w.tokens
    && SameStake(c, c') && SameIndex(c, c') && Gains(c, c', 0, 0, 0, 0, 0, 0)
    && c'.currentEpoch == c.currentEpoch + 1
    && c'.lastEpochTs == c.createdTs + c'.currentEpoch * c.policy.epochSeconds
  }

  ghost predicate FinalizeLaw(w: World, o: Outcome) {
    var c, c' := w.config, o.world.config;
    && o.paid == o.batch == o.base == 0
    && o.world.positions == w.positions
    && SameStake(c, c') && SameEpoch(c, c') && SameIndex(c, c')
    && o.world.tokens.pool == 0
    && Gains(c, c', 0, 0, 0, 0, w.tokens.pool, w.tokens.pool)
    && Moved(w.tokens, o.world.tokens, 0, -w.tokens.pool, 0, 0, w.tokens.pool)
  }

  /** A donation moves the sender's tokens and writes no record. */
  ghost predicate SendLaw(w: World, sender: Key, to: Account, amount: int, o: Outcome) {
    var t, t' := w.tokens, o.world.tokens;
    && o.paid == o.batch == o.base == 0
    && o.world.positions == w.positions && o.world.config == w.config && t'.burned == t.burned
    && t'.vault == t.vault + (if to.Vault? then amount else 0)
    && t'.pool == t.pool + (if to.Pool? then amount else 0)
    && forall k: Key :: t'.Balance(Wallet(k))
         == t.Balance(Wallet(k)) - (if k == sender then amount else 0) + (if to == Wallet(k) then amount else 0)
  }

  ghost predicate Law(w: World, call: Call, o: Outcome) {
    match call
    case Deposit(owner, amount, now) => DepositLaw(w, owner, amount, now, o)
    case Activate(owner, _) => ActivateLaw(w, owner, o)
    case Fund(funder, amount, _) => FundLaw(w, funder, amount, o)
    case Roll(_) => RollLaw(w, o)
    case Claim(owner) => ClaimLaw(w, owner, o)
    case Withdraw(owner, amount, now) => WithdrawStake(w, owner, amount, o) && WithdrawTokens(w, owner, amount, now, o)
    case Finalize => FinalizeLaw(w, o)
    case Send(sender, to, amount) => SendLaw(w, sender, to, amount, o)
  }

  // ---- They hold ----

  lemma TouchedEarned(w: World, owner: Key)
    requires Safe(w)
    ensures var p := w.Lookup(owner);
      var q := TouchedPosition(w.config, p);
      && Earned(w.config, p, q, 0, 0) && SameRemainders(p, q) && SameClocks(p, q)
      && q.lockedAmount == p.lockedAmount && q.pendingActivationAmount == p.pendingActivationAmount
      && q.warmingAmount == p.warmingAmount - Due(w.config, p)
      && q.eligibleAmount == p.eligibleAmount + Due(w.config, p)
      && q.warmingEpoch == p.warmingEpoch
      && 0 <= q.pendingRewards && 0 <= q.warmingAmount
  {
    LookupOk(w, owner);
    TouchOk(w, owner);
    TouchKeepsLiability(w.config, w.Lookup(owner));
  }

  lemma CountersSame(w: World)
    requires Safe(w)
    ensures Gains(w.config, w.config, 0, 0, 0, 0, 0, 0)
  {}

  lemma StakeEarned(c: Config, p: Position, q: Position, policy: Policy, amount: int, now: int)
    requires Earned(c, p, q, 0, 0)
    ensures Earned(c, p, DepositedPosition(policy, q, amount, now), 0, 0)
  {}

  lemma DepositLawful(w: World, owner: Key, amount: nat, now: int)
    requires Safe(w) && DepositStep(w, owner, amount, now).Success?
    ensures DepositLaw(w, owner, amount, now, DepositStep(w, owner, amount, now).value)
  {
    LookupOk(w, owner);
    TouchedEarned(w, owner);
    StakeEarned(w.config, w.Lookup(owner), TouchedPosition(w.config, w.Lookup(owner)), w.config.policy, amount, now);
    DepositMatches(w, owner, amount, now);
    CountersSame(w);
  }

  lemma ActivateLawful(w: World, owner: Key, now: int)
    requires Safe(w) && ActivateStep(w, owner, now).Success?
    ensures ActivateLaw(w, owner, ActivateStep(w, owner, now).value)
  {
    LookupOk(w, owner);
    TouchedEarned(w, owner);
    CountersSame(w);
  }

  lemma PaidEarned(c: Config, p: Position, q: Position)
    requires Earned(c, p, q, 0, 0) && 0 <= q.pendingRewards && 0 <= p.totalRewardsClaimed <= U64_MAX
    ensures Earned(c, p, PaidPosition(q, q.pendingRewards), q.pendingRewards, 0)
  {}

  lemma ClaimLawful(w: World, owner: Key)
    requires Safe(w) && ClaimStep(w, owner).Success?
    ensures ClaimLaw(w, owner, ClaimStep(w, owner).value)
  {
    LookupOk(w, owner);
    TouchedEarned(w, owner);
    PaidEarned(w.config, w.Lookup(owner), TouchedPosition(w.config, w.Lookup(owner)));
    ClaimMatches(w, owner);
    CountersSame(w);
  }

  lemma FundLawful(w: World, funder: Key, amount: nat, expected: Option<(nat, nat)>)
    requires Safe(w) && FundStep(w, funder, amount, expected).Success?
    ensures FundLaw(w, funder, amount, FundStep(w, funder, amount, expected).value)
  {
    CountersSame(w);
    FundKeeps(w, funder, amount, expected);
    BatchLargest(amount, w.config.eligibleLocked);
  }

  lemma BatchLargest(batch: int, base: int)
    requires 0 <= batch && 0 < base
    ensures var d := BatchDelta(batch, base);
      0 <= d && base * d <= batch * SCALE < base * (d + 1)
  {
    BatchExact(batch, base);
    Distribute(BatchDelta(batch, base), 1, base);
  }

  lemma RollLawful(w: World, now: int)
    requires Safe(w) && RollStep(w, now).Success?
    ensures RollLaw(w, RollStep(w, now).value)
  {
    CountersSame(w);
    EpochFits(w.config);
  }

  lemma FinalizeLawful(w: World)
    requires Safe(w) && FinalizeStep(w).Success?
    ensures FinalizeLaw(w, FinalizeStep(w).value)
  {
    CountersSame(w);
  }

  lemma ExitCharged(c: Config, p: Position, amount: nat, now: int)
    requires PolicyOk(c.policy) && 0 <= p.penaltyRemainder < BPS && 0 <= p.burnRemainder < BPS
    ensures var e := ExitOf(c, p, amount, now);
      ExitCharge(c, p, amount, now, ExitPosition(p, amount, e), e.base, e.reward, e.burned)
  {
    var bps, burnBps := c.policy.earlyExitPenaltyBps, c.policy.burnPenaltyBps;
    SplitExact(amount, bps, burnBps, p.penaltyRemainder, p.burnRemainder);
    if burnBps > 0 {
      BurnExact(amount, bps, burnBps, p.penaltyRemainder, p.burnRemainder);
      BurnLosesNothing(amount, bps, burnBps, p.penaltyRemainder, p.burnRemainder);
    }
  }

  lemma ExitEarned(w: World, owner: Key, amount: nat, e: Exit)
    requires Safe(w)
    requires var p1 := TouchedPosition(w.config, w.Lookup(owner));
      0 < amount <= p1.lockedAmount && e.paid == if amount == p1.lockedAmount then p1.pendingRewards else 0
    ensures var p := w.Lookup(owner);
      var q := ExitPosition(TouchedPosition(w.config, p), amount, e);
      && Earned(w.config, p, q, e.paid, if amount == p.lockedAmount then Fraction(w, owner) else 0)
      && (amount == p.lockedAmount ==> q.pendingRewards == 0 && q.rewardAccrualRemainder == 0)
      && q.lockedAmount == p.lockedAmount - amount && YoungestFirst(p, Due(w.config, p), q)
      && q.warmingEpoch == p.warmingEpoch && SameClocks(p, q)
  {
    var p := w.Lookup(owner);
    LookupOk(w, owner);
    TouchedEarned(w, owner);
    AtCheckpoint(w.config, ExitPosition(TouchedPosition(w.config, p), amount, e));
  }

  lemma ExitGains(w: World, owner: Key, amount: nat, now: int)
    requires Safe(w) && WithdrawStep(w, owner, amount, now).Success?
    ensures var o := WithdrawStep(w, owner, amount, now).value;
      var burned := o.world.tokens.burned - w.tokens.burned;
      && Gains(w.config, o.world.config, 0, if BatchDelta(o.batch, o.base) > 0 then o.batch else 0, o.paid,
               o.batch + burned, burned, 0)
      && SameEpoch(w.config, o.world.config)
  {
    WithdrawCounters(w, owner, amount, now);
    CountersSame(w);
  }

  /** A move changes no wallet but the ones it names. */
  lemma MoveOthers(t: Tokens, from: Account, to: Account, amount: int, k: Key)
    ensures from != Wallet(k) && to != Wallet(k) ==>
      t.Move(from, to, amount).Balance(Wallet(k)) == t.Balance(Wallet(k))
  {}

  lemma ExitMoves(t: Tokens, owner: Key, amount: int, e: Exit)
    requires TokensOk(t)
    requires 0 <= e.paid <= t.pool && 0 <= e.reward && 0 <= e.burned && e.reward + e.burned <= amount <= t.vault
    ensures Moved(t, ExitTokens(t, owner, amount, e), -amount, e.reward - e.paid, owner,
                  amount - e.reward - e.burned + e.paid, e.burned)
  {
    ExitTokensOk(t, owner, amount, e);
    var t1 := t.Move(Pool, Wallet(owner), e.paid);
    var t2 := t1.Move(Vault, Wallet(owner), amount - e.reward - e.burned);
    forall k: Key | k != owner ensures ExitTokens(t, owner, amount, e).Balance(Wallet(k)) == t.Balance(Wallet(k)) {
      MoveOthers(t, Pool, Wallet(owner), e.paid, k);
      MoveOthers(t1, Vault, Wallet(owner), amount - e.reward - e.burned, k);
      MoveOthers(t2, Vault, Pool, e.reward, k);
    }
  }

  lemma IndexedBy(c: Config, c': Config, batch: int, base: int)
    requires 0 <= batch && 0 <= base && (base == 0 ==> batch == 0) && 0 <= c'.rewardIndex < WRAP
    requires c'.Index() == c.Index() + BatchDelta(batch, base)
    ensures Indexed(c, c', batch, base)
    ensures c'.Index() > c.Index() <==> BatchDelta(batch, base) > 0
  {
    if base > 0 {
      BatchLargest(batch, base);
    }
  }

  lemma WithdrawStakeLawful(w: World, owner: Key, amount: nat, now: int)
    requires Safe(w) && WithdrawStep(w, owner, amount, now).Success?
    ensures WithdrawStake(w, owner, amount, WithdrawStep(w, owner, amount, now).value)
  {
    LookupOk(w, owner);
    ExitEarned(w, owner, amount, ExitAt(w, owner, amount, now));
    ExitMatches(w, owner, amount, now);
  }

  lemma WithdrawCharged(w: World, owner: Key, amount: nat, now: int)
    requires Safe(w) && WithdrawStep(w, owner, amount, now).Success?
    ensures var o := WithdrawStep(w, owner, amount, now).value;
      && o.base == o.world.config.eligibleLocked
      && ExitCharge(w.config, w.Lookup(owner), amount, now, o.world.Lookup(owner), o.base, o.batch,
                    o.world.tokens.burned - w.tokens.burned)
  {
    LookupOk(w, owner);
    WithdrawBurns(w, owner, amount, now);
    ExitCharged(TouchedConfig(w.config, w.Lookup(owner)), TouchedPosition(w.config, w.Lookup(owner)), amount, now);
  }

  lemma WithdrawIsExit(w: World, owner: Key, amount: nat, now: int)
    requires WithdrawStep(w, owner, amount, now).Success?
    ensures var o, e := WithdrawStep(w, owner, amount, now).value, ExitAt(w, owner, amount, now);
      && o.paid == e.paid && o.batch == e.reward && o.world.tokens == ExitTokens(w.tokens, owner, amount, e)
      && 0 < amount <= w.Lookup(owner).lockedAmount
  {}

  lemma WithdrawMoved(w: World, owner: Key, amount: nat, now: int)
    requires Safe(w) && WithdrawStep(w, owner, amount, now).Success?
    ensures var o, e := WithdrawStep(w, owner, amount, now).value, ExitAt(w, owner, amount, now);
      && o.paid == e.paid && o.batch == e.reward && o.world.tokens.burned - w.tokens.burned == e.burned
      && Moved(w.tokens, o.world.tokens, 0 - amount, e.reward - e.paid, owner, amount - e.reward - e.burned + e.paid,
               e.burned)
  {
    var e := ExitAt(w, owner, amount, now);
    WithdrawIsExit(w, owner, amount, now);
    ExitPayable(w, owner, amount, now);
    ExitTokensOk(w.tokens, owner, amount, e);
    ExitMoves(w.tokens, owner, amount, e);
  }

  lemma ExitPayable(w: World, owner: Key, amount: nat, now: int)
    requires Safe(w) && 0 < amount <= w.Lookup(owner).lockedAmount
    ensures var e := ExitAt(w, owner, amount, now);
      0 <= e.paid <= w.tokens.pool && 0 <= e.reward && 0 <= e.burned && e.reward + e.burned <= amount <= w.tokens.vault
  {
    ExitCovered(w, owner, amount, now);
    TouchOk(w, owner);
  }

  lemma WithdrawTokensLawful(w: World, owner: Key, amount: nat, now: int)
    requires Safe(w) && WithdrawStep(w, owner, amount, now).Success?
    ensures WithdrawTokens(w, owner, amount, now, WithdrawStep(w, owner, amount, now).value)
  {
    WithdrawCharged(w, owner, amount, now);
    WithdrawMoved(w, owner, amount, now);
    ExitGains(w, owner, amount, now);
    WithdrawKeeps(w, owner, amount, now);
    var o := WithdrawStep(w, owner, amount, now).value;
    IndexedBy(w.config, o.world.config, o.batch, o.base);
  }

  lemma SendLawful(w: World, sender: Key, to: Account, amount: nat)
    requires Safe(w) && SendStep(w, sender, to, amount).Success?
    ensures SendLaw(w, sender, to, amount, SendStep(w, sender, to, amount).value)
  {}

  /** Every accepted call obeys its law. */
  lemma StepLawful(w: World, call: Call)
    requires Safe(w) && CallOk(call) && Step(w, call).Success?
    ensures Law(w, call, Step(w, call).value)
  {
    match call
    case Deposit(owner, amount, now) => DepositLawful(w, owner, amount, now);
    case Activate(owner, now) => ActivateLawful(w, owner, now);
    case Fund(funder, amount, expected) => FundLawful(w, funder, amount, expected);
    case Roll(now) => RollLawful(w, now);
    case Claim(owner) => ClaimLawful(w, owner);
    case Withdraw(owner, amount, now) =>
      WithdrawStakeLawful(w, owner, amount, now);
      WithdrawTokensLawful(w, owner, amount, now);
    case Finalize => FinalizeLawful(w);
    case Send(sender, to, amount) => SendLawful(w, sender, to, amount);
  }

  // ---- Nothing else obeys them ----

  /** Two next states that agree but for wallets stored with no balance. */
  ghost predicate SameWorld(w: World, w': World) {
    && w.config == w'.config && w.positions == w'.positions
    && w.tokens.burned == w'.tokens.burned
    && w.tokens.vault == w'.tokens.vault && w.tokens.pool == w'.tokens.pool
    && forall k: Key :: w.tokens.Balance(Wallet(k)) == w'.tokens.Balance(Wallet(k))
  }

  ghost predicate SameOutcome(o: Outcome, o': Outcome) {
    SameWorld(o.world, o'.world) && o.paid == o'.paid && o.batch == o'.batch && o.base == o'.base
  }

  lemma LargestStep(base: int, n: int, d: int, d': int)
    requires 0 < base && base * d <= n < base * (d + 1) && base * d' <= n < base * (d' + 1)
    ensures d == d'
  {
    ProductMonotone(d + 1, d', base);
    ProductMonotone(d' + 1, d, base);
  }

  lemma IndexFixed(c: Config, c1: Config, c2: Config, batch: int, base: int)
    requires 0 <= base && Indexed(c, c1, batch, base) && Indexed(c, c2, batch, base)
    ensures c1.rewardIndex == c2.rewardIndex && c1.rewardIndexGeneration == c2.rewardIndexGeneration
  {
    if base > 0 {
      LargestStep(base, batch * SCALE, c1.Index() - c.Index(), c2.Index() - c.Index());
    }
  }

  lemma EarnedFixed(c: Config, p: Position, q: Position, q': Position, paid: int, dropped: int)
    requires Earned(c, p, q, paid, dropped) && Earned(c, p, q', paid, dropped)
    ensures q.pendingRewards == q'.pendingRewards && q.rewardAccrualRemainder == q'.rewardAccrualRemainder
    ensures q.rewardIndexCheckpoint == q'.rewardIndexCheckpoint
    ensures q.rewardIndexGenerationCheckpoint == q'.rewardIndexGenerationCheckpoint
    ensures q.totalRewardsClaimed == q'.totalRewardsClaimed
  {}

  lemma PositionsFixed(w: World, owner: Key, w1: World, w2: World)
    requires OnlyOwner(w, owner, w1) && OnlyOwner(w, owner, w2)
    requires w1.Lookup(owner) == w2.Lookup(owner)
    ensures w1.positions == w2.positions && SameStake(w1.config, w2.config)
  {
    forall k | k in w1.positions ensures w1.positions[k] == w2.positions[k] {
      if k != owner {
        assert k in w.positions;
      }
    }
  }

  lemma MovedFixed(t: Tokens, t1: Tokens, t2: Tokens, vault: int, pool: int, k: Key, gained: int, burned: int)
    requires Moved(t, t1, vault, pool, k, gained, burned) && Moved(t, t2, vault, pool, k, gained, burned)
    ensures t1.vault == t2.vault && t1.pool == t2.pool && t1.burned == t2.burned
    ensures forall j: Key :: t1.Balance(Wallet(j)) == t2.Balance(Wallet(j))
  {}

  lemma DepositFixed(w: World, owner: Key, amount: int, now: int, o1: Outcome, o2: Outcome)
    requires DepositLaw(w, owner, amount, now, o1) && DepositLaw(w, owner, amount, now, o2)
    ensures SameOutcome(o1, o2)
  {
    EarnedFixed(w.config, w.Lookup(owner), o1.world.Lookup(owner), o2.world.Lookup(owner), 0, 0);
    PositionsFixed(w, owner, o1.world, o2.world);
    IndexFixed(w.config, o1.world.config, o2.world.config, 0, 0);
    MovedFixed(w.tokens, o1.world.tokens, o2.world.tokens, amount, 0, owner, -amount, 0);
  }

  lemma ActivateFixed(w: World, owner: Key, o1: Outcome, o2: Outcome)
    requires ActivateLaw(w, owner, o1) && ActivateLaw(w, owner, o2)
    ensures SameOutcome(o1, o2)
  {
    EarnedFixed(w.config, w.Lookup(owner), o1.world.Lookup(owner), o2.world.Lookup(owner), 0, 0);
    PositionsFixed(w, owner, o1.world, o2.world);
    IndexFixed(w.config, o1.world.config, o2.world.config, 0, 0);
    MovedFixed(w.tokens, o1.world.tokens, o2.world.tokens, 0, 0, owner, 0, 0);
  }

  lemma ClaimFixed(w: World, owner: Key, o1: Outcome, o2: Outcome)
    requires ClaimLaw(w, owner, o1) && ClaimLaw(w, owner, o2)
    ensures SameOutcome(o1, o2)
  {
    assert o1.paid == o2.paid;
    EarnedFixed(w.config, w.Lookup(owner), o1.world.Lookup(owner), o2.world.Lookup(owner), o1.paid, 0);
    PositionsFixed(w, owner, o1.world, o2.world);
    IndexFixed(w.config, o1.world.config, o2.world.config, 0, 0);
    MovedFixed(w.tokens, o1.world.tokens, o2.world.tokens, 0, -o1.paid, owner, o1.paid, 0);
  }

  /** The charge and its two parts are fixed by the remainders staying below their scale. */
  lemma ChargeFixed(c: Config, p: Position, amount: int, now: int, q1: Position, q2: Position, base: int,
                    r1: int, b1: int, r2: int, b2: int)
    requires ExitCharge(c, p, amount, now, q1, base, r1, b1) && ExitCharge(c, p, amount, now, q2, base, r2, b2)
    requires 0 <= base
    ensures r1 == r2 && b1 == b2
    ensures q1.penaltyRemainder == q2.penaltyRemainder && q1.burnRemainder == q2.burnRemainder
  {}

  lemma StakeFixed(w: World, owner: Key, amount: int, o1: Outcome, o2: Outcome)
    requires WithdrawStake(w, owner, amount, o1) && WithdrawStake(w, owner, amount, o2)
    ensures o1.paid == o2.paid
    ensures var q1, q2 := o1.world.Lookup(owner), o2.world.Lookup(owner);
      q1.(penaltyRemainder := 0, burnRemainder := 0) == q2.(penaltyRemainder := 0, burnRemainder := 0)
  {
    var full := amount == w.Lookup(owner).lockedAmount;
    assert o1.paid == o2.paid;
    EarnedFixed(w.config, w.Lookup(owner), o1.world.Lookup(owner), o2.world.Lookup(owner), o1.paid,
                if full then Fraction(w, owner) else 0);
  }

  lemma WithdrawFixed(w: World, owner: Key, amount: int, now: int, o1: Outcome, o2: Outcome)
    requires WithdrawStake(w, owner, amount, o1) && WithdrawStake(w, owner, amount, o2)
    requires WithdrawTokens(w, owner, amount, now, o1) && WithdrawTokens(w, owner, amount, now, o2)
    requires 0 <= o1.base
    ensures SameOutcome(o1, o2)
  {
    var burned := o1.world.tokens.burned - w.tokens.burned;
    StakeFixed(w, owner, amount, o1, o2);
    assert o1.base == o2.base;
    ChargeFixed(w.config, w.Lookup(owner), amount, now, o1.world.Lookup(owner), o2.world.Lookup(owner), o1.base,
                o1.batch, burned, o2.batch, o2.world.tokens.burned - w.tokens.burned);
    PositionsFixed(w, owner, o1.world, o2.world);
    IndexFixed(w.config, o1.world.config, o2.world.config, o1.batch, o1.base);
    MovedFixed(w.tokens, o1.world.tokens, o2.world.tokens, 0 - amount, o1.batch - o1.paid, owner,
               amount - o1.batch - burned + o1.paid, burned);
  }

  lemma FundFixed(w: World, funder: Key, amount: int, o1: Outcome, o2: Outcome)
    requires Safe(w) && FundLaw(w, funder, amount, o1) && FundLaw(w, funder, amount, o2)
    ensures SameOutcome(o1, o2)
  {
    IndexFixed(w.config, o1.world.config, o2.world.config, amount, w.config.eligibleLocked);
    MovedFixed(w.tokens, o1.world.tokens, o2.world.tokens, 0, amount, funder, -amount, 0);
  }

  lemma RestFixed(w: World, call: Call, o1: Outcome, o2: Outcome)
    requires call.Roll? || call.Finalize? || call.Send?
    requires Law(w, call, o1) && Law(w, call, o2)
    ensures SameOutcome(o1, o2)
  {
    if !call.Send? {
      IndexFixed(w.config, o1.world.config, o2.world.config, 0, 0);
    }
    if call.Finalize? {
      MovedFixed(w.tokens, o1.world.tokens, o2.world.tokens, 0, -w.tokens.pool, 0, 0, w.tokens.pool);
    }
  }

  lemma LawFixes(w: World, call: Call, o1: Outcome, o2: Outcome)
    requires Safe(w) && Law(w, call, o1) && Law(w, call, o2)
    requires call.Withdraw? ==> 0 <= o1.base
    ensures SameOutcome(o1, o2)
  {
    match call
    case Deposit(owner, amount, now) => DepositFixed(w, owner, amount, now, o1, o2);
    case Activate(owner, now) => ActivateFixed(w, owner, o1, o2);
    case Fund(funder, amount, expected) => FundFixed(w, funder, amount, o1, o2);
    case Claim(owner) => ClaimFixed(w, owner, o1, o2);
    case Withdraw(owner, amount, now) => WithdrawFixed(w, owner, amount, now, o1, o2);
    case _ => RestFixed(w, call, o1, o2);
  }

  /**
   The laws say everything: every accepted call obeys its law, and an outcome that obeys it is that
   call's outcome, up to wallets stored with no balance.
   */
  lemma LawsComplete(w: World, call: Call, o: Outcome)
    requires Safe(w) && CallOk(call) && Step(w, call).Success?
    ensures Law(w, call, Step(w, call).value)
    ensures Law(w, call, o) ==> SameOutcome(Step(w, call).value, o)
  {
    StepLawful(w, call);
    if Law(w, call, o) {
      if call.Withdraw? {
        WithdrawKeeps(w, call.owner, call.amount, call.now);
      }
      LawFixes(w, call, Step(w, call).value, o);
    }
  }
}
