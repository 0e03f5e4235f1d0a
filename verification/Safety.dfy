/** The state invariant, and the facts about one position that follow from it. */
module Safety {
  import opened Arithmetic
  import opened Checked
  import opened State
  import opened Spec
  import opened MapSum

  // ---- Measures summed over the positions and wallets ----

  ghost function Locked(): Position -> int { (p: Position) => p.lockedAmount }
  ghost function Eligible(): Position -> int { (p: Position) => p.eligibleAmount }
  ghost function Warming(): Position -> int { (p: Position) => p.warmingAmount }
  ghost function PendingActivation(): Position -> int { (p: Position) => p.pendingActivationAmount }
  ghost function LiabilityAt(index: int): Position -> int { (p: Position) => Liability(p, index) }
  ghost function Units(): int -> int { (x: int) => x }

  /** Everything owed to all positions, in scaled units. */
  ghost function Owed(w: World): int {
    Sum(w.positions, LiabilityAt(w.config.Index()))
  }

  /** What the reward pool holds beyond everything owed, in scaled units. */
  ghost function Slack(w: World): int {
    w.tokens.pool * SCALE - Owed(w)
  }

  ghost function Circulating(t: Tokens): int {
    t.vault + t.pool + Sum(t.wallets, Units())
  }

  // ---- The invariant ----

  predicate PolicyOk(p: Policy) {
    && 0 < p.activationDelaySeconds
    && 0 < p.epochSeconds
    && p.activationDelaySeconds + 2 * p.epochSeconds <= p.minLockSeconds
    && 0 < p.minDepositAmount
    && p.burnPenaltyBps <= p.earlyExitPenaltyBps <= MAX_EARLY_EXIT_PENALTY_BPS
  }

  predicate ConfigOk(c: Config) {
    && c.Fits()
    && PolicyOk(c.policy)
    && c.totalLocked == c.eligibleLocked + c.warmingLocked + c.pendingActivationLocked
    && c.pendingRewards == 0
    && c.rewardDust == 0
    && c.lastEpochTs == c.createdTs + c.currentEpoch * c.policy.epochSeconds
  }

  predicate PositionOk(c: Config, p: Position) {
    && p.Fits()
    && p.lockedAmount == p.eligibleAmount + p.warmingAmount + p.pendingActivationAmount
    && p.Checkpoint() <= c.Index()
    && p.warmingEpoch <= c.currentEpoch
    && (p.lockedAmount == 0 ==> p.pendingRewards == 0 && p.rewardAccrualRemainder == 0)
  }

  ghost predicate PositionsOk(c: Config, m: map<Key, Position>) {
    forall o <- m :: PositionOk(c, m[o])
  }

  /** Every aggregate of the config is the sum of that bucket over the positions. */
  ghost predicate Tallied(c: Config, m: map<Key, Position>) {
    && c.totalLocked == Sum(m, Locked())
    && c.eligibleLocked == Sum(m, Eligible())
    && c.warmingLocked == Sum(m, Warming())
    && c.pendingActivationLocked == Sum(m, PendingActivation())
  }

  /** Balances are non-negative and the supply fits in 64 bits. */
  ghost predicate TokensOk(t: Tokens) {
    && 0 <= t.vault
    && 0 <= t.pool
    && (forall k <- t.wallets :: 0 <= t.wallets[k])
    && Circulating(t) <= U64_MAX
  }

  ghost predicate Safe(w: World) {
    && ConfigOk(w.config)
    && PositionsOk(w.config, w.positions)
    && Tallied(w.config, w.positions)
    && TokensOk(w.tokens)
    && w.config.totalLocked <= w.tokens.vault
    && 0 <= Slack(w)
  }

  // ---- Liabilities at one index and the next ----

  lemma LiabilityGrows(p: Position, index: int, d: int)
    ensures Liability(p, index + d) == Liability(p, index) + p.eligibleAmount * d
  {
    var gap := index - p.Checkpoint();
    assert p.eligibleAmount * (gap + d) == p.eligibleAmount * gap + p.eligibleAmount * d;
  }

  lemma LiabilityNonNegative(c: Config, p: Position)
    requires PositionOk(c, p)
    ensures 0 <= p.eligibleAmount * (c.Index() - p.Checkpoint()) <= Liability(p, c.Index())
  {
    ProductNonNegative(p.eligibleAmount, c.Index() - p.Checkpoint());
  }

  // ---- Facts about one position in a safe state ----

  lemma BucketsBacked(w: World, owner: Key)
    requires Safe(w)
    ensures var p, c := w.Lookup(owner), w.config;
      && p.eligibleAmount <= c.eligibleLocked
      && p.warmingAmount <= c.warmingLocked
      && p.pendingActivationAmount <= c.pendingActivationLocked
      && p.lockedAmount <= c.totalLocked
  {
    if owner in w.positions {
      SumMember(w.positions, owner, Eligible());
      SumMember(w.positions, owner, Warming());
      SumMember(w.positions, owner, PendingActivation());
      SumMember(w.positions, owner, Locked());
    }
  }

  lemma LookupOk(w: World, owner: Key)
    requires Safe(w)
    ensures PositionOk(w.config, w.Lookup(owner))
  {}

  /** Solvency for one position: what it is owed is in the pool. */
  lemma LiabilityBacked(w: World, owner: Key)
    requires Safe(w)
    ensures 0 <= Liability(w.Lookup(owner), w.config.Index()) <= w.tokens.pool * SCALE
  {
    var f := LiabilityAt(w.config.Index());
    forall o <- w.positions ensures f(w.positions[o]) >= 0 {
      LiabilityNonNegative(w.config, w.positions[o]);
    }
    SumNonNegative(w.positions, f);
    if owner in w.positions {
      SumMember(w.positions, owner, f);
    }
  }

  lemma SupplyBound(t: Tokens, k: Key)
    requires TokensOk(t)
    ensures 0 <= t.Balance(Wallet(k))
    ensures t.vault + t.pool + t.Balance(Wallet(k)) <= Circulating(t)
  {
    SumNonNegative(t.wallets, Units());
    if k in t.wallets {
      SumMember(t.wallets, k, Units());
    }
  }

  // ---- Settling ----

  /** A settled position is owed just its pending rewards and fraction. */
  lemma AtCheckpoint(c: Config, p: Position)
    requires p.Checkpoint() == c.Index()
    ensures Liability(p, c.Index()) == p.pendingRewards * SCALE + p.rewardAccrualRemainder
  {
    assert p.eligibleAmount * (c.Index() - p.Checkpoint()) == 0;
  }

  /** So settling it again changes nothing. */
  lemma SettledAlready(c: Config, p: Position)
    requires p.rewardIndexCheckpoint == c.rewardIndex
    requires p.rewardIndexGenerationCheckpoint == c.rewardIndexGeneration
    requires 0 <= p.rewardAccrualRemainder < SCALE
    ensures Settle(c, p) == p && InReach(c, p)
  {
    AtCheckpoint(c, p);
  }

  /** A position without eligible stake is owed just its pending rewards and fraction. */
  lemma NoEligibleLiability(p: Position, index: int)
    requires p.eligibleAmount == 0
    ensures Liability(p, index) == p.pendingRewards * SCALE + p.rewardAccrualRemainder
  {
    assert 0 * (index - p.Checkpoint()) == 0;
  }

  /** Settling moves value between the terms of a liability but never changes it. */
  lemma SettleKeepsLiability(c: Config, p: Position)
    ensures Liability(Settle(c, p), c.Index()) == Liability(p, c.Index())
    ensures Settle(c, p).Checkpoint() == c.Index()
    ensures Settle(c, p).pendingRewards * SCALE + Settle(c, p).rewardAccrualRemainder == Liability(p, c.Index())
    ensures 0 <= Settle(c, p).rewardAccrualRemainder < SCALE
  {
    AtCheckpoint(c, Settle(c, p));
  }

  /** Promotion never changes the liability of the already eligible stake. */
  lemma TouchKeepsLiability(c: Config, p: Position)
    ensures var q := TouchedPosition(c, p);
      && Liability(q, c.Index()) == Liability(p, c.Index())
      && q.Checkpoint() == c.Index()
      && q.pendingRewards * SCALE + q.rewardAccrualRemainder == Liability(p, c.Index())
      && 0 <= q.rewardAccrualRemainder < SCALE
  {
    SettleKeepsLiability(c, p);
    AtCheckpoint(c, TouchedPosition(c, p));
  }

  lemma TouchOk(w: World, owner: Key)
    requires Safe(w)
    ensures PositionOk(TouchedConfig(w.config, w.Lookup(owner)), TouchedPosition(w.config, w.Lookup(owner)))
    ensures ConfigOk(TouchedConfig(w.config, w.Lookup(owner)))
    ensures 0 <= TouchedPosition(w.config, w.Lookup(owner)).pendingRewards <= w.tokens.pool
  {
    var p := w.Lookup(owner);
    LookupOk(w, owner);
    BucketsBacked(w, owner);
    LiabilityBacked(w, owner);
    TouchKeepsLiability(w.config, p);
    SupplyBound(w.tokens, 0);
    assert w.tokens.pool <= U64_MAX;
    if p.lockedAmount == 0 {
      NoEligibleLiability(p, w.config.Index());
    }
  }

  /** A position holding eligible stake can always be settled. */
  lemma EligibleInReach(w: World, owner: Key)
    requires Safe(w)
    requires w.Lookup(owner).eligibleAmount > 0
    ensures InReach(w.config, w.Lookup(owner))
  {
    var p := w.Lookup(owner);
    LookupOk(w, owner);
    LiabilityBacked(w, owner);
    LiabilityNonNegative(w.config, p);
    SupplyBound(w.tokens, 0);
    FactorBound(p.eligibleAmount, w.config.Index() - p.Checkpoint(), U64_MAX * SCALE);
  }

  // ---- Sums under a single write ----

  lemma Retally(w: World, owner: Key, c: Config, q: Position)
    requires Tallied(w.config, w.positions)
    requires var p := w.Lookup(owner);
      && c.totalLocked - w.config.totalLocked == q.lockedAmount - p.lockedAmount
      && c.eligibleLocked - w.config.eligibleLocked == q.eligibleAmount - p.eligibleAmount
      && c.warmingLocked - w.config.warmingLocked == q.warmingAmount - p.warmingAmount
      && c.pendingActivationLocked - w.config.pendingActivationLocked
         == q.pendingActivationAmount - p.pendingActivationAmount
    ensures Tallied(c, w.positions[owner := q])
  {
    SumUpdate(w.positions, owner, q, Locked());
    SumUpdate(w.positions, owner, q, Eligible());
    SumUpdate(w.positions, owner, q, Warming());
    SumUpdate(w.positions, owner, q, PendingActivation());
  }

  /** Committing a batch raises the total owed by the index step times all eligible stake. */
  lemma OwedAdvance(m: map<Key, Position>, index: int, d: int)
    ensures Sum(m, LiabilityAt(index + d)) == Sum(m, LiabilityAt(index)) + Sum(m, Eligible()) * d
  {
    forall o <- m ensures LiabilityAt(index + d)(m[o]) == LiabilityAt(index)(m[o]) + Eligible()(m[o]) * d {
      LiabilityGrows(m[o], index, d);
    }
    SumShift(m, LiabilityAt(index), LiabilityAt(index + d), Eligible(), d);
  }

  lemma OwedWrite(w: World, owner: Key, q: Position)
    ensures var index := w.config.Index();
      Sum(w.positions[owner := q], LiabilityAt(index))
      == Owed(w) - Liability(w.Lookup(owner), index) + Liability(q, index)
  {
    var index := w.config.Index();
    SumUpdate(w.positions, owner, q, LiabilityAt(index));
    if owner !in w.positions {
      NoEligibleLiability(Blank(w.config), index);
    }
  }

  // ---- Tokens ----

  lemma ShiftCirculating(t: Tokens, a: Account, d: int)
    ensures Circulating(t.Shift(a, d)) == Circulating(t) + d
  {
    if a.Wallet? && d != 0 {
      SumUpdate(t.wallets, a.key, t.Balance(a) + d, Units());
    }
  }

  lemma MoveCirculating(t: Tokens, from: Account, to: Account, amount: int)
    ensures Circulating(t.Move(from, to, amount)) == Circulating(t)
  {
    ShiftCirculating(t, from, -amount);
    ShiftCirculating(t.Shift(from, -amount), to, amount);
  }

  /** A covered transfer keeps every balance non-negative and the supply unchanged. */
  lemma MoveOk(t: Tokens, from: Account, to: Account, amount: int)
    requires TokensOk(t)
    requires 0 <= amount <= t.Balance(from)
    ensures TokensOk(t.Move(from, to, amount))
  {
    MoveCirculating(t, from, to, amount);
  }

  lemma BurnOk(t: Tokens, from: Account, amount: int)
    requires TokensOk(t)
    requires 0 <= amount <= t.Balance(from)
    ensures TokensOk(t.Burn(from, amount))
    ensures Circulating(t.Burn(from, amount)) == Circulating(t) - amount
  {
    ShiftCirculating(t, from, -amount);
  }
}
