/** Every instruction keeps the invariant, and moves the slack of the pool by an exact amount. */
module Preservation {
  import opened Arithmetic
  import opened Checked
  import opened State
  import opened Spec
  import opened Safety
  import opened MapSum

  /** The scaled units of a batch that its index step does not reach. */
  function Residue(batch: int, base: int): int {
    if base == 0 then 0 else batch * SCALE % base
  }

  /** The fraction of a token in what a position is owed. */
  function Fraction(w: World, owner: Key): int {
    Liability(w.Lookup(owner), w.config.Index()) % SCALE
  }

  lemma BatchExact(batch: int, base: int)
    requires 0 <= batch && 0 <= base
    requires base == 0 ==> batch == 0
    ensures 0 <= BatchDelta(batch, base)
    ensures base * BatchDelta(batch, base) + Residue(batch, base) == batch * SCALE
    ensures 0 <= Residue(batch, base)
    ensures base > 0 ==> Residue(batch, base) < base
  {
    if base > 0 {
      DivMod(batch * SCALE, base);
    }
  }

  /** Committing a batch advances the unwrapped index by exactly its delta. */
  lemma CommitIndex(c: Config, batch: int, base: int)
    requires ConfigOk(c) && 0 <= batch && 0 <= base && (base == 0 ==> batch == 0)
    requires RoomFor(c, batch, base)
    ensures ConfigOk(Committed(c, batch, base))
    ensures Committed(c, batch, base).Index() == c.Index() + BatchDelta(batch, base)
  {
    BatchExact(batch, base);
  }

  lemma SplitBounds(amount: int, bps: int, burnBps: int, penaltyRem: int, burnRem: int)
    requires 0 <= amount && 0 <= burnBps <= bps <= MAX_EARLY_EXIT_PENALTY_BPS
    requires 0 <= penaltyRem < BPS && 0 <= burnRem < BPS
    ensures var s := PenaltySplit(amount, bps, burnBps, penaltyRem, burnRem);
      && 0 <= s.reward && 0 <= s.burn && s.reward + s.burn <= amount
      && 0 <= s.penaltyRemainder < BPS && 0 <= s.burnRemainder < BPS
  {
    ProductNonNegative(amount, bps);
    ProductNonNegative(amount, burnBps);
  }

  lemma ExitBounds(c: Config, p: Position, amount: int, now: int)
    requires ConfigOk(c) && PositionOk(c, p) && 0 < amount <= p.lockedAmount
    requires p.eligibleAmount <= c.eligibleLocked
    ensures var e := ExitOf(c, p, amount, now);
      && 0 <= e.paid <= p.pendingRewards
      && 0 <= e.reward && 0 <= e.burned && e.reward + e.burned <= amount
      && 0 <= e.split.penaltyRemainder < BPS && 0 <= e.split.burnRemainder < BPS
      && 0 <= e.base
      && (e.base == 0 ==> e.reward == 0)
  {
    SplitBounds(amount, c.policy.earlyExitPenaltyBps, c.policy.burnPenaltyBps, p.penaltyRemainder, p.burnRemainder);
  }

  // ---- Withdraw ----

  /** What the leaver keeps: the payout and, on a full exit, the fraction are gone. */
  lemma ExitLiability(c: Config, p: Position, amount: int, e: Exit)
    requires p.Checkpoint() == c.Index()
    ensures Liability(ExitPosition(p, amount, e), c.Index())
         == Liability(p, c.Index()) - e.paid * SCALE
            - (if amount == p.lockedAmount then p.rewardAccrualRemainder else 0)
  {
    AtCheckpoint(c, ExitPosition(p, amount, e));
    AtCheckpoint(c, p);
  }

  lemma TouchedBacked(w: World, owner: Key)
    requires Safe(w)
    ensures var c, p := TouchedConfig(w.config, w.Lookup(owner)), TouchedPosition(w.config, w.Lookup(owner));
      && p.eligibleAmount <= c.eligibleLocked
      && p.warmingAmount <= c.warmingLocked
      && p.pendingActivationAmount <= c.pendingActivationLocked
      && p.lockedAmount <= c.totalLocked
      && c.totalLocked == w.config.totalLocked
      && c.Index() == w.config.Index()
  {
    BucketsBacked(w, owner);
  }

  /** A covered transfer moves exactly the two balances. */
  lemma MoveExact(t: Tokens, from: Account, to: Account, amount: int, k: Key)
    requires TokensOk(t) && 0 <= amount <= t.Balance(from) && from != to
    ensures var t' := t.Move(from, to, amount);
      && TokensOk(t') && Circulating(t') == Circulating(t)
      && t'.vault == t.vault - (if from.Vault? then amount else 0) + (if to.Vault? then amount else 0)
      && t'.pool == t.pool - (if from.Pool? then amount else 0) + (if to.Pool? then amount else 0)
      && t'.Balance(Wallet(k)) == t.Balance(Wallet(k)) - (if from == Wallet(k) then amount else 0)
                                  + (if to == Wallet(k) then amount else 0)
      && t'.burned == t.burned
  {
    MoveOk(t, from, to, amount);
    MoveCirculating(t, from, to, amount);
  }

  lemma ExitTokensOk(t: Tokens, owner: Key, amount: int, e: Exit)
    requires TokensOk(t)
    requires 0 <= e.paid <= t.pool && 0 <= e.reward && 0 <= e.burned && e.reward + e.burned <= amount <= t.vault
    ensures var t' := ExitTokens(t, owner, amount, e);
      && TokensOk(t')
      && t'.vault == t.vault - amount
      && t'.pool == t.pool - e.paid + e.reward
      && t'.burned == t.burned + e.burned
      && Circulating(t') == Circulating(t) - e.burned
      && t'.Balance(Wallet(owner)) == t.Balance(Wallet(owner)) + e.paid + (amount - e.reward - e.burned)
  {
    var returned := amount - e.reward - e.burned;
    MoveExact(t, Pool, Wallet(owner), e.paid, owner);
    var t1 := t.Move(Pool, Wallet(owner), e.paid);
    MoveExact(t1, Vault, Wallet(owner), returned, owner);
    var t2 := t1.Move(Vault, Wallet(owner), returned);
    MoveExact(t2, Vault, Pool, e.reward, owner);
    BurnOk(t2.Move(Vault, Pool, e.reward), Vault, e.burned);
  }

  lemma ExitRecordsOk(c: Config, p: Position, amount: int, now: int)
    requires ConfigOk(c) && PositionOk(c, p) && 0 < amount <= p.lockedAmount
    requires p.Checkpoint() == c.Index()
    requires && p.eligibleAmount <= c.eligibleLocked
             && p.warmingAmount <= c.warmingLocked
             && p.pendingActivationAmount <= c.pendingActivationLocked
             && p.lockedAmount <= c.totalLocked
    requires RoomFor(c, ExitOf(c, p, amount, now).reward, ExitOf(c, p, amount, now).base)
    ensures var e := ExitOf(c, p, amount, now);
      && ConfigOk(ExitConfig(c, p, amount, e))
      && ExitConfig(c, p, amount, e).Index() == c.Index() + BatchDelta(e.reward, e.base)
      && 0 <= BatchDelta(e.reward, e.base)
      && PositionOk(ExitConfig(c, p, amount, e), ExitPosition(p, amount, e))
  {
    var e := ExitOf(c, p, amount, now);
    ExitBounds(c, p, amount, now);
    var reduced := ReducedConfig(PaidConfig(c, e.paid), p, amount);
    var c2 := reduced.(totalPenaltiesCollected := SatAdd(c.totalPenaltiesCollected, e.reward + e.burned),
                       totalBurned := SatAdd(c.totalBurned, e.burned));
    assert ConfigOk(c2);
    CommitIndex(c2, e.reward, e.base);
    BatchExact(e.reward, e.base);
  }

  /** The record changes that one owner's instruction makes agree bucket by bucket. */
  predicate Matches(w: World, owner: Key, c: Config, q: Position) {
    var p := w.Lookup(owner);
    && c.totalLocked - w.config.totalLocked == q.lockedAmount - p.lockedAmount
    && c.eligibleLocked - w.config.eligibleLocked == q.eligibleAmount - p.eligibleAmount
    && c.warmingLocked - w.config.warmingLocked == q.warmingAmount - p.warmingAmount
    && c.pendingActivationLocked - w.config.pendingActivationLocked
       == q.pendingActivationAmount - p.pendingActivationAmount
  }

  /** Writing one position and the config keeps the invariant when the pool covers the difference. */
  lemma WriteKeeps(w: World, owner: Key, c: Config, q: Position, t: Tokens, d: int)
    requires Safe(w)
    requires ConfigOk(c) && PositionOk(c, q) && Matches(w, owner, c, q)
    requires c.Index() == w.config.Index() + d && 0 <= d && w.config.currentEpoch <= c.currentEpoch
    requires TokensOk(t) && c.totalLocked <= t.vault
    requires var index := w.config.Index();
      0 <= Slack(w) + (t.pool - w.tokens.pool) * SCALE
             + Liability(w.Lookup(owner), index) - Liability(q, index) - c.eligibleLocked * d
    ensures var w' := World(c, w.positions[owner := q], t);
      && Safe(w')
      && Slack(w') == Slack(w) + (t.pool - w.tokens.pool) * SCALE
           + Liability(w.Lookup(owner), w.config.Index()) - Liability(q, w.config.Index()) - c.eligibleLocked * d
  {
    Retally(w, owner, c, q);
    OwedWrite(w, owner, q);
    OwedAdvance(w.positions[owner := q], w.config.Index(), d);
  }

  lemma ExitBase(c: Config, p: Position, amount: int, now: int)
    ensures ExitConfig(c, p, amount, ExitOf(c, p, amount, now)).eligibleLocked == ExitOf(c, p, amount, now).base
  {}

  lemma ExitMatches(w: World, owner: Key, amount: nat, now: int)
    ensures var c1, p1 := TouchedConfig(w.config, w.Lookup(owner)), TouchedPosition(w.config, w.Lookup(owner));
      var e := ExitOf(c1, p1, amount, now);
      && Matches(w, owner, ExitConfig(c1, p1, amount, e), ExitPosition(p1, amount, e))
      && ExitConfig(c1, p1, amount, e).currentEpoch == w.config.currentEpoch
      && ExitConfig(c1, p1, amount, e).totalLocked == w.config.totalLocked - amount
  {}

  lemma WithdrawKeeps(w: World, owner: Key, amount: nat, now: int)
    requires Safe(w) && WithdrawStep(w, owner, amount, now).Success?
    ensures var o := WithdrawStep(w, owner, amount, now).value;
      && Safe(o.world)
      && Slack(o.world) == Slack(w) + Residue(o.batch, o.base)
           + (if amount == w.Lookup(owner).lockedAmount then Fraction(w, owner) else 0)
      && o.world.config.eligibleLocked == o.base
      && 0 <= o.paid && 0 <= o.batch && 0 <= o.base && (o.base == 0 ==> o.batch == 0)
      && o.world.config.Index() == w.config.Index() + BatchDelta(o.batch, o.base)
  {
    var p := w.Lookup(owner);
    var c1, p1 := TouchedConfig(w.config, p), TouchedPosition(w.config, p);
    TouchOk(w, owner);
    TouchedBacked(w, owner);
    TouchKeepsLiability(w.config, p);
    var e := ExitOf(c1, p1, amount, now);
    ExitBounds(c1, p1, amount, now);
    ExitRecordsOk(c1, p1, amount, now);
    ExitBase(c1, p1, amount, now);
    ExitMatches(w, owner, amount, now);
    ExitTokensOk(w.tokens, owner, amount, e);
    ExitLiability(c1, p1, amount, e);
    BatchExact(e.reward, e.base);
    WriteKeeps(w, owner, ExitConfig(c1, p1, amount, e), ExitPosition(p1, amount, e),
               ExitTokens(w.tokens, owner, amount, e), BatchDelta(e.reward, e.base));
  }

  /**
   The denominator previewed before the stake is reduced is the eligible stake of all positions after
   it, the leaver's remaining stake included.
   */
  lemma PreviewIsDenominator(w: World, owner: Key, amount: nat, now: int)
    requires Safe(w) && WithdrawStep(w, owner, amount, now).Success?
    ensures var o := WithdrawStep(w, owner, amount, now).value;
      && o.base == Sum(o.world.positions, Eligible())
      && o.world.positions[owner].eligibleAmount <= o.base
  {
    WithdrawKeeps(w, owner, amount, now);
    BucketsBacked(WithdrawStep(w, owner, amount, now).value.world, owner);
  }

  // ---- The other instructions ----

  lemma DepositRecordsOk(c: Config, p: Position, amount: nat, now: int)
    requires ConfigOk(c) && PositionOk(c, p) && p.Checkpoint() == c.Index()
    requires I64_MIN <= now && now + c.policy.minLockSeconds <= I64_MAX && 0 < amount
    requires p.lockedAmount <= c.totalLocked && p.pendingActivationAmount <= c.pendingActivationLocked
    requires c.totalLocked + amount <= U64_MAX
    ensures ConfigOk(DepositedConfig(c, amount))
    ensures PositionOk(DepositedConfig(c, amount), DepositedPosition(c.policy, p, amount, now))
  {}

  lemma DepositMatches(w: World, owner: Key, amount: nat, now: int)
    ensures var c1, p1 := TouchedConfig(w.config, w.Lookup(owner)), TouchedPosition(w.config, w.Lookup(owner));
      Matches(w, owner, DepositedConfig(c1, amount), DepositedPosition(w.config.policy, p1, amount, now))
  {}

  lemma DepositWrite(w: World, owner: Key, amount: nat, now: int)
    requires Safe(w) && I64_MIN <= now && DepositStep(w, owner, amount, now).Success?
    ensures var c1, p1 := TouchedConfig(w.config, w.Lookup(owner)), TouchedPosition(w.config, w.Lookup(owner));
      && ConfigOk(DepositedConfig(c1, amount))
      && PositionOk(DepositedConfig(c1, amount), DepositedPosition(w.config.policy, p1, amount, now))
      && Liability(DepositedPosition(w.config.policy, p1, amount, now), w.config.Index())
         == Liability(w.Lookup(owner), w.config.Index())
  {
    var c1, p1 := TouchedConfig(w.config, w.Lookup(owner)), TouchedPosition(w.config, w.Lookup(owner));
    TouchOk(w, owner);
    TouchedBacked(w, owner);
    TouchKeepsLiability(w.config, w.Lookup(owner));
    SupplyBound(w.tokens, owner);
    DepositRecordsOk(c1, p1, amount, now);
    AtCheckpoint(c1, DepositedPosition(w.config.policy, p1, amount, now));
  }

  lemma DepositKeeps(w: World, owner: Key, amount: nat, now: int)
    requires Safe(w) && I64_MIN <= now && DepositStep(w, owner, amount, now).Success?
    ensures var w' := DepositStep(w, owner, amount, now).value.world;
      && Safe(w')
      && Slack(w') == Slack(w)
      && w'.config.Index() == w.config.Index()
  {
    var c1, p1 := TouchedConfig(w.config, w.Lookup(owner)), TouchedPosition(w.config, w.Lookup(owner));
    DepositWrite(w, owner, amount, now);
    DepositMatches(w, owner, amount, now);
    MoveOk(w.tokens, Wallet(owner), Vault, amount);
    WriteKeeps(w, owner, DepositedConfig(c1, amount), DepositedPosition(w.config.policy, p1, amount, now),
               w.tokens.Move(Wallet(owner), Vault, amount), 0);
  }

  lemma ActivateRecordsOk(c: Config, p: Position)
    requires ConfigOk(c) && PositionOk(c, p)
    requires p.pendingActivationAmount <= c.pendingActivationLocked
    ensures ConfigOk(ActivatedConfig(c, p))
    ensures PositionOk(ActivatedConfig(c, p), ActivatedPosition(c, p))
  {}

  lemma ActivateMatches(w: World, owner: Key)
    ensures var c1, p1 := TouchedConfig(w.config, w.Lookup(owner)), TouchedPosition(w.config, w.Lookup(owner));
      Matches(w, owner, ActivatedConfig(c1, p1), ActivatedPosition(c1, p1))
  {}

  lemma ActivateKeeps(w: World, owner: Key, now: int)
    requires Safe(w) && ActivateStep(w, owner, now).Success?
    ensures var w' := ActivateStep(w, owner, now).value.world;
      && Safe(w')
      && Slack(w') == Slack(w)
      && w'.config.Index() == w.config.Index()
  {
    var p := w.Lookup(owner);
    var c1, p1 := TouchedConfig(w.config, p), TouchedPosition(w.config, p);
    TouchOk(w, owner);
    TouchedBacked(w, owner);
    TouchKeepsLiability(w.config, p);
    ActivateRecordsOk(c1, p1);
    ActivateMatches(w, owner);
    var q := ActivatedPosition(c1, p1);
    AtCheckpoint(c1, q);
    WriteKeeps(w, owner, ActivatedConfig(c1, p1), q, w.tokens, 0);
  }

  lemma ClaimMatches(w: World, owner: Key)
    ensures var c1, p1 := TouchedConfig(w.config, w.Lookup(owner)), TouchedPosition(w.config, w.Lookup(owner));
      Matches(w, owner, PaidConfig(c1, p1.pendingRewards), PaidPosition(p1, p1.pendingRewards))
  {}

  lemma ClaimWrite(w: World, owner: Key)
    requires Safe(w)
    ensures var c1, p1 := TouchedConfig(w.config, w.Lookup(owner)), TouchedPosition(w.config, w.Lookup(owner));
      && 0 <= p1.pendingRewards <= w.tokens.pool
      && ConfigOk(PaidConfig(c1, p1.pendingRewards))
      && PositionOk(c1, PaidPosition(p1, p1.pendingRewards))
      && Liability(PaidPosition(p1, p1.pendingRewards), w.config.Index())
         == Liability(w.Lookup(owner), w.config.Index()) - p1.pendingRewards * SCALE
  {
    var c1, p1 := TouchedConfig(w.config, w.Lookup(owner)), TouchedPosition(w.config, w.Lookup(owner));
    TouchOk(w, owner);
    TouchKeepsLiability(w.config, w.Lookup(owner));
    AtCheckpoint(c1, PaidPosition(p1, p1.pendingRewards));
  }

  lemma ClaimKeeps(w: World, owner: Key)
    requires Safe(w) && ClaimStep(w, owner).Success?
    ensures var o := ClaimStep(w, owner).value;
      && Safe(o.world)
      && Slack(o.world) == Slack(w)
      && o.world.config.Index() == w.config.Index()
      && 0 <= o.paid
  {
    var c1, p1 := TouchedConfig(w.config, w.Lookup(owner)), TouchedPosition(w.config, w.Lookup(owner));
    ClaimWrite(w, owner);
    ClaimMatches(w, owner);
    MoveOk(w.tokens, Pool, Wallet(owner), p1.pendingRewards);
    WriteKeeps(w, owner, PaidConfig(c1, p1.pendingRewards), PaidPosition(p1, p1.pendingRewards),
               w.tokens.Move(Pool, Wallet(owner), p1.pendingRewards), 0);
  }

  lemma FundKeeps(w: World, funder: Key, amount: nat, expected: Option<(nat, nat)>)
    requires Safe(w) && FundStep(w, funder, amount, expected).Success?
    ensures var o := FundStep(w, funder, amount, expected).value;
      && Safe(o.world)
      && Slack(o.world) == Slack(w) + Residue(o.batch, o.base)
      && o.world.config.eligibleLocked == o.base
      && o.world.config.Index() == w.config.Index() + BatchDelta(o.batch, o.base)
  {
    var base := w.config.eligibleLocked;
    var c1 := w.config.(totalRewardsFunded := SatAdd(w.config.totalRewardsFunded, amount));
    var w' := FundStep(w, funder, amount, expected).value.world;
    CommitIndex(c1, amount, base);
    BatchExact(amount, base);
    MoveOk(w.tokens, Wallet(funder), Pool, amount);
    OwedAdvance(w.positions, w.config.Index(), BatchDelta(amount, base));
  }

  /** The epoch counter cannot overflow: it counts whole epochs inside the range of the clock. */
  lemma EpochFits(c: Config)
    requires ConfigOk(c) && c.lastEpochTs + c.policy.epochSeconds <= I64_MAX
    ensures c.currentEpoch + 1 <= U64_MAX
    ensures (c.currentEpoch + 1) * c.policy.epochSeconds
         == c.currentEpoch * c.policy.epochSeconds + c.policy.epochSeconds
  {
    Distribute(c.currentEpoch, 1, c.policy.epochSeconds);
    FactorBound(c.policy.epochSeconds, c.currentEpoch + 1, U64_MAX);
  }

  lemma RollKeeps(w: World, now: int)
    requires Safe(w) && RollStep(w, now).Success?
    ensures var w' := RollStep(w, now).value.world;
      Safe(w') && Slack(w') == Slack(w) && w'.config.Index() == w.config.Index()
  {
    EpochFits(w.config);
  }

  /** Finalization finds nothing owed: with no stake, every position is empty. */
  lemma NothingOwed(w: World)
    requires Safe(w) && w.config.totalLocked == 0
    ensures Owed(w) == 0
    ensures forall o <- w.positions ::
      w.positions[o].lockedAmount == 0 && Liability(w.positions[o], w.config.Index()) == 0
  {
    var f := LiabilityAt(w.config.Index());
    forall o <- w.positions ensures w.positions[o].lockedAmount == 0 && f(w.positions[o]) == 0 {
      BucketsBacked(w, o);
      NoEligibleLiability(w.positions[o], w.config.Index());
    }
    SumZero(w.positions, f);
  }

  lemma FinalizeKeeps(w: World)
    requires Safe(w) && FinalizeStep(w).Success?
    ensures var w' := FinalizeStep(w).value.world;
      Safe(w') && Slack(w') == 0 && w'.tokens.pool == 0 && w'.config.Index() == w.config.Index()
  {
    NothingOwed(w);
    BurnOk(w.tokens, Pool, w.tokens.pool);
    var w' := FinalizeStep(w).value.world;
    assert Owed(w') == Owed(w);
  }

  lemma SendKeeps(w: World, sender: Key, to: Account, amount: nat)
    requires Safe(w) && SendStep(w, sender, to, amount).Success?
    ensures var w' := SendStep(w, sender, to, amount).value.world;
      && Safe(w')
      && Slack(w') == Slack(w) + (if to.Pool? then amount * SCALE else 0)
      && w'.config.Index() == w.config.Index()
  {
    MoveOk(w.tokens, Wallet(sender), to, amount);
    var w' := SendStep(w, sender, to, amount).value.world;
    assert Owed(w') == Owed(w);
  }

  // ---- Over every call and every run ----

  /** The clock readings a call carries are 64-bit. */
  predicate CallOk(call: Call) {
    match call
    case Deposit(_, _, now) => I64_MIN <= now <= I64_MAX
    case Activate(_, now) => I64_MIN <= now <= I64_MAX
    case Roll(now) => I64_MIN <= now <= I64_MAX
    case Withdraw(_, _, now) => I64_MIN <= now <= I64_MAX
    case _ => true
  }

  lemma StepKeeps(w: World, call: Call)
    requires Safe(w) && CallOk(call)
    ensures Safe(After(w, call))
  {
    if Step(w, call).Success? {
      match call
      case Deposit(owner, amount, now) => DepositKeeps(w, owner, amount, now);
      case Activate(owner, now) => ActivateKeeps(w, owner, now);
      case Fund(funder, amount, expected) => FundKeeps(w, funder, amount, expected);
      case Roll(now) => RollKeeps(w, now);
      case Claim(owner) => ClaimKeeps(w, owner);
      case Withdraw(owner, amount, now) => WithdrawKeeps(w, owner, amount, now);
      case Finalize => FinalizeKeeps(w);
      case Send(sender, to, amount) => SendKeeps(w, sender, to, amount);
    }
  }

  ghost predicate CallsOk(calls: seq<Call>) {
    forall call <- calls :: CallOk(call)
  }

  /** The state right after initialization at a clock reading, over any custody balances within the supply. */
  ghost predicate GenesisAt(w: World, now: int) {
    && I64_MIN <= now <= I64_MAX
    && TokensOk(w.tokens)
    && Initialized(w.config.policy, now, w.tokens) == Success(w)
  }

  ghost predicate Genesis(w: World) {
    exists now: int :: GenesisAt(w, now)
  }

  /** A safe arena in which nothing has happened yet. */
  ghost predicate Fresh(w: World) {
    && Safe(w)
    && w.positions == map[]
    && w.config.currentEpoch == 0
    && w.config.totalRewardsFunded == w.config.totalRewardsDistributed == w.config.totalRewardsClaimed == 0
    && w.config.totalRewardsExpired == w.config.totalPenaltiesCollected == w.config.totalBurned == 0
  }

  lemma GenesisFresh(w: World)
    requires Genesis(w)
    ensures Fresh(w)
  {}

  /** Every run of an initialized arena stays safe: stake backed by the vault, rewards by the pool. */
  lemma {:induction false} RunSafe(w: World, calls: seq<Call>)
    requires Safe(w) && CallsOk(calls)
    ensures Safe(Run(w, calls))
  {
    if calls != [] {
      var n := |calls| - 1;
      RunSafe(w, calls[..n]);
      StepKeeps(Run(w, calls[..n]), calls[n]);
    }
  }
}
