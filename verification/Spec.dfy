/**
 The accounting as one exact transition function. Amounts are unbounded, the reward index is
 unwrapped, and the only guards are the ones a caller can run into; every other checked operation
 of the program is absent here and is shown unable to fail where the program is verified.
 */
module Spec {
  import opened Checked
  import opened State

  datatype Call =
    | Deposit(owner: Key, amount: nat, now: int)
    | Activate(owner: Key, now: int)
    | Fund(funder: Key, amount: nat, expected: Option<(nat, nat)>)
    | Roll(now: int)
    | Claim(owner: Key)
    | Withdraw(owner: Key, amount: nat, now: int)
    | Finalize
    // A token transfer outside the program, such as a donation to custody.
    | Send(sender: Key, to: Account, amount: nat)

  /** The next state, the reward paid out, and the reward batch committed against an eligible base. */
  datatype Outcome = Outcome(world: World, paid: int, batch: int, base: int)

  // ---- Reward accumulator ----

  /** What a position is owed at an index, in units of one token divided by SCALE. */
  function Liability(p: Position, index: int): int {
    p.pendingRewards * SCALE + p.rewardAccrualRemainder + p.eligibleAmount * (index - p.Checkpoint())
  }

  function BatchDelta(batch: int, base: int): int {
    if base == 0 then 0 else batch * SCALE / base
  }

  function Advance(c: Config, d: int): Config {
    c.(rewardIndex := (c.Index() + d) % WRAP, rewardIndexGeneration := (c.Index() + d) / WRAP)
  }

  predicate RoomFor(c: Config, batch: int, base: int) {
    c.Index() + BatchDelta(batch, base) < GENERATIONS * WRAP
  }

  function Committed(c: Config, batch: int, base: int): Config {
    var d := BatchDelta(batch, base);
    if d == 0 then c
    else Advance(c, d).(totalRewardsDistributed := SatAdd(c.totalRewardsDistributed, batch))
  }

  /** The position has been touched recently enough for its index difference to fit in 128 bits. */
  predicate InReach(c: Config, p: Position) {
    0 <= c.Index() - p.Checkpoint() < WRAP
  }

  /** Everything owed is made pending, the fraction carried. */
  function Settle(c: Config, p: Position): Position {
    var owed := Liability(p, c.Index());
    p.(pendingRewards := owed / SCALE,
       rewardAccrualRemainder := owed % SCALE,
       rewardIndexCheckpoint := c.rewardIndex,
       rewardIndexGenerationCheckpoint := c.rewardIndexGeneration)
  }

  predicate WarmingReady(c: Config, p: Position) {
    p.warmingAmount > 0 && c.currentEpoch > p.warmingEpoch
  }

  /** Settle, then move mature warming stake into the eligible bucket. */
  function TouchedPosition(c: Config, p: Position): Position {
    var q := Settle(c, p);
    if WarmingReady(c, p)
    then q.(warmingAmount := 0, eligibleAmount := p.eligibleAmount + p.warmingAmount)
    else q
  }

  function TouchedConfig(c: Config, p: Position): Config {
    if WarmingReady(c, p)
    then c.(warmingLocked := c.warmingLocked - p.warmingAmount,
            eligibleLocked := c.eligibleLocked + p.warmingAmount)
    else c
  }

  // ---- Penalty ----

  datatype Split = Split(reward: int, burn: int, penaltyRemainder: int, burnRemainder: int)

  function PenaltySplit(amount: int, bps: int, burnBps: int, penaltyRem: int, burnRem: int): Split {
    if bps == 0 then Split(0, 0, penaltyRem, burnRem)
    else
      var penalty := Min((amount * bps + penaltyRem) / BPS, amount);
      var burn := if burnBps == 0 then 0 else Min((amount * burnBps + burnRem) / BPS, penalty);
      Split(penalty - burn,
            burn,
            (amount * bps + penaltyRem) % BPS,
            if burnBps == 0 then 0 else (amount * burnBps + burnRem) % BPS)
  }

  // ---- Withdrawal ----

  function PendingPart(p: Position, amount: int): int {
    Min(p.pendingActivationAmount, amount)
  }

  function WarmingPart(p: Position, amount: int): int {
    Min(p.warmingAmount, amount - PendingPart(p, amount))
  }

  function EligiblePart(p: Position, amount: int): int {
    amount - PendingPart(p, amount) - WarmingPart(p, amount)
  }

  function ReducedPosition(p: Position, amount: int): Position {
    p.(pendingActivationAmount := p.pendingActivationAmount - PendingPart(p, amount),
       warmingAmount := p.warmingAmount - WarmingPart(p, amount),
       eligibleAmount := p.eligibleAmount - EligiblePart(p, amount),
       lockedAmount := p.lockedAmount - amount,
       rewardAccrualRemainder := if p.lockedAmount == amount then 0 else p.rewardAccrualRemainder)
  }

  function ReducedConfig(c: Config, p: Position, amount: int): Config {
    c.(pendingActivationLocked := c.pendingActivationLocked - PendingPart(p, amount),
       warmingLocked := c.warmingLocked - WarmingPart(p, amount),
       eligibleLocked := c.eligibleLocked - EligiblePart(p, amount),
       totalLocked := c.totalLocked - amount)
  }

  function PaidPosition(p: Position, amount: int): Position {
    p.(pendingRewards := p.pendingRewards - amount,
       totalRewardsClaimed := SatAdd(p.totalRewardsClaimed, amount))
  }

  function PaidConfig(c: Config, amount: int): Config {
    c.(totalRewardsClaimed := SatAdd(c.totalRewardsClaimed, amount))
  }

  /** The four amounts a withdrawal is made of, for a touched config and position. */
  datatype Exit = Exit(paid: int, split: Split, base: int, reward: int, burned: int)

  function ExitOf(c: Config, p: Position, amount: int, now: int): Exit {
    var split :=
      if now < p.unlockTs && c.policy.earlyExitPenaltyBps > 0
      then PenaltySplit(amount, c.policy.earlyExitPenaltyBps, c.policy.burnPenaltyBps,
                        p.penaltyRemainder, p.burnRemainder)
      else Split(0, 0, 0, 0);
    var base := c.eligibleLocked - EligiblePart(p, amount);
    Exit(if amount == p.lockedAmount then p.pendingRewards else 0,
         split,
         base,
         if base == 0 then 0 else split.reward,
         if base == 0 then split.reward + split.burn else split.burn)
  }

  function ExitPosition(p: Position, amount: int, e: Exit): Position {
    ReducedPosition(
      PaidPosition(p, e.paid).(penaltyRemainder := e.split.penaltyRemainder, burnRemainder := e.split.burnRemainder),
      amount)
  }

  function ExitConfig(c: Config, p: Position, amount: int, e: Exit): Config {
    var reduced := ReducedConfig(PaidConfig(c, e.paid), p, amount);
    Committed(reduced.(totalPenaltiesCollected := SatAdd(c.totalPenaltiesCollected, e.reward + e.burned),
                       totalBurned := SatAdd(c.totalBurned, e.burned)),
              e.reward, e.base)
  }

  function ExitTokens(t: Tokens, owner: Key, amount: int, e: Exit): Tokens {
    t.Move(Pool, Wallet(owner), e.paid)
     .Move(Vault, Wallet(owner), amount - e.reward - e.burned)
     .Move(Vault, Pool, e.reward)
     .Burn(Vault, e.burned)
  }

  function WithdrawStep(w: World, owner: Key, amount: nat, now: int): Result<Outcome> {
    var p := w.Lookup(owner);
    if amount == 0 then Failure(InvalidAmount)
    else if owner !in w.positions then Failure(NotInitialized)
    else if amount > p.lockedAmount then Failure(InsufficientPositionBalance)
    else if !InReach(w.config, p) then Failure(MathOverflow)
    else
      var c1, p1 := TouchedConfig(w.config, p), TouchedPosition(w.config, p);
      var e := ExitOf(c1, p1, amount, now);
      if !RoomFor(c1, e.reward, e.base) then Failure(MathOverflow)
      else Success(Outcome(
        World(ExitConfig(c1, p1, amount, e),
              w.positions[owner := ExitPosition(p1, amount, e)],
              ExitTokens(w.tokens, owner, amount, e)),
        e.paid, e.reward, e.base))
  }

  // ---- The other instructions ----

  function DepositedPosition(policy: Policy, p: Position, amount: int, now: int): Position {
    var minUnlock := now + policy.minLockSeconds;
    var minActivation := now + policy.activationDelaySeconds;
    p.(lockedAmount := p.lockedAmount + amount,
       pendingActivationAmount := p.pendingActivationAmount + amount,
       unlockTs := if p.lockedAmount == 0 then minUnlock else Max(p.unlockTs, minUnlock),
       activationTs := if p.lockedAmount == 0 || p.pendingActivationAmount == 0
                       then minActivation else Max(p.activationTs, minActivation))
  }

  function DepositedConfig(c: Config, amount: int): Config {
    c.(totalLocked := c.totalLocked + amount,
       pendingActivationLocked := c.pendingActivationLocked + amount)
  }

  function DepositStep(w: World, owner: Key, amount: nat, now: int): Result<Outcome> {
    var p := w.Lookup(owner);
    var c1, p1 := TouchedConfig(w.config, p), TouchedPosition(w.config, p);
    if amount < w.config.policy.minDepositAmount then Failure(InvalidAmount)
    else if w.tokens.Balance(Wallet(owner)) < amount then Failure(TokenFailure)
    else if !InReach(w.config, p) then Failure(MathOverflow)
    else if now + w.config.policy.minLockSeconds > I64_MAX then Failure(MathOverflow)
    else Success(Outcome(
      World(DepositedConfig(c1, amount),
            w.positions[owner := DepositedPosition(w.config.policy, p1, amount, now)],
            w.tokens.Move(Wallet(owner), Vault, amount)),
      0, 0, 0))
  }

  function ActivatedPosition(c: Config, p: Position): Position {
    p.(pendingActivationAmount := 0,
       warmingEpoch := if p.pendingActivationAmount > 0 && p.warmingAmount == 0 then c.currentEpoch else p.warmingEpoch,
       warmingAmount := p.warmingAmount + p.pendingActivationAmount)
  }

  function ActivatedConfig(c: Config, p: Position): Config {
    c.(pendingActivationLocked := c.pendingActivationLocked - p.pendingActivationAmount,
       warmingLocked := c.warmingLocked + p.pendingActivationAmount)
  }

  function ActivateStep(w: World, owner: Key, now: int): Result<Outcome> {
    var p := w.Lookup(owner);
    var c1, p1 := TouchedConfig(w.config, p), TouchedPosition(w.config, p);
    if owner !in w.positions then Failure(NotInitialized)
    else if WarmingReady(w.config, p) && !InReach(w.config, p) then Failure(MathOverflow)
    else if p.lockedAmount == 0 then Failure(InvalidAmount)
    else if p.pendingActivationAmount > 0 && now < p.activationTs then Failure(ActivationNotReady)
    else if !InReach(w.config, p) then Failure(MathOverflow)
    else Success(Outcome(
      w.(config := ActivatedConfig(c1, p1), positions := w.positions[owner := ActivatedPosition(c1, p1)]),
      0, 0, 0))
  }

  function FundedConfig(c: Config, amount: int): Config {
    Committed(c.(totalRewardsFunded := SatAdd(c.totalRewardsFunded, amount)), amount, c.eligibleLocked)
  }

  function FundStep(w: World, funder: Key, amount: nat, expected: Option<(nat, nat)>): Result<Outcome> {
    var base := w.config.eligibleLocked;
    if amount == 0 then Failure(InvalidAmount)
    else if base == 0 then Failure(NoEligibleStake)
    else if expected.Some? && (base != expected.value.0 || w.config.currentEpoch > expected.value.1)
    then Failure(FundingSnapshotMismatch)
    else if BatchDelta(amount, base) == 0 then Failure(InvalidAmount)
    else if w.tokens.Balance(Wallet(funder)) < amount then Failure(TokenFailure)
    else if !RoomFor(w.config, amount, base) then Failure(MathOverflow)
    else Success(Outcome(
      w.(config := FundedConfig(w.config, amount), tokens := w.tokens.Move(Wallet(funder), Pool, amount)),
      0, amount, base))
  }

  function RollStep(w: World, now: int): Result<Outcome> {
    var next := w.config.lastEpochTs + w.config.policy.epochSeconds;
    if next > I64_MAX then Failure(MathOverflow)
    else if now < next then Failure(EpochNotReady)
    else Success(Outcome(
      w.(config := w.config.(currentEpoch := w.config.currentEpoch + 1, lastEpochTs := next)), 0, 0, 0))
  }

  function ClaimStep(w: World, owner: Key): Result<Outcome> {
    var p := w.Lookup(owner);
    var c1, p1 := TouchedConfig(w.config, p), TouchedPosition(w.config, p);
    if owner !in w.positions then Failure(NotInitialized)
    else if p.lockedAmount == 0 then Failure(InsufficientPositionBalance)
    else if !InReach(w.config, p) then Failure(MathOverflow)
    else if p1.pendingRewards == 0 && !WarmingReady(w.config, p) then Failure(NoRewards)
    else Success(Outcome(
      World(PaidConfig(c1, p1.pendingRewards),
            w.positions[owner := PaidPosition(p1, p1.pendingRewards)],
            w.tokens.Move(Pool, Wallet(owner), p1.pendingRewards)),
      p1.pendingRewards, 0, 0))
  }

  function FinalizedConfig(c: Config, pool: int): Config {
    c.(totalRewardsExpired := SatAdd(c.totalRewardsExpired, pool), totalBurned := SatAdd(c.totalBurned, pool))
  }

  function FinalizeStep(w: World): Result<Outcome> {
    var pool := w.tokens.pool;
    if w.config.totalLocked != 0 then Failure(InvalidAmount)
    else Success(Outcome(
      w.(config := FinalizedConfig(w.config, pool), tokens := w.tokens.Burn(Pool, pool)),
      0, 0, 0))
  }

  function SendStep(w: World, sender: Key, to: Account, amount: nat): Result<Outcome> {
    if w.tokens.Balance(Wallet(sender)) < amount then Failure(TokenFailure)
    else Success(Outcome(w.(tokens := w.tokens.Move(Wallet(sender), to, amount)), 0, 0, 0))
  }

  function Step(w: World, call: Call): Result<Outcome> {
    match call
    case Deposit(owner, amount, now) => DepositStep(w, owner, amount, now)
    case Activate(owner, now) => ActivateStep(w, owner, now)
    case Fund(funder, amount, expected) => FundStep(w, funder, amount, expected)
    case Roll(now) => RollStep(w, now)
    case Claim(owner) => ClaimStep(w, owner)
    case Withdraw(owner, amount, now) => WithdrawStep(w, owner, amount, now)
    case Finalize => FinalizeStep(w)
    case Send(sender, to, amount) => SendStep(w, sender, to, amount)
  }

  /** Transactions are atomic: a failed call changes nothing. */
  function After(w: World, call: Call): World {
    match Step(w, call)
    case Success(o) => o.world
    case Failure(_) => w
  }

  /** The state after a run of calls. */
  function Run(w: World, calls: seq<Call>): World {
    if calls == [] then w
    else After(Run(w, calls[..|calls| - 1]), calls[|calls| - 1])
  }

  /** Initialization: the policy checks, then an empty arena over whatever custody already holds. */
  function Initialized(policy: Policy, now: int, tokens: Tokens): Result<World> {
    if policy.minLockSeconds <= 0 || policy.activationDelaySeconds <= 0 || policy.epochSeconds <= 0
    then Failure(InvalidAmount)
    else if policy.activationDelaySeconds + 2 * policy.epochSeconds > I64_MAX then Failure(MathOverflow)
    else if policy.minLockSeconds < policy.activationDelaySeconds + 2 * policy.epochSeconds
    then Failure(InvalidLockPolicy)
    else if policy.minDepositAmount == 0 then Failure(InvalidAmount)
    else if policy.earlyExitPenaltyBps > MAX_EARLY_EXIT_PENALTY_BPS then Failure(InvalidPenalty)
    else if policy.burnPenaltyBps > policy.earlyExitPenaltyBps then Failure(InvalidBurn)
    else if 0 < policy.earlyExitPenaltyBps && policy.minDepositAmount * policy.earlyExitPenaltyBps < BPS
    then Failure(InvalidPenalty)
    else if 0 < policy.burnPenaltyBps && policy.minDepositAmount * policy.burnPenaltyBps < BPS
    then Failure(InvalidBurn)
    else Success(World(
      Config(policy, now, now, 0, 0, 0, 0, 0, 0, 0, 0, 0, 0, 0, 0, 0, 0, 0), map[], tokens))
  }
}
