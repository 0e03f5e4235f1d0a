/** The records the program stores, and the token balances it moves. */
module State {
  import opened Checked

  /** Fixed-point scale of the reward index. */
  const SCALE: nat := 1_000_000_000_000_000_000
  const BPS: nat := 10_000
  const MAX_EARLY_EXIT_PENALTY_BPS: nat := 5_000

  /** One generation of the 128-bit reward index, and the number of generations. */
  const WRAP: nat := 0x1_0000_0000_0000_0000_0000_0000_0000_0000
  const GENERATIONS: nat := 0x1_0000_0000_0000_0000

  /** An account key. */
  type Key = nat

  /** The economic parameters, fixed at initialization. */
  datatype Policy = Policy(
    minLockSeconds: i64,
    activationDelaySeconds: i64,
    epochSeconds: i64,
    minDepositAmount: u64,
    earlyExitPenaltyBps: u16,
    burnPenaltyBps: u16)

  datatype Config = Config(
    policy: Policy,
    createdTs: int,
    lastEpochTs: int,
    currentEpoch: int,
    totalLocked: int,
    eligibleLocked: int,
    warmingLocked: int,
    pendingActivationLocked: int,
    pendingRewards: int,
    rewardDust: int,
    rewardIndex: int,
    rewardIndexGeneration: int,
    totalRewardsFunded: int,
    totalRewardsDistributed: int,
    totalRewardsClaimed: int,
    totalPenaltiesCollected: int,
    totalBurned: int,
    totalRewardsExpired: int)
  {
    /** The reward index with its wrap-around undone. */
    function Index(): int {
      rewardIndexGeneration * WRAP + rewardIndex
    }

    /** Every field is representable in its stored width. */
    predicate Fits() {
      && I64_MIN <= createdTs <= I64_MAX
      && I64_MIN <= lastEpochTs <= I64_MAX
      && 0 <= currentEpoch <= U64_MAX
      && 0 <= totalLocked <= U64_MAX
      && 0 <= eligibleLocked <= U64_MAX
      && 0 <= warmingLocked <= U64_MAX
      && 0 <= pendingActivationLocked <= U64_MAX
      && 0 <= pendingRewards <= U64_MAX
      && 0 <= rewardDust <= U64_MAX
      && 0 <= rewardIndex < WRAP
      && 0 <= rewardIndexGeneration < GENERATIONS
      && CountersFit()
    }

    predicate CountersFit() {
      && 0 <= totalRewardsFunded <= U64_MAX
      && 0 <= totalRewardsDistributed <= U64_MAX
      && 0 <= totalRewardsClaimed <= U64_MAX
      && 0 <= totalPenaltiesCollected <= U64_MAX
      && 0 <= totalBurned <= U64_MAX
      && 0 <= totalRewardsExpired <= U64_MAX
    }
  }

  datatype Position = Position(
    lockedAmount: int,
    eligibleAmount: int,
    warmingAmount: int,
    pendingActivationAmount: int,
    warmingEpoch: int,
    pendingRewards: int,
    rewardIndexCheckpoint: int,
    rewardIndexGenerationCheckpoint: int,
    rewardAccrualRemainder: int,
    unlockTs: int,
    activationTs: int,
    penaltyRemainder: int,
    burnRemainder: int,
    totalRewardsClaimed: int)
  {
    /** The unwrapped index at which this position was last settled. */
    function Checkpoint(): int {
      rewardIndexGenerationCheckpoint * WRAP + rewardIndexCheckpoint
    }

    predicate Fits() {
      && 0 <= lockedAmount <= U64_MAX
      && 0 <= eligibleAmount <= U64_MAX
      && 0 <= warmingAmount <= U64_MAX
      && 0 <= pendingActivationAmount <= U64_MAX
      && 0 <= warmingEpoch <= U64_MAX
      && 0 <= pendingRewards <= U64_MAX
      && 0 <= rewardIndexCheckpoint < WRAP
      && 0 <= rewardIndexGenerationCheckpoint < GENERATIONS
      && 0 <= rewardAccrualRemainder < SCALE
      && I64_MIN <= unlockTs <= I64_MAX
      && I64_MIN <= activationTs <= I64_MAX
      && 0 <= penaltyRemainder < BPS
      && 0 <= burnRemainder < BPS
      && 0 <= totalRewardsClaimed <= U64_MAX
    }
  }

  /** What a deposit writes into a position account that holds no data yet. */
  function Blank(c: Config): Position {
    Position(0, 0, 0, 0, 0, 0, c.rewardIndex, c.rewardIndexGeneration, 0, 0, 0, 0, 0, 0)
  }

  datatype Account = Vault | Pool | Wallet(key: Key)

  /** Balances of the one mint: the two custody accounts, one wallet per key, and what was burned. */
  datatype Tokens = Tokens(vault: int, pool: int, wallets: map<Key, int>, burned: int)
  {
    function Balance(a: Account): int {
      match a
      case Vault => vault
      case Pool => pool
      case Wallet(k) => if k in wallets then wallets[k] else 0
    }

    function Shift(a: Account, d: int): Tokens {
      if d == 0 then this else
      match a
      case Vault => this.(vault := vault + d)
      case Pool => this.(pool := pool + d)
      case Wallet(k) => this.(wallets := wallets[k := Balance(a) + d])
    }

    function Move(from: Account, to: Account, amount: int): Tokens {
      Shift(from, -amount).Shift(to, amount)
    }

    function Burn(from: Account, amount: int): Tokens {
      var t := Shift(from, -amount);
      t.(burned := t.burned + amount)
    }

    /** The token program's transfer and burn: they fail when the source is short. */
    function Transfer(from: Account, to: Account, amount: int): Result<Tokens> {
      if Balance(from) < amount then Failure(TokenFailure) else Success(Move(from, to, amount))
    }

    function BurnFrom(from: Account, amount: int): Result<Tokens> {
      if Balance(from) < amount then Failure(TokenFailure) else Success(Burn(from, amount))
    }
  }

  datatype World = World(config: Config, positions: map<Key, Position>, tokens: Tokens)
  {
    /** The stored position of an owner, or the one a first deposit would create. */
    function Lookup(owner: Key): Position {
      if owner in positions then positions[owner] else Blank(config)
    }
  }
}
