/** The arena: the stored accounts, and the instructions that load, change and store them. */
module Arenas {
  import opened Checked
  import opened State
  import opened Spec
  import opened Safety
  import opened Preservation
  import opened RewardIndex
  import opened Accounts
  import opened Program

  /** The result and the next state are exactly those of one specification step. */
  predicate Performs(w: World, call: Call, r: Result<()>, w': World) {
    match Step(w, call)
    case Success(o) => r == Success(()) && w' == o.world
    case Failure(e) => r == Failure(e) && w' == w
  }

  /** So an arena that starts safe stays safe through every instruction. */
  lemma PerformsKeepsSafe(w: World, call: Call, r: Result<()>, w': World)
    requires Safe(w) && CallOk(call) && Performs(w, call, r, w')
    ensures Safe(w')
  {
    StepKeeps(w, call);
  }

  /** Stored records decode, and balances are not negative. */
  predicate Stored(w: World) {
    && w.config.Fits()
    && (forall o <- w.positions :: w.positions[o].Fits())
    && 0 <= w.tokens.pool
  }

  lemma SafeTouchFits(w: World, owner: Key)
    requires Safe(w)
    ensures TouchFits(w.config, w.Lookup(owner))
  {
    LookupOk(w, owner);
    TouchOk(w, owner);
    TouchKeepsLiability(w.config, w.Lookup(owner));
    SupplyBound(w.tokens, owner);
  }

  lemma SafeCoverable(w: World, owner: Key, amount: nat, now: int)
    requires Safe(w) && 0 < amount <= w.Lookup(owner).lockedAmount
    ensures Coverable(w.config, w.Lookup(owner), w.tokens, amount, now)
  {
    SafeTouchFits(w, owner);
    TouchOk(w, owner);
    TouchedBacked(w, owner);
    ExitBounds(TouchedConfig(w.config, w.Lookup(owner)), TouchedPosition(w.config, w.Lookup(owner)), amount, now);
  }

  lemma WithdrawPerforms(w: World, owner: Key, amount: nat, now: int)
    requires 0 < amount <= w.Lookup(owner).lockedAmount && owner in w.positions
    ensures
      var c1, p1 := TouchedConfig(w.config, w.Lookup(owner)), TouchedPosition(w.config, w.Lookup(owner));
      var e := ExitOf(c1, p1, amount, now);
      if InReach(w.config, w.Lookup(owner)) && RoomFor(c1, e.reward, e.base)
      then Performs(w, Withdraw(owner, amount, now), Success(()),
                    World(ExitConfig(c1, p1, amount, e), w.positions[owner := ExitPosition(p1, amount, e)],
                          ExitTokens(w.tokens, owner, amount, e)))
      else Performs(w, Withdraw(owner, amount, now), Failure(MathOverflow), w)
  {}

  lemma SafeDepositable(w: World, owner: Key, amount: u64)
    requires Safe(w) && amount <= w.tokens.Balance(Wallet(owner))
    ensures Depositable(w.config, w.Lookup(owner), amount)
  {
    SafeTouchFits(w, owner);
    TouchOk(w, owner);
    TouchedBacked(w, owner);
    SupplyBound(w.tokens, owner);
  }

  lemma DepositPerforms(w: World, owner: Key, amount: nat, now: int)
    requires w.config.policy.minDepositAmount <= amount <= w.tokens.Balance(Wallet(owner))
    ensures
      var c1, p1 := TouchedConfig(w.config, w.Lookup(owner)), TouchedPosition(w.config, w.Lookup(owner));
      if InReach(w.config, w.Lookup(owner)) && now + w.config.policy.minLockSeconds <= I64_MAX
      then Performs(w, Deposit(owner, amount, now), Success(()),
                    World(DepositedConfig(c1, amount),
                          w.positions[owner := DepositedPosition(w.config.policy, p1, amount, now)],
                          w.tokens.Move(Wallet(owner), Vault, amount)))
      else Performs(w, Deposit(owner, amount, now), Failure(MathOverflow), w)
  {}

  lemma SafeActivatable(w: World, owner: Key)
    requires Safe(w)
    ensures Activatable(w.config, w.Lookup(owner))
  {
    LookupOk(w, owner);
    SafeTouchFits(w, owner);
    TouchOk(w, owner);
    TouchedBacked(w, owner);
  }

  lemma ActivatePerforms(w: World, owner: Key, now: int)
    requires owner in w.positions
    ensures
      var c, p := w.config, w.positions[owner];
      var c1, p1 := TouchedConfig(c, p), TouchedPosition(c, p);
      if WarmingReady(c, p) && !InReach(c, p) then Performs(w, Activate(owner, now), Failure(MathOverflow), w)
      else if p.lockedAmount == 0 then Performs(w, Activate(owner, now), Failure(InvalidAmount), w)
      else if p.pendingActivationAmount > 0 && now < p.activationTs
      then Performs(w, Activate(owner, now), Failure(ActivationNotReady), w)
      else if !InReach(c, p) then Performs(w, Activate(owner, now), Failure(MathOverflow), w)
      else Performs(w, Activate(owner, now), Success(()),
                    World(ActivatedConfig(c1, p1), w.positions[owner := ActivatedPosition(c1, p1)], w.tokens))
  {}

  lemma ClaimPerforms(w: World, owner: Key)
    requires owner in w.positions && w.positions[owner].lockedAmount > 0
    ensures
      var c, p := w.config, w.positions[owner];
      var c1, p1 := TouchedConfig(c, p), TouchedPosition(c, p);
      if !InReach(c, p) then Performs(w, Claim(owner), Failure(MathOverflow), w)
      else if p1.pendingRewards == 0 && !WarmingReady(c, p) then Performs(w, Claim(owner), Failure(NoRewards), w)
      else Performs(w, Claim(owner), Success(()),
                    World(PaidConfig(c1, p1.pendingRewards), w.positions[owner := PaidPosition(p1, p1.pendingRewards)],
                          w.tokens.Move(Pool, Wallet(owner), p1.pendingRewards)))
  {}

  class Arena {
    var config: Config
    var positions: map<Key, Position>
    var tokens: Tokens

    function World(): World
      reads this
    {
      State.World(config, positions, tokens)
    }

    predicate Valid()
      reads this
    {
      Stored(World())
    }

    constructor (c: Config, t: Tokens)
      requires c.Fits() && 0 <= t.pool
      ensures Valid()
      ensures World() == State.World(c, map[], t)
    {
      config, positions, tokens := c, map[], t;
    }

    static method InitializeConfig(policy: Policy, now: i64, tokens: Tokens) returns (r: Result<()>, arena: Arena?)
      requires 0 <= tokens.pool
      ensures match Initialized(policy, now, tokens)
        case Success(w) => r == Success(()) && arena != null && fresh(arena) && arena.Valid() && arena.World() == w
        case Failure(e) => r == Failure(e) && arena == null
      ensures r.Success? ==> arena != null && arena.config.createdTs == arena.config.lastEpochTs == now
    {
      var lock := AssertLockPolicy(policy.minLockSeconds, policy.activationDelaySeconds, policy.epochSeconds);
      if lock.Failure? {
        return lock, null;
      }
      if policy.minDepositAmount == 0 {
        return Failure(InvalidAmount), null;
      }
      if policy.earlyExitPenaltyBps > MAX_EARLY_EXIT_PENALTY_BPS {
        return Failure(InvalidPenalty), null;
      }
      if policy.burnPenaltyBps > policy.earlyExitPenaltyBps {
        return Failure(InvalidBurn), null;
      }
      if policy.earlyExitPenaltyBps > 0 && policy.minDepositAmount * policy.earlyExitPenaltyBps < BPS {
        return Failure(InvalidPenalty), null;
      }
      if policy.burnPenaltyBps > 0 && policy.minDepositAmount * policy.burnPenaltyBps < BPS {
        return Failure(InvalidBurn), null;
      }
      arena := new Arena(Config(policy, now, now, 0, 0, 0, 0, 0, 0, 0, 0, 0, 0, 0, 0, 0, 0, 0), tokens);
      return Success(()), arena;
    }

    method Withdraw(owner: Key, amount: u64, now: i64) returns (r: Result<()>)
      requires Valid()
      modifies this
      ensures Valid()
      ensures r.Failure? ==> World() == old(World())
      ensures Safe(old(World())) ==> Performs(old(World()), Call.Withdraw(owner, amount, now), r, World())
    {
      ghost var w := World();
      if Safe(w) {
        if 0 < amount <= w.Lookup(owner).lockedAmount {
          SafeCoverable(w, owner, amount, now);
          WithdrawPerforms(w, owner, amount, now);
        }
      }
      if amount == 0 {
        return Failure(InvalidAmount);
      }
      if owner !in positions {
        return Failure(NotInitialized);
      }
      var arenaConfig := new ArenaConfig.Load(config);
      var position := new ArenaPosition.Load(positions[owner]);
      if amount > position.lockedAmount {
        return Failure(InsufficientPositionBalance);
      }
      var moved := WithdrawFrom(arenaConfig, position, tokens, owner, amount, now);
      if moved.Failure? {
        return Failure(moved.error);
      }
      config, positions, tokens := arenaConfig.Value(), positions[owner := position.Value()], moved.value;
      return Success(());
    }

    method Deposit(owner: Key, amount: u64, now: i64) returns (r: Result<()>)
      requires Valid()
      modifies this
      ensures Valid()
      ensures r.Failure? ==> World() == old(World())
      ensures r.Success? ==> config.policy.minDepositAmount <= amount
      ensures Safe(old(World())) ==> Performs(old(World()), Call.Deposit(owner, amount, now), r, World())
    {
      ghost var w := World();
      if config.policy.minDepositAmount <= amount <= w.tokens.Balance(Wallet(owner)) {
        DepositPerforms(w, owner, amount, now);
        if Safe(w) {
          SafeDepositable(w, owner, amount);
        }
      }
      if amount < config.policy.minDepositAmount {
        return Failure(InvalidAmount);
      }
      var moved :- tokens.Transfer(Wallet(owner), Vault, amount);
      var arenaConfig := new ArenaConfig.Load(config);
      var stored := if owner in positions then Some(positions[owner]) else None;
      assert w.Lookup(owner) == if stored.Some? then stored.value else Blank(w.config);
      var position := DepositInto(arenaConfig, stored, amount, now);
      if position.Failure? {
        return Failure(position.error);
      }
      config, positions, tokens := arenaConfig.Value(), positions[owner := position.value], moved;
      return Success(());
    }

    method ActivatePosition(owner: Key, now: i64) returns (r: Result<()>)
      requires Valid()
      modifies this
      ensures Valid()
      ensures r.Failure? ==> World() == old(World())
      ensures Safe(old(World())) ==> Performs(old(World()), Activate(owner, now), r, World())
    {
      ghost var w := World();
      if Safe(w) {
        SafeActivatable(w, owner);
        if owner in positions {
          ActivatePerforms(w, owner, now);
        }
      }
      if owner !in positions {
        return Failure(NotInitialized);
      }
      var arenaConfig := new ArenaConfig.Load(config);
      var position := new ArenaPosition.Load(positions[owner]);
      var _ :- ActivateIn(arenaConfig, position, now);
      config, positions := arenaConfig.Value(), positions[owner := position.Value()];
      return Success(());
    }

    method ClaimRewards(owner: Key) returns (r: Result<()>)
      requires Valid()
      modifies this
      ensures Valid()
      ensures r.Failure? ==> World() == old(World())
      ensures Safe(old(World())) ==> Performs(old(World()), Claim(owner), r, World())
    {
      ghost var w := World();
      if owner in positions && positions[owner].lockedAmount > 0 {
        ClaimPerforms(w, owner);
        if Safe(w) {
          SafeTouchFits(w, owner);
          TouchOk(w, owner);
        }
      }
      if owner !in positions {
        return Failure(NotInitialized);
      }
      var arenaConfig := new ArenaConfig.Load(config);
      var position := new ArenaPosition.Load(positions[owner]);
      if position.lockedAmount == 0 {
        return Failure(InsufficientPositionBalance);
      }
      var paid := ClaimFrom(arenaConfig, position, tokens, owner);
      if paid.Failure? {
        return Failure(paid.error);
      }
      config, positions, tokens := arenaConfig.Value(), positions[owner := position.Value()], paid.value;
      return Success(());
    }

    /** FundRewards passes no expectation; FundRewardsChecked passes the base and latest epoch it expects. */
    method FundRewards(funder: Key, amount: u64, expected: Option<(nat, nat)>) returns (r: Result<()>)
      requires Valid()
      modifies this
      ensures Valid()
      ensures Performs(old(World()), Fund(funder, amount, expected), r, World())
    {
      var arenaConfig := new ArenaConfig.Load(config);
      var moved := FundInto(arenaConfig, tokens, funder, amount, expected);
      if moved.Failure? {
        return Failure(moved.error);
      }
      config, tokens := arenaConfig.Value(), moved.value;
      return Success(());
    }

    method RollEpoch(now: i64) returns (r: Result<()>)
      requires Valid()
      modifies this
      ensures Valid()
      ensures r.Failure? ==> World() == old(World())
      ensures Safe(old(World())) ==> Performs(old(World()), Roll(now), r, World())
    {
      ghost var w := World();
      if Safe(w) {
        if w.config.lastEpochTs + w.config.policy.epochSeconds <= I64_MAX {
          EpochFits(w.config);
        }
      }
      var arenaConfig := new ArenaConfig.Load(config);
      var nextEpochTs :- CheckedAddI64(arenaConfig.lastEpochTs, arenaConfig.policy.epochSeconds);
      if now < nextEpochTs {
        return Failure(EpochNotReady);
      }
      var epoch :- CheckedAdd64(arenaConfig.currentEpoch, 1);
      arenaConfig.currentEpoch := epoch;
      arenaConfig.lastEpochTs := nextEpochTs;
      config := arenaConfig.Value();
      return Success(());
    }

    method FinalizeRewards() returns (r: Result<()>)
      requires Valid()
      modifies this
      ensures Valid()
      ensures r.Failure? ==> World() == old(World())
      ensures Safe(old(World())) ==> Performs(old(World()), Finalize, r, World())
    {
      var arenaConfig := new ArenaConfig.Load(config);
      var moved := FinalizeIn(arenaConfig, tokens);
      if moved.Failure? {
        return Failure(moved.error);
      }
      config, tokens := arenaConfig.Value(), moved.value;
      return Success(());
    }

    /** A transfer that bypasses the program: it moves balances and touches no record. */
    method SendTokens(sender: Key, to: Account, amount: u64) returns (r: Result<()>)
      requires Valid()
      modifies this`tokens
      ensures Valid()
      ensures r.Failure? ==> World() == old(World())
      ensures Safe(old(World())) ==> Performs(old(World()), Send(sender, to, amount), r, World())
    {
      var moved :- tokens.Transfer(Wallet(sender), to, amount);
      tokens := moved;
      return Success(());
    }
  }
}
