/**
 The condition in exit liveness is not idle: a run from initialization that circulates nearly the
 whole supply through funding and claiming leaves an idle position's withdrawal failing for good.
 */
module LeftBehindRun {
  import opened Checked
  import opened State
  import opened Spec
  import opened Safety
  import opened Preservation
  import opened Liveness
  import opened MapSum

  const ACTIVE: Key := 1
  const IDLE: Key := 2
  const STAKE: nat := U64_MAX - 2

  const POLICY: Policy := Policy(3, 1, 1, 1, 0, 0)

  function ConfigAt(total: nat, eligible: nat, warming: nat, pending: nat, epoch: nat): Config {
    Config(POLICY, 0, epoch, epoch, total, eligible, warming, pending, 0, 0, 0, 0, 0, 0, 0, 0, 0, 0)
  }

  function Start(): World {
    World(ConfigAt(0, 0, 0, 0, 0), map[], Tokens(0, 0, map[][ACTIVE := STAKE + 1][IDLE := 1], 0))
  }

  lemma StartIsGenesis()
    ensures Genesis(Start())
  {
    var none: map<Key, int> := map[];
    assert Sum(none, Units()) == 0;
    SumUpdate(none, ACTIVE, STAKE + 1, Units());
    SumUpdate(none[ACTIVE := STAKE + 1], IDLE, 1, Units());
    assert GenesisAt(Start(), 0);
  }

  // ---- One owner becomes eligible, the other stays idle ----

  function Opened(eligible: int, warming: int, pending: int): Position {
    Position(1, eligible, warming, pending, 0, 0, 0, 0, 0, 3, 1, 0, 0, 0)
  }

  function Deposited1(): World {
    World(ConfigAt(1, 0, 0, 1, 0), map[][ACTIVE := Opened(0, 0, 1)],
          Start().tokens.Move(Wallet(ACTIVE), Vault, 1))
  }

  function Deposited2(): World {
    World(ConfigAt(2, 0, 0, 2, 0), Deposited1().positions[IDLE := Opened(0, 0, 1)],
          Deposited1().tokens.Move(Wallet(IDLE), Vault, 1))
  }

  function Activated(): World {
    World(ConfigAt(2, 0, 1, 1, 0), Deposited2().positions[ACTIVE := Opened(0, 1, 0)], Deposited2().tokens)
  }

  function Rolled(): World {
    World(ConfigAt(2, 0, 1, 1, 1), Activated().positions, Activated().tokens)
  }

  function Promoted(): World {
    World(ConfigAt(2, 1, 0, 1, 1), Activated().positions[ACTIVE := Opened(1, 0, 0)], Activated().tokens)
  }

  lemma Deposits()
    ensures After(Start(), Deposit(ACTIVE, 1, 0)) == Deposited1()
    ensures After(Deposited1(), Deposit(IDLE, 1, 0)) == Deposited2()
  {
    SettledAlready(Start().config, Start().Lookup(ACTIVE));
    SettledAlready(Deposited1().config, Deposited1().Lookup(IDLE));
  }

  lemma Maturing()
    ensures After(Deposited2(), Activate(ACTIVE, 1)) == Activated()
    ensures After(Activated(), Roll(1)) == Rolled()
  {
    SettledAlready(Deposited2().config, Deposited2().Lookup(ACTIVE));
  }

  lemma PromotesActive(w: World)
    requires w.config == ConfigAt(2, 0, 1, 1, 1)
    requires ACTIVE in w.positions && w.positions[ACTIVE] == Opened(0, 1, 0)
    ensures After(w, Activate(ACTIVE, 1))
         == World(ConfigAt(2, 1, 0, 1, 1), w.positions[ACTIVE := Opened(1, 0, 0)], w.tokens)
  {
    SettledAlready(w.config, w.positions[ACTIVE]);
  }

  lemma Promoting()
    ensures After(Rolled(), Activate(ACTIVE, 1)) == Promoted()
  {
    var w := Rolled();
    assert w.config == ConfigAt(2, 0, 1, 1, 1);
    assert ACTIVE in w.positions && w.positions[ACTIVE] == Opened(0, 1, 0);
    PromotesActive(w);
  }

  /** The state one cycle of funding and claiming starts and ends in. */
  predicate Ready(w: World, index: nat) {
    && w.config.Index() == index
    && w.config.eligibleLocked == 1
    && ACTIVE in w.positions && IDLE in w.positions
    && Settled(w.positions[ACTIVE], index)
    && w.positions[IDLE].lockedAmount == 1 && w.positions[IDLE].eligibleAmount == 0
    && w.positions[IDLE].Checkpoint() == 0
    && w.tokens.Balance(Wallet(ACTIVE)) == STAKE
  }

  predicate Settled(p: Position, index: int) {
    && p.lockedAmount == p.eligibleAmount == 1
    && p.warmingAmount == p.pendingRewards == p.rewardAccrualRemainder == 0
    && p.Checkpoint() == index
  }

  // ---- Circulating the active owner's balance ----

  const STEP: nat := STAKE * SCALE

  lemma FundStepReady(w: World, index: nat)
    requires Ready(w, index) && index + STEP < GENERATIONS * WRAP
    ensures var w' := After(w, Fund(ACTIVE, STAKE, None));
      && w'.config.Index() == index + STEP
      && w'.config.eligibleLocked == 1
      && w'.positions == w.positions
      && w'.tokens.Balance(Wallet(ACTIVE)) == 0
  {
    assert BatchDelta(STAKE, 1) == STEP;
  }

  lemma ClaimStepReady(w: World, index: nat)
    requires w.config.Index() == index + STEP && w.config.eligibleLocked == 1
    requires ACTIVE in w.positions && IDLE in w.positions && Settled(w.positions[ACTIVE], index)
    requires w.positions[IDLE].lockedAmount == 1 && w.positions[IDLE].eligibleAmount == 0
    requires w.positions[IDLE].Checkpoint() == 0 && w.tokens.Balance(Wallet(ACTIVE)) == 0
    ensures Ready(After(w, Claim(ACTIVE)), index + STEP)
  {
    var p := w.positions[ACTIVE];
    assert Liability(p, index + STEP) == STEP;
    assert Settle(w.config, p).pendingRewards == STAKE && Settle(w.config, p).rewardAccrualRemainder == 0;
  }

  function Setup(): seq<Call> {
    [] + [Deposit(ACTIVE, 1, 0)] + [Deposit(IDLE, 1, 0)] + [Activate(ACTIVE, 1)] + [Roll(1)] + [Activate(ACTIVE, 1)]
  }

  /** A setup followed by n rounds of funding the whole balance and claiming it back. */
  function Cycles(setup: seq<Call>, n: nat): seq<Call> {
    if n == 0 then setup else Cycles(setup, n - 1) + [Fund(ACTIVE, STAKE, None)] + [Claim(ACTIVE)]
  }

  lemma RunOneMore(w: World, calls: seq<Call>, call: Call)
    ensures Run(w, calls + [call]) == After(Run(w, calls), call)
  {
    var all := calls + [call];
    assert all[..|all| - 1] == calls;
  }

  lemma SetupRuns()
    ensures Run(Start(), Setup()) == Promoted()
  {
    Deposits();
    Maturing();
    Promoting();
    var calls: seq<Call> := [];
    RunOneMore(Start(), calls, Deposit(ACTIVE, 1, 0));
    calls := calls + [Deposit(ACTIVE, 1, 0)];
    RunOneMore(Start(), calls, Deposit(IDLE, 1, 0));
    calls := calls + [Deposit(IDLE, 1, 0)];
    RunOneMore(Start(), calls, Activate(ACTIVE, 1));
    calls := calls + [Activate(ACTIVE, 1)];
    RunOneMore(Start(), calls, Roll(1));
    calls := calls + [Roll(1)];
    RunOneMore(Start(), calls, Activate(ACTIVE, 1));
  }

  lemma {:induction false} CyclesOk(setup: seq<Call>, n: nat)
    requires CallsOk(setup)
    ensures CallsOk(Cycles(setup, n))
  {
    if n > 0 {
      CyclesOk(setup, n - 1);
    }
  }

  lemma DepositBalances(t: Tokens)
    requires t.Balance(Wallet(ACTIVE)) == STAKE + 1
    ensures t.Move(Wallet(ACTIVE), Vault, 1).Move(Wallet(IDLE), Vault, 1).Balance(Wallet(ACTIVE)) == STAKE
  {}

  lemma ReadyRecords(w: World)
    requires w.config == ConfigAt(2, 1, 0, 1, 1) && w.tokens.Balance(Wallet(ACTIVE)) == STAKE
    requires ACTIVE in w.positions && w.positions[ACTIVE] == Opened(1, 0, 0)
    requires IDLE in w.positions && w.positions[IDLE] == Opened(0, 0, 1)
    ensures Ready(w, 0)
  {}

  lemma StartBalance(t: Tokens, rest: map<Key, int>)
    requires t.wallets == rest[ACTIVE := STAKE + 1][IDLE := 1]
    ensures t.Balance(Wallet(ACTIVE)) == STAKE + 1
  {}

  lemma PromotedReadyFrom(w: World, t: Tokens, m: map<Key, Position>)
    requires t.Balance(Wallet(ACTIVE)) == STAKE + 1
    requires w.tokens == t.Move(Wallet(ACTIVE), Vault, 1).Move(Wallet(IDLE), Vault, 1)
    requires w.config == ConfigAt(2, 1, 0, 1, 1)
    requires w.positions == m[IDLE := Opened(0, 0, 1)][ACTIVE := Opened(0, 1, 0)][ACTIVE := Opened(1, 0, 0)]
    ensures Ready(w, 0)
  {
    DepositBalances(t);
    ReadyRecords(w);
  }

  lemma PromotedReady()
    ensures Ready(Promoted(), 0)
  {
    StartBalance(Start().tokens, map[]);
    PromotedReadyFrom(Promoted(), Start().tokens, Deposited1().positions);
  }

  lemma OneCycle(w: World, index: nat)
    requires Ready(w, index) && index + STEP < GENERATIONS * WRAP
    ensures Ready(After(After(w, Fund(ACTIVE, STAKE, None)), Claim(ACTIVE)), index + STEP)
  {
    FundStepReady(w, index);
    ClaimStepReady(After(w, Fund(ACTIVE, STAKE, None)), index);
  }

  function Cycled(w: World, n: nat): World {
    if n == 0 then w else After(After(Cycled(w, n - 1), Fund(ACTIVE, STAKE, None)), Claim(ACTIVE))
  }

  lemma {:induction false} RunCycled(w: World, setup: seq<Call>, n: nat)
    ensures Run(w, Cycles(setup, n)) == Cycled(Run(w, setup), n)
  {
    if n > 0 {
      var before := Cycles(setup, n - 1);
      RunCycled(w, setup, n - 1);
      RunOneMore(w, before, Fund(ACTIVE, STAKE, None));
      RunOneMore(w, before + [Fund(ACTIVE, STAKE, None)], Claim(ACTIVE));
    }
  }

  lemma {:induction false} CycledReady(w: World, n: nat)
    requires Ready(w, 0) && n * STEP < GENERATIONS * WRAP
    ensures Ready(Cycled(w, n), n * STEP)
  {
    if n > 0 {
      CycledReady(w, n - 1);
      OneCycle(Cycled(w, n - 1), (n - 1) * STEP);
    }
  }

  /** A ready run with enough cycles leaves the idle owner's withdrawal failing at every clock reading. */
  lemma CyclesLeaveBehind(w: World, setup: seq<Call>, n: nat, now: int)
    requires Ready(Run(w, setup), 0) && WRAP <= n * STEP < GENERATIONS * WRAP
    ensures var w' := Run(w, Cycles(setup, n));
      && LeftBehind(w', IDLE) && w'.Lookup(IDLE).lockedAmount == 1
      && Step(w', Withdraw(IDLE, 1, now)) == Failure(MathOverflow)
  {
    RunCycled(w, setup, n);
    CycledReady(Run(w, setup), n);
  }

  /** Initialization, two deposits of one unit and one maturity make a run ready. */
  lemma ReadyFromGenesis()
    ensures Genesis(Start()) && CallsOk(Setup()) && Ready(Run(Start(), Setup()), 0)
  {
    StartIsGenesis();
    SetupRuns();
    PromotedReady();
  }

  const CYCLES: nat := 19

  /** So in one reachable state a withdrawal of stake that is there fails at every clock reading. */
  lemma IdleOwnerStuck(now: int)
    ensures Genesis(Start()) && CallsOk(Cycles(Setup(), CYCLES))
    ensures var w' := Run(Start(), Cycles(Setup(), CYCLES));
      && LeftBehind(w', IDLE) && w'.Lookup(IDLE).lockedAmount == 1
      && Step(w', Withdraw(IDLE, 1, now)) == Failure(MathOverflow)
  {
    ReadyFromGenesis();
    CyclesOk(Setup(), CYCLES);
    CyclesLeaveBehind(Start(), Setup(), CYCLES, now);
  }
}
