/** What the books and the invariant mean for owners, funders and the final burn. */
module Consequences {
  import opened Checked
  import opened State
  import opened Spec
  import opened Safety
  import opened Preservation
  import opened Ledger
  import opened Laws
  import opened MapSum

  /** Tokens an owner can still take: the whole tokens in its liability. */
  function Claimable(w: World, owner: Key): int {
    Liability(w.Lookup(owner), w.config.Index()) / SCALE
  }

  /**
   Payouts plus what is claimable are the eager credit rounded down once, however often the owner
   claimed: rounding costs less than one raw unit apart from the fractions dropped at full exits.
   */
  lemma RoundedOnce(w: World, calls: seq<Call>, owner: Key)
    requires Fresh(w) && CallsOk(calls)
    ensures var b := Books(w, calls);
      Get(b.paid, owner) + Claimable(Run(w, calls), owner)
      == (Get(b.credited, owner) - Get(b.dropped, owner)) / SCALE
  {
    var w', b := Run(w, calls), Books(w, calls);
    LazyRefinesEager(w, calls, owner);
    DivideShifted(Get(b.paid, owner), Liability(w'.Lookup(owner), w'.config.Index()));
  }

  lemma DivideShifted(whole: int, n: int)
    ensures (n + whole * SCALE) / SCALE == n / SCALE + whole
  {}

  /** The claimed counter never passes the distributed counter, saturated or not. */
  lemma TelemetryOrder(w: World, calls: seq<Call>)
    requires Fresh(w) && CallsOk(calls)
    ensures Run(w, calls).config.totalRewardsClaimed <= Run(w, calls).config.totalRewardsDistributed
  {
    RunReconciled(w, calls);
    RunSafe(w, calls);
    OwedNonNegative(Run(w, calls));
  }

  /**
   With no donation, once all stake has left the surplus is below the batch denominators plus one
   token per full exit, and funding is accounted for to the last token.
   */
  lemma SurplusBound(w: World, calls: seq<Call>)
    requires Fresh(w) && CallsOk(calls)
    requires Run(w, calls).config.totalLocked == 0
    requires Books(w, calls).donated == 0 && Books(w, calls).exits > 0
    ensures var w', b := Run(w, calls), Books(w, calls);
      && w'.tokens.pool * SCALE < b.denominators + b.exits * SCALE
      && b.funded + b.redistributed == b.claimed + b.expired + w'.tokens.pool
  {
    RunSafe(w, calls);
    RunReconciled(w, calls);
    NothingOwed(Run(w, calls));
  }

  /** Finalization is accepted exactly when no stake is left, and then burns only the dust. */
  lemma FinalizeBurnsDust(w: World, calls: seq<Call>)
    requires Fresh(w) && CallsOk(calls)
    ensures var w', b := Run(w, calls), Books(w, calls);
      && (Step(w', Finalize).Success? <==> w'.config.totalLocked == 0)
      && (Step(w', Finalize).Success? ==>
        && (forall o <- w'.positions :: Liability(w'.positions[o], w'.config.Index()) == 0)
        && After(w', Finalize).tokens.burned - w'.tokens.burned == w'.tokens.pool
        && w'.tokens.pool * SCALE == b.dust
        && After(w', Finalize).positions == w'.positions)
  {
    RunSafe(w, calls);
    RunReconciled(w, calls);
    if Step(Run(w, calls), Finalize).Success? {
      NothingOwed(Run(w, calls));
    }
  }

  lemma OwnPaid(w: World, call: Call, owner: Key)
    requires Safe(w) && CallOk(call) && Step(w, call).Success?
    requires (call.Deposit? || call.Activate? || call.Claim? || call.Withdraw?) && call.owner == owner
    ensures After(w, call).Lookup(owner).totalRewardsClaimed
         == SatAdd(w.Lookup(owner).totalRewardsClaimed, PaidTo(w, call, owner))
  {
    StepLawful(w, call);
  }

  lemma OthersUnpaid(w: World, call: Call, owner: Key)
    requires (call.Deposit? || call.Activate? || call.Claim? || call.Withdraw?) ==> call.owner != owner
    ensures After(w, call).Lookup(owner).totalRewardsClaimed == w.Lookup(owner).totalRewardsClaimed
    ensures PaidTo(w, call, owner) == 0
  {}

  lemma PaidCounterSteps(w: World, call: Call, owner: Key)
    requires Safe(w) && CallOk(call)
    ensures 0 <= PaidTo(w, call, owner)
    ensures After(w, call).Lookup(owner).totalRewardsClaimed
         == SatAdd(w.Lookup(owner).totalRewardsClaimed, PaidTo(w, call, owner))
  {
    LookupOk(w, owner);
    if (call.Deposit? || call.Activate? || call.Claim? || call.Withdraw?) && call.owner == owner {
      if Step(w, call).Success? {
        IndexFlow(w, call);
        OwnPaid(w, call, owner);
      }
    } else {
      OthersUnpaid(w, call, owner);
    }
  }

  /** A position's claimed counter is what its owner was paid, stopped at the top of 64 bits. */
  lemma {:induction false} PaidCounter(w: World, calls: seq<Call>, owner: Key)
    requires Fresh(w) && CallsOk(calls)
    ensures Counts(Run(w, calls).Lookup(owner).totalRewardsClaimed, Get(Books(w, calls).paid, owner))
  {
    if calls != [] {
      var n := |calls| - 1;
      RunSafe(w, calls[..n]);
      PaidCounter(w, calls[..n], owner);
      PaidCounterSteps(Run(w, calls[..n]), calls[n], owner);
      RecordPaid(Books(w, calls[..n]), Run(w, calls[..n]), calls[n], owner);
    }
  }

  // ---- Conservation of tokens ----

  lemma StepConserves(w: World, call: Call)
    requires Safe(w) && CallOk(call)
    ensures Circulating(After(w, call).tokens) + After(w, call).tokens.burned
         == Circulating(w.tokens) + w.tokens.burned
  {
    if Step(w, call).Success? {
      match call
      case Deposit(owner, amount, _) => MoveCirculating(w.tokens, Wallet(owner), Vault, amount);
      case Fund(funder, amount, _) => MoveCirculating(w.tokens, Wallet(funder), Pool, amount);
      case Claim(owner) => MoveCirculating(w.tokens, Pool, Wallet(owner), Step(w, call).value.paid);
      case Withdraw(owner, amount, now) => WithdrawConserves(w, owner, amount, now);
      case Finalize => ShiftCirculating(w.tokens, Pool, -w.tokens.pool);
      case Send(sender, to, amount) => MoveCirculating(w.tokens, Wallet(sender), to, amount);
      case _ =>
    }
  }

  lemma WithdrawConserves(w: World, owner: Key, amount: nat, now: int)
    requires Safe(w) && WithdrawStep(w, owner, amount, now).Success?
    ensures var t := WithdrawStep(w, owner, amount, now).value.world.tokens;
      Circulating(t) + t.burned == Circulating(w.tokens) + w.tokens.burned
  {
    var p := w.Lookup(owner);
    var c1, p1 := TouchedConfig(w.config, p), TouchedPosition(w.config, p);
    TouchOk(w, owner);
    TouchedBacked(w, owner);
    ExitBounds(c1, p1, amount, now);
    ExitTokensOk(w.tokens, owner, amount, ExitOf(c1, p1, amount, now));
  }

  /** No run creates or loses a token: wallets, vault, pool and burned always add up. */
  lemma {:induction false} RunConserves(w: World, calls: seq<Call>)
    requires Safe(w) && CallsOk(calls)
    ensures Circulating(Run(w, calls).tokens) + Run(w, calls).tokens.burned
         == Circulating(w.tokens) + w.tokens.burned
  {
    if calls != [] {
      var n := |calls| - 1;
      RunSafe(w, calls[..n]);
      RunConserves(w, calls[..n]);
      StepConserves(Run(w, calls[..n]), calls[n]);
    }
  }

  /** A withdrawal splits its amount exactly: returned, redistributed and burned. */
  lemma WithdrawSplitsAmount(w: World, owner: Key, amount: nat, now: int)
    requires Safe(w) && WithdrawStep(w, owner, amount, now).Success?
    ensures var o := WithdrawStep(w, owner, amount, now).value;
      var burned := o.world.tokens.burned - w.tokens.burned;
      var returned := o.world.tokens.Balance(Wallet(owner)) - w.tokens.Balance(Wallet(owner)) - o.paid;
      && returned + o.batch + burned == amount
      && 0 <= returned && 0 <= o.batch && 0 <= burned
      && (w.Lookup(owner).unlockTs <= now ==> returned == amount)
      && (o.world.config.eligibleLocked == 0 ==> o.batch == 0)
  {
    var p := w.Lookup(owner);
    var c1, p1 := TouchedConfig(w.config, p), TouchedPosition(w.config, p);
    TouchOk(w, owner);
    TouchedBacked(w, owner);
    ExitBounds(c1, p1, amount, now);
    ExitTokensOk(w.tokens, owner, amount, ExitOf(c1, p1, amount, now));
    WithdrawKeeps(w, owner, amount, now);
  }

  /** A withdrawal takes young stake first: a later bucket is touched only once the earlier are empty. */
  lemma WithdrawTakesYoungestFirst(w: World, owner: Key, amount: nat, now: int)
    requires Safe(w) && WithdrawStep(w, owner, amount, now).Success?
    ensures var p := TouchedPosition(w.config, w.Lookup(owner));
      var q := WithdrawStep(w, owner, amount, now).value.world.Lookup(owner);
      && (q.warmingAmount < p.warmingAmount ==> q.pendingActivationAmount == 0)
      && (q.eligibleAmount < p.eligibleAmount ==> q.pendingActivationAmount == 0 && q.warmingAmount == 0)
      && q.pendingActivationAmount <= p.pendingActivationAmount
      && q.warmingAmount <= p.warmingAmount && q.eligibleAmount <= p.eligibleAmount
      && q.lockedAmount == p.lockedAmount - amount
      && q.lockedAmount == q.eligibleAmount + q.warmingAmount + q.pendingActivationAmount
  {
    TouchOk(w, owner);
  }

  /** Checked funding is spread over exactly the base its sender expected, in no later epoch. */
  lemma CheckedFundingBinds(w: World, funder: Key, amount: nat, expectedBase: nat, maxEpoch: nat)
    requires Safe(w) && FundStep(w, funder, amount, Some((expectedBase, maxEpoch))).Success?
    ensures var w' := FundStep(w, funder, amount, Some((expectedBase, maxEpoch))).value.world;
      && w.config.currentEpoch <= maxEpoch
      && Sum(w'.positions, Eligible()) == expectedBase
      && Owed(w') - Owed(w) == amount * SCALE - amount * SCALE % expectedBase
  {
    FundKeeps(w, funder, amount, Some((expectedBase, maxEpoch)));
  }

  // ---- Touch schedules ----

  /** A visit at some state of the config, with or without a claim. */
  datatype Visit = Visit(config: Config, claim: bool)
  datatype Visited = Visited(position: Position, claimed: int)

  /** A position settled at each visit and claimed at some of them. */
  function Visits(p: Position, visits: seq<Visit>): Visited {
    if visits == [] then Visited(p, 0)
    else
      var before := Visits(p, visits[..|visits| - 1]);
      var visit := visits[|visits| - 1];
      var q := Settle(visit.config, before.position);
      if visit.claim then Visited(q.(pendingRewards := 0), before.claimed + q.pendingRewards)
      else Visited(q, before.claimed)
  }

  /** Settling leaves what is owed unchanged at every other index too. */
  lemma SettleKeepsLater(c: Config, p: Position, later: int)
    ensures Liability(Settle(c, p), later) == Liability(p, later)
  {
    SettleKeepsLiability(c, p);
    LiabilityGrows(Settle(c, p), c.Index(), later - c.Index());
    LiabilityGrows(p, c.Index(), later - c.Index());
  }

  lemma {:induction false} VisitsKeep(p: Position, visits: seq<Visit>, later: int)
    ensures var v := Visits(p, visits);
      Liability(v.position, later) + v.claimed * SCALE == Liability(p, later)
  {
    if visits != [] {
      var n := |visits| - 1;
      VisitsKeep(p, visits[..n], later);
      SettleKeepsLater(visits[n].config, Visits(p, visits[..n]).position, later);
    }
  }

  /**
   However many batches a position settles after, and whenever it claims, one settlement at the end
   gives the same total and the same carried fraction.
   */
  lemma TouchScheduleIrrelevant(c: Config, p: Position, visits: seq<Visit>)
    ensures var v, lazy := Visits(p, visits), Settle(c, p);
      && v.claimed + Settle(c, v.position).pendingRewards == lazy.pendingRewards
      && Settle(c, v.position).rewardAccrualRemainder == lazy.rewardAccrualRemainder
  {
    var v := Visits(p, visits);
    VisitsKeep(p, visits, c.Index());
    DivideShifted(v.claimed, Liability(v.position, c.Index()));
  }
}
