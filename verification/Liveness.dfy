/** Which calls go through in a safe state, and why no bounded operation stands in their way. */
module Liveness {
  import opened Arithmetic
  import opened Checked
  import opened State
  import opened Spec
  import opened Safety
  import opened Preservation
  import opened Ledger

  /** In a generation below the top there is room for any batch. */
  lemma RoomBelowTop(c: Config, batch: int, base: int)
    requires c.Fits() && c.rewardIndexGeneration < U64_MAX
    requires 0 <= batch <= U64_MAX && 0 <= base && (base == 0 ==> batch == 0)
    ensures RoomFor(c, batch, base)
  {
    BatchExact(batch, base);
    if base > 0 {
      FactorBound(base, BatchDelta(batch, base), U64_MAX * SCALE);
    }
  }

  /**
   Solvency implies arithmetic safety: for a position with eligible stake the index difference, the
   product and the carry fit in 128 bits, the earned amount in 64, and the new pending rewards are
   in the pool.
   */
  lemma AccrualFits(w: World, owner: Key)
    requires Safe(w)
    requires var p := w.Lookup(owner);
      p.eligibleAmount > 0
    ensures var p := w.Lookup(owner);
      var delta := w.config.Index() - p.Checkpoint();
      var scaled := p.eligibleAmount * delta + p.rewardAccrualRemainder;
      && 0 <= delta <= U128_MAX
      && 0 <= p.eligibleAmount * delta <= scaled <= U128_MAX
      && scaled / SCALE <= U64_MAX
      && p.pendingRewards + scaled / SCALE <= w.tokens.pool <= U64_MAX
  {
    var p := w.Lookup(owner);
    LookupOk(w, owner);
    LiabilityBacked(w, owner);
    LiabilityNonNegative(w.config, p);
    SupplyBound(w.tokens, owner);
    EligibleInReach(w, owner);
  }

  /** The custody accounts and the aggregates cover everything a withdrawal takes. */
  lemma ExitCovered(w: World, owner: Key, amount: nat, now: int)
    requires Safe(w) && 0 < amount <= w.Lookup(owner).lockedAmount
    ensures var c1, p1 := TouchedConfig(w.config, w.Lookup(owner)), TouchedPosition(w.config, w.Lookup(owner));
      var e := ExitOf(c1, p1, amount, now);
      && e.paid <= w.tokens.pool
      && amount <= w.tokens.vault
      && 0 <= e.reward && 0 <= e.burned && e.reward + e.burned <= amount
      && EligiblePart(p1, amount) <= p1.eligibleAmount <= c1.eligibleLocked
      && WarmingPart(p1, amount) <= p1.warmingAmount <= c1.warmingLocked
      && PendingPart(p1, amount) <= p1.pendingActivationAmount <= c1.pendingActivationLocked
  {
    TouchOk(w, owner);
    TouchedBacked(w, owner);
    ExitBounds(TouchedConfig(w.config, w.Lookup(owner)), TouchedPosition(w.config, w.Lookup(owner)), amount, now);
  }

  /**
   Exit liveness over every run: below the last generation, a withdrawal of any part of a position
   is accepted if and only if the position was touched within 128 bits of index growth; with
   eligible stake that is always so.
   */
  lemma ExitLive(w: World, calls: seq<Call>, owner: Key, amount: nat, now: int)
    requires Safe(w) && CallsOk(calls)
    requires Run(w, calls).config.rewardIndexGeneration < U64_MAX
    requires 0 < amount <= Run(w, calls).Lookup(owner).lockedAmount
    ensures var w' := Run(w, calls);
      && (Step(w', Withdraw(owner, amount, now)).Success? <==> w'.config.Index() - w'.Lookup(owner).Checkpoint() < WRAP)
      && (w'.Lookup(owner).eligibleAmount > 0 ==> Step(w', Withdraw(owner, amount, now)).Success?)
  {
    RunSafe(w, calls);
    ExitLiveAt(Run(w, calls), owner, amount, now);
  }

  lemma ExitLiveAt(w: World, owner: Key, amount: nat, now: int)
    requires Safe(w) && w.config.rewardIndexGeneration < U64_MAX
    requires 0 < amount <= w.Lookup(owner).lockedAmount
    ensures WithdrawStep(w, owner, amount, now).Success? <==> w.config.Index() - w.Lookup(owner).Checkpoint() < WRAP
    ensures w.Lookup(owner).eligibleAmount > 0 ==> WithdrawStep(w, owner, amount, now).Success?
  {
    var p := w.Lookup(owner);
    var c1, p1 := TouchedConfig(w.config, p), TouchedPosition(w.config, p);
    var e := ExitOf(c1, p1, amount, now);
    LookupOk(w, owner);
    TouchOk(w, owner);
    TouchedBacked(w, owner);
    ExitBounds(c1, p1, amount, now);
    RoomBelowTop(c1, e.reward, e.base);
    if p.eligibleAmount > 0 {
      EligibleInReach(w, owner);
    }
  }

  // ---- The last generation is out of reach of any feasible run ----

  /** The index step of a batch is at most the scaled batch. */
  lemma StepBelowBatch(batch: nat, base: nat)
    requires base == 0 ==> batch == 0
    ensures 0 <= BatchDelta(batch, base) <= batch * SCALE
  {
    BatchExact(batch, base);
    if base > 0 {
      FactorBound(base, BatchDelta(batch, base), batch * SCALE);
    }
  }

  /** No call commits more than the supply. */
  lemma BatchWithinSupply(w: World, call: Call)
    requires Safe(w) && Step(w, call).Success?
    ensures Step(w, call).value.batch <= U64_MAX
  {
    match call
    case Fund(funder, _, _) => SupplyBound(w.tokens, funder);
    case Withdraw(owner, amount, now) =>
      ExitCovered(w, owner, amount, now);
      SupplyBound(w.tokens, owner);
    case _ =>
  }

  lemma {:induction false} IndexPace(w: World, calls: seq<Call>)
    requires Safe(w) && CallsOk(calls)
    ensures Run(w, calls).config.Index() <= w.config.Index() + |calls| * (U64_MAX * SCALE)
  {
    if calls != [] {
      var n := |calls| - 1;
      var before := Run(w, calls[..n]);
      RunSafe(w, calls[..n]);
      IndexPace(w, calls[..n]);
      if Step(before, calls[n]).Success? {
        IndexFlow(before, calls[n]);
        BatchWithinSupply(before, calls[n]);
        StepBelowBatch(Step(before, calls[n]).value.batch, Step(before, calls[n]).value.base);
      }
    }
  }

  /** So for 2^64 - 1 calls after initialization exit liveness needs no condition on the generation. */
  lemma ExitLiveFromGenesis(w: World, calls: seq<Call>, owner: Key, amount: nat, now: int)
    requires Genesis(w) && CallsOk(calls) && |calls| <= U64_MAX
    requires 0 < amount <= Run(w, calls).Lookup(owner).lockedAmount
    ensures var w' := Run(w, calls);
      && (Step(w', Withdraw(owner, amount, now)).Success? <==> w'.config.Index() - w'.Lookup(owner).Checkpoint() < WRAP)
      && (w'.Lookup(owner).eligibleAmount > 0 ==> Step(w', Withdraw(owner, amount, now)).Success?)
  {
    GenesisFresh(w);
    IndexPace(w, calls);
    RunSafe(w, calls);
    ProductMonotone(|calls|, U64_MAX, U64_MAX * SCALE);
    ExitLive(w, calls, owner, amount, now);
  }

  // ---- The other half: a position left behind by the index ----

  /** The index has left a position behind by 128 bits or more; in a safe state it then has no eligible stake. */
  predicate LeftBehind(w: World, owner: Key) {
    && owner in w.positions
    && w.config.Index() - w.positions[owner].Checkpoint() >= WRAP
  }

  lemma IndexNeverFalls(w: World, call: Call)
    requires Safe(w) && CallOk(call)
    ensures w.config.Index() <= After(w, call).config.Index()
  {
    if Step(w, call).Success? {
      IndexFlow(w, call);
    }
  }

  lemma OwnCallsFail(w: World, call: Call, owner: Key)
    requires LeftBehind(w, owner)
    ensures owner in After(w, call).positions && After(w, call).positions[owner] == w.positions[owner]
  {}

  /** Such a position is out of reach for good: no later run of any calls changes it. */
  lemma {:induction false} LeftBehindForever(w: World, calls: seq<Call>, owner: Key)
    requires Safe(w) && CallsOk(calls) && LeftBehind(w, owner)
    ensures LeftBehind(Run(w, calls), owner)
    ensures Run(w, calls).positions[owner] == w.positions[owner]
  {
    if calls != [] {
      var n := |calls| - 1;
      RunSafe(w, calls[..n]);
      LeftBehindForever(w, calls[..n], owner);
      OwnCallsFail(Run(w, calls[..n]), calls[n], owner);
      IndexNeverFalls(Run(w, calls[..n]), calls[n]);
    }
  }
}
