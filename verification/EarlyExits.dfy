/** The penalty law over whole runs: deposits, claims and other owners do not disturb it. */
module EarlyExits {
  import opened Arithmetic
  import opened State
  import opened Spec
  import opened Safety
  import opened Preservation
  import opened Penalty

  predicate OwnWithdrawal(w: World, call: Call, owner: Key) {
    call.Withdraw? && call.owner == owner && Step(w, call).Success?
  }

  /** The amounts a withdrawal in this state is made of. */
  function ExitAt(w: World, owner: Key, amount: nat, now: int): Exit {
    ExitOf(TouchedConfig(w.config, w.Lookup(owner)), TouchedPosition(w.config, w.Lookup(owner)), amount, now)
  }

  /**
   An owner's withdrawals so far.
   taken:      what it withdrew before its unlock time
   charged:    tokens of its withdrawals it did not get back
   burned:     those of them that were burned
   shares:     the burn shares of the penalties
   redirected: reward shares of penalties charged when no eligible stake remained
   clamped:    burn shares due beyond a penalty that was burned whole
   forfeited:  carried fractions of penalty and of burn share that a late withdrawal cleared
   */
  datatype Tally = Tally(
    taken: int,
    charged: int,
    burned: int,
    shares: int,
    redirected: int,
    clamped: int,
    penaltyForfeited: int,
    burnForfeited: int)

  /** The burn share an early exit's whole penalty was too small for. */
  function Excess(policy: Policy, p: Position, amount: nat, s: Split): int {
    if policy.burnPenaltyBps == 0 || s.reward > 0 then 0
    else (amount * policy.burnPenaltyBps + p.burnRemainder) / BPS - s.burn
  }

  function Enter(t: Tally, w: World, call: Call, owner: Key): Tally {
    if !OwnWithdrawal(w, call, owner) then t
    else
      var o, p, e := Step(w, call).value, w.Lookup(owner), ExitAt(w, owner, call.amount, call.now);
      var burned := o.world.tokens.burned - w.tokens.burned;
      var kept := t.(charged := t.charged + o.batch + burned, burned := t.burned + burned);
      if call.now < p.unlockTs
      then kept.(taken := t.taken + call.amount,
                 shares := t.shares + e.split.burn,
                 clamped := t.clamped + Excess(w.config.policy, p, call.amount, e.split),
                 redirected := t.redirected + (if o.world.config.eligibleLocked == 0 then e.split.reward else 0))
      else kept.(penaltyForfeited := t.penaltyForfeited + p.penaltyRemainder,
                 burnForfeited := t.burnForfeited + p.burnRemainder)
  }

  function TallyOf(w: World, calls: seq<Call>, owner: Key): Tally {
    if calls == [] then Tally(0, 0, 0, 0, 0, 0, 0, 0)
    else
      var n := |calls| - 1;
      Enter(TallyOf(w, calls[..n], owner), Run(w, calls[..n]), calls[n], owner)
  }

  lemma PolicyFixed(w: World, call: Call)
    ensures After(w, call).config.policy == w.config.policy
  {}

  lemma {:induction false} PolicyFixedOver(w: World, calls: seq<Call>)
    ensures Run(w, calls).config.policy == w.config.policy
  {
    if calls != [] {
      var n := |calls| - 1;
      PolicyFixedOver(w, calls[..n]);
      PolicyFixed(Run(w, calls[..n]), calls[n]);
    }
  }

  /** The remainders a position carries are linked by the rates of the policy. */
  predicate Carries(policy: Policy, p: Position) {
    Linked(policy.earlyExitPenaltyBps, policy.burnPenaltyBps, p.penaltyRemainder, p.burnRemainder)
  }

  /** Only an owner's own withdrawals move its carried remainders. */
  lemma RemaindersKept(w: World, call: Call, owner: Key)
    requires !OwnWithdrawal(w, call, owner)
    ensures After(w, call).Lookup(owner).penaltyRemainder == w.Lookup(owner).penaltyRemainder
    ensures After(w, call).Lookup(owner).burnRemainder == w.Lookup(owner).burnRemainder
  {}

  /** What a withdrawal does to the burned tokens and the carried remainders. */
  lemma WithdrawBurns(w: World, owner: Key, amount: nat, now: int)
    requires Safe(w) && WithdrawStep(w, owner, amount, now).Success?
    ensures var o, e := WithdrawStep(w, owner, amount, now).value, ExitAt(w, owner, amount, now);
      && o.batch == e.reward
      && o.world.tokens.burned == w.tokens.burned + e.burned
      && o.world.config.eligibleLocked == e.base
      && o.world.Lookup(owner).penaltyRemainder == e.split.penaltyRemainder
      && o.world.Lookup(owner).burnRemainder == e.split.burnRemainder
  {
    var c1, p1 := TouchedConfig(w.config, w.Lookup(owner)), TouchedPosition(w.config, w.Lookup(owner));
    TouchOk(w, owner);
    TouchedBacked(w, owner);
    ExitBounds(c1, p1, amount, now);
    ExitTokensOk(w.tokens, owner, amount, ExitOf(c1, p1, amount, now));
  }

  /** Before the unlock time the split is that of the carried remainders; from then on there is none. */
  lemma ExitSplit(w: World, owner: Key, amount: nat, now: int)
    requires PolicyOk(w.config.policy) && Carries(w.config.policy, w.Lookup(owner))
    ensures var policy, p, e := w.config.policy, w.Lookup(owner), ExitAt(w, owner, amount, now);
      && e.reward + e.burned == e.split.reward + e.split.burn
      && e.burned == e.split.burn + (if e.base == 0 then e.split.reward else 0)
      && e.split == if now < p.unlockTs
                    then PenaltySplit(amount, policy.earlyExitPenaltyBps, policy.burnPenaltyBps,
                                      p.penaltyRemainder, p.burnRemainder)
                    else Split(0, 0, 0, 0)
  {}

  // ---- Charged at the penalty rate ----

  /**
   The charge is the penalty rate on the total taken early, from position start to position p, short
   only of carried or forfeited fractions.
   */
  predicate ChargedAtRate(policy: Policy, start: Position, p: Position, t: Tally) {
    BPS * t.charged + p.penaltyRemainder + t.penaltyForfeited
    == t.taken * policy.earlyExitPenaltyBps + start.penaltyRemainder
  }

  /**
   What was burned is the burn shares and the redirected reward shares. The burn shares are the burn
   rate on the total taken early, short of carried and forfeited fractions and of what exceeded penalties
   burned whole; if the rates divide nothing ever does.
   */
  predicate BurnedAtRate(policy: Policy, start: Position, p: Position, t: Tally) {
    && t.burned == t.shares + t.redirected
    && BPS * (t.shares + t.clamped) + p.burnRemainder + t.burnForfeited
       == t.taken * policy.burnPenaltyBps + start.burnRemainder
    && 0 <= t.clamped
    && (Dividing(policy.earlyExitPenaltyBps, policy.burnPenaltyBps) ==> t.clamped == 0)
  }

  predicate AtRate(policy: Policy, start: Position, p: Position, t: Tally) {
    Carries(policy, p) && ChargedAtRate(policy, start, p, t) && BurnedAtRate(policy, start, p, t)
  }

  /** Adding one early withdrawal, split s, to a tally. */
  lemma EarlyAtRate(policy: Policy, start: Position, p: Position, t: Tally, p': Position, t': Tally, amount: nat,
                    s: Split)
    requires AtRate(policy, start, p, t) && RatesOk(policy.earlyExitPenaltyBps, policy.burnPenaltyBps)
    requires s == PenaltySplit(amount, policy.earlyExitPenaltyBps, policy.burnPenaltyBps,
                               p.penaltyRemainder, p.burnRemainder)
    requires p'.penaltyRemainder == s.penaltyRemainder && p'.burnRemainder == s.burnRemainder
    requires t'.taken == t.taken + amount && t'.charged == t.charged + s.reward + s.burn
    requires t'.shares == t.shares + s.burn && t'.burned - t.burned == s.burn + t'.redirected - t.redirected
    requires t'.clamped == t.clamped + Excess(policy, p, amount, s)
    requires t'.penaltyForfeited == t.penaltyForfeited && t'.burnForfeited == t.burnForfeited
    ensures AtRate(policy, start, p', t')
  {
    var bps, burnBps := policy.earlyExitPenaltyBps, policy.burnPenaltyBps;
    SplitExact(amount, bps, burnBps, p.penaltyRemainder, p.burnRemainder);
    SplitLinks(amount, bps, burnBps, p.penaltyRemainder, p.burnRemainder);
    Distribute(t.taken, amount, bps);
    Distribute(t.taken, amount, burnBps);
    ExcessExact(policy, p, amount, s);
  }

  /** With its excess, the burn share of a split is the rate on the amount to the last unit. */
  lemma ExcessExact(policy: Policy, p: Position, amount: nat, s: Split)
    requires RatesOk(policy.earlyExitPenaltyBps, policy.burnPenaltyBps) && Carries(policy, p)
    requires s == PenaltySplit(amount, policy.earlyExitPenaltyBps, policy.burnPenaltyBps,
                               p.penaltyRemainder, p.burnRemainder)
    ensures var excess := Excess(policy, p, amount, s);
      && BPS * (s.burn + excess) + s.burnRemainder == amount * policy.burnPenaltyBps + p.burnRemainder
      && 0 <= excess && (Dividing(policy.earlyExitPenaltyBps, policy.burnPenaltyBps) ==> excess == 0)
  {
    var bps, burnBps := policy.earlyExitPenaltyBps, policy.burnPenaltyBps;
    SplitLinks(amount, bps, burnBps, p.penaltyRemainder, p.burnRemainder);
    if burnBps > 0 {
      BurnExact(amount, bps, burnBps, p.penaltyRemainder, p.burnRemainder);
      BurnLosesNothing(amount, bps, burnBps, p.penaltyRemainder, p.burnRemainder);
    }
  }

  /** A late withdrawal charges nothing and forfeits what was carried. */
  lemma LateAtRate(policy: Policy, start: Position, p: Position, t: Tally, p': Position, t': Tally)
    requires AtRate(policy, start, p, t)
    requires p'.penaltyRemainder == p'.burnRemainder == 0
    requires t' == t.(penaltyForfeited := t.penaltyForfeited + p.penaltyRemainder,
                      burnForfeited := t.burnForfeited + p.burnRemainder)
    ensures AtRate(policy, start, p', t')
  {}

  lemma WithdrawAtRate(w: World, owner: Key, amount: nat, now: int, start: Position, t: Tally)
    requires Safe(w) && AtRate(w.config.policy, start, w.Lookup(owner), t)
    requires WithdrawStep(w, owner, amount, now).Success?
    ensures AtRate(w.config.policy, start, WithdrawStep(w, owner, amount, now).value.world.Lookup(owner),
                   Enter(t, w, Withdraw(owner, amount, now), owner))
  {
    var p, t' := w.Lookup(owner), Enter(t, w, Withdraw(owner, amount, now), owner);
    var p', e := WithdrawStep(w, owner, amount, now).value.world.Lookup(owner), ExitAt(w, owner, amount, now);
    WithdrawBurns(w, owner, amount, now);
    ExitSplit(w, owner, amount, now);
    if now < p.unlockTs {
      EarlyAtRate(w.config.policy, start, p, t, p', t', amount, e.split);
    } else {
      LateAtRate(w.config.policy, start, p, t, p', t');
    }
  }

  lemma StepAtRate(w: World, call: Call, start: Position, t: Tally, owner: Key)
    requires Safe(w) && AtRate(w.config.policy, start, w.Lookup(owner), t)
    ensures AtRate(w.config.policy, start, After(w, call).Lookup(owner), Enter(t, w, call, owner))
  {
    if OwnWithdrawal(w, call, owner) {
      WithdrawAtRate(w, owner, call.amount, call.now, start, t);
    } else {
      RemaindersKept(w, call, owner);
    }
  }

  /**
   Through any interleaving of instructions an owner's early withdrawals are charged on their total,
   so no way of splitting them up, or of mixing them with other calls, changes the charge.
   */
  lemma {:induction false} RunAtRate(w: World, calls: seq<Call>, owner: Key)
    requires Safe(w) && Carries(w.config.policy, w.Lookup(owner)) && CallsOk(calls)
    ensures AtRate(w.config.policy, w.Lookup(owner), Run(w, calls).Lookup(owner), TallyOf(w, calls, owner))
  {
    if calls != [] {
      var n := |calls| - 1;
      RunAtRate(w, calls[..n], owner);
      RunSafe(w, calls[..n]);
      PolicyFixedOver(w, calls[..n]);
      StepAtRate(Run(w, calls[..n]), calls[n], w.Lookup(owner), TallyOf(w, calls[..n], owner), owner);
    }
  }

  /** In every reachable state the remainders a position carries are linked by the rates. */
  lemma RunCarries(w: World, calls: seq<Call>, owner: Key)
    requires Fresh(w) && CallsOk(calls)
    ensures Carries(Run(w, calls).config.policy, Run(w, calls).Lookup(owner))
  {
    BlankCarries(w.config);
    RunAtRate(w, calls, owner);
    PolicyFixedOver(w, calls);
  }

  lemma BlankCarries(c: Config)
    ensures Carries(c.policy, Blank(c))
  {}
}
