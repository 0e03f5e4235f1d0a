/** Epoch cadence, lock and activation clocks, and warming, over whole runs. */
module Timing {
  import opened Arithmetic
  import opened Checked
  import opened State
  import opened Spec
  import opened Safety
  import opened Preservation
  import opened EarlyExits
  import opened Answers
  import opened Laws

  /** The clock reading a call carries, if it reads the clock for a decision. */
  function TimeOf(call: Call): Option<int> {
    match call
    case Deposit(_, _, now) => Some(now)
    case Activate(_, now) => Some(now)
    case Roll(now) => Some(now)
    case Withdraw(_, _, now) => Some(now)
    case _ => None
  }

  /** The latest clock reading of a run that starts at a given one. */
  function ClockAt(start: int, calls: seq<Call>): int {
    if calls == [] then start
    else
      var n := |calls| - 1;
      match TimeOf(calls[n])
      case Some(t) => t
      case None => ClockAt(start, calls[..n])
  }

  predicate Monotone(start: int, calls: seq<Call>) {
    calls == [] ||
    var n := |calls| - 1;
    && Monotone(start, calls[..n])
    && (TimeOf(calls[n]).Some? ==> ClockAt(start, calls[..n]) <= TimeOf(calls[n]).value)
  }

  // ---- Epochs ----

  /** The number of whole epochs between creation and now. */
  function EpochsUntil(c: Config, now: int): int
    requires c.policy.epochSeconds > 0
  {
    (now - c.createdTs) / c.policy.epochSeconds
  }

  lemma FloorBound(n: int, d: int, k: int)
    requires 0 < d
    ensures k <= n / d <==> k * d <= n
  {
    var q := n / d;
    assert n == q * d + n % d;
    if k <= q {
      ProductNonNegative(q - k, d);
    } else {
      ProductNonNegative(k - q - 1, d);
    }
  }

  /** A roll is accepted exactly while the epoch counter is behind the clock. */
  lemma RollAccepted(w: World, now: int)
    requires Safe(w) && now <= I64_MAX
    ensures RollStep(w, now).Success? <==> w.config.currentEpoch + 1 <= EpochsUntil(w.config, now)
  {
    var c := w.config;
    FloorBound(now - c.createdTs, c.policy.epochSeconds, c.currentEpoch + 1);
    assert (c.currentEpoch + 1) * c.policy.epochSeconds
        == c.currentEpoch * c.policy.epochSeconds + c.policy.epochSeconds;
  }

  function Rolls(n: nat, now: int): seq<Call> {
    if n == 0 then [] else Rolls(n - 1, now) + [Roll(now)]
  }

  /** Repeated rolls at one clock reading advance the epoch to the whole epochs elapsed, and stop there. */
  lemma {:induction false} RollsStopAtFloor(w: World, now: int, n: nat)
    requires Safe(w) && I64_MIN <= now <= I64_MAX
    ensures var w' := Run(w, Rolls(n, now));
      && Safe(w')
      && w'.config.createdTs == w.config.createdTs && w'.config.policy == w.config.policy
      && w'.config.currentEpoch
         == Max(w.config.currentEpoch, Min(w.config.currentEpoch + n, EpochsUntil(w.config, now)))
      && w'.config.lastEpochTs == w.config.createdTs + w'.config.currentEpoch * w.config.policy.epochSeconds
  {
    if n > 0 {
      var calls := Rolls(n, now);
      assert calls[..|calls| - 1] == Rolls(n - 1, now);
      RollsStopAtFloor(w, now, n - 1);
      var before := Run(w, Rolls(n - 1, now));
      RollAccepted(before, now);
      StepKeeps(before, Roll(now));
    }
  }

  lemma EpochSteps(w: World, call: Call)
    ensures var w' := After(w, call);
      if call.Roll? && Step(w, call).Success?
      then w'.config.currentEpoch == w.config.currentEpoch + 1
           && w'.config.lastEpochTs == w.config.lastEpochTs + w.config.policy.epochSeconds
           && w'.config.lastEpochTs <= call.now
      else w'.config.currentEpoch == w.config.currentEpoch && w'.config.lastEpochTs == w.config.lastEpochTs
  {}

  lemma {:induction false} LastEpochPast(start: int, w: World, calls: seq<Call>)
    requires w.config.lastEpochTs <= start && Monotone(start, calls)
    ensures Run(w, calls).config.lastEpochTs <= ClockAt(start, calls)
  {
    if calls != [] {
      var n := |calls| - 1;
      LastEpochPast(start, w, calls[..n]);
      EpochSteps(Run(w, calls[..n]), calls[n]);
    }
  }

  /** The accepted rolls of a run. */
  function AcceptedRolls(w: World, calls: seq<Call>): nat {
    if calls == [] then 0
    else
      var n := |calls| - 1;
      AcceptedRolls(w, calls[..n]) + (if calls[n].Roll? && Step(Run(w, calls[..n]), calls[n]).Success? then 1 else 0)
  }

  lemma {:induction false} EpochsAreRolls(w: World, calls: seq<Call>)
    ensures Run(w, calls).config.currentEpoch == w.config.currentEpoch + AcceptedRolls(w, calls)
    ensures Run(w, calls).config.createdTs == w.config.createdTs
  {
    if calls != [] {
      var n := |calls| - 1;
      EpochsAreRolls(w, calls[..n]);
      EpochSteps(Run(w, calls[..n]), calls[n]);
      PolicyFixed(Run(w, calls[..n]), calls[n]);
    }
  }

  /**
   The epochs count from the clock at initialization: after any run, the next roll is accepted exactly
   from the time at which one epoch more than the rolls so far has passed since then.
   */
  lemma RollsCountFromStart(policy: Policy, start: i64, tokens: Tokens, calls: seq<Call>, now: i64)
    requires TokensOk(tokens) && Initialized(policy, start, tokens).Success? && CallsOk(calls)
    ensures var w := Initialized(policy, start, tokens).value;
      var w', n := Run(w, calls), AcceptedRolls(w, calls);
      && GenesisAt(w, start)
      && w'.config.currentEpoch == n && w'.config.lastEpochTs == start + n * policy.epochSeconds
      && (Step(w', Roll(now)).Success? <==> start + (n + 1) * policy.epochSeconds <= now)
  {
    var w := Initialized(policy, start, tokens).value;
    assert GenesisAt(w, start);
    assert Genesis(w);
    GenesisFresh(w);
    RunSafe(w, calls);
    PolicyFixedOver(w, calls);
    EpochsAreRolls(w, calls);
    RollAnswers(Run(w, calls), now);
  }

  // ---- Unlock times ----

  predicate OwnDeposit(w: World, call: Call, owner: Key) {
    call.Deposit? && call.owner == owner && Step(w, call).Success?
  }

  /** The clock of the owner's latest accepted deposit. */
  function LastDeposit(start: int, w: World, calls: seq<Call>, owner: Key): int {
    if calls == [] then start
    else
      var n := |calls| - 1;
      if OwnDeposit(Run(w, calls[..n]), calls[n], owner) then calls[n].now else LastDeposit(start, w, calls[..n], owner)
  }

  /** What one call does to an owner's two clocks. */
  lemma ClockSteps(w: World, call: Call, owner: Key)
    ensures var p, q := w.Lookup(owner), After(w, call).Lookup(owner);
      if OwnDeposit(w, call, owner)
      then
        && q.unlockTs == (var m := call.now + w.config.policy.minLockSeconds;
                          if p.lockedAmount == 0 then m else Max(p.unlockTs, m))
        && q.activationTs
           == (var m := call.now + w.config.policy.activationDelaySeconds;
               if p.lockedAmount == 0 || p.pendingActivationAmount == 0 then m else Max(p.activationTs, m))
      else
        && q.unlockTs == p.unlockTs && q.activationTs == p.activationTs
        && q.lockedAmount <= p.lockedAmount
        && (0 <= p.pendingActivationAmount ==> q.pendingActivationAmount <= p.pendingActivationAmount)
  {}

  /** An open position's unlock time never moves closer. */
  lemma UnlockNeverFalls(w: World, call: Call, owner: Key)
    requires w.Lookup(owner).lockedAmount > 0
    ensures w.Lookup(owner).unlockTs <= After(w, call).Lookup(owner).unlockTs
  {
    ClockSteps(w, call, owner);
  }

  /**
   Under a non-decreasing clock an open position unlocks the minimum lock after its last deposit, and
   its pending stake may activate the activation delay after it.
   */
  lemma {:induction false} ClocksFromLastDeposit(start: int, w: World, calls: seq<Call>, owner: Key)
    requires Fresh(w) && CallsOk(calls) && Monotone(start, calls)
    ensures LastDeposit(start, w, calls, owner) <= ClockAt(start, calls)
    ensures Run(w, calls).Lookup(owner).lockedAmount > 0 ==>
      Run(w, calls).Lookup(owner).unlockTs == LastDeposit(start, w, calls, owner) + w.config.policy.minLockSeconds
    ensures Run(w, calls).Lookup(owner).pendingActivationAmount > 0 ==>
      Run(w, calls).Lookup(owner).activationTs
      == LastDeposit(start, w, calls, owner) + w.config.policy.activationDelaySeconds
  {
    if calls != [] {
      var n := |calls| - 1;
      ClocksFromLastDeposit(start, w, calls[..n], owner);
      RunSafe(w, calls[..n]);
      LookupOk(Run(w, calls[..n]), owner);
      PolicyFixedOver(w, calls[..n]);
      ClockSteps(Run(w, calls[..n]), calls[n], owner);
    }
  }

  // ---- Exposure after maturity ----

  /** Stake that is still pending always activates at least two epochs before it unlocks. */
  predicate Exposed(policy: Policy, p: Position) {
    p.pendingActivationAmount > 0 ==>
      p.activationTs + policy.minLockSeconds - policy.activationDelaySeconds <= p.unlockTs
  }

  lemma {:induction false} RunExposed(w: World, calls: seq<Call>, owner: Key)
    requires Fresh(w) && CallsOk(calls)
    ensures Exposed(w.config.policy, Run(w, calls).Lookup(owner))
  {
    if calls != [] {
      var n := |calls| - 1;
      RunExposed(w, calls[..n], owner);
      RunSafe(w, calls[..n]);
      LookupOk(Run(w, calls[..n]), owner);
      PolicyFixedOver(w, calls[..n]);
      ClockSteps(Run(w, calls[..n]), calls[n], owner);
    }
  }

  /** The earliest clock at which the next roll is accepted. */
  function Next(c: Config): int {
    c.lastEpochTs + c.policy.epochSeconds
  }

  /** The earliest clock at which stake activated at time s can mature. */
  function FirstMaturity(c: Config, s: int): int {
    Max(s, Next(c))
  }

  /**
   Lock-policy exposure: stake activated at time s can mature at most one epoch later, and from then it
   stays under the penalty for a full epoch less the time its activation was delayed.
   */
  lemma ActivationLeavesExposure(start: int, w: World, calls: seq<Call>, owner: Key, s: int)
    requires GenesisAt(w, start)
    requires CallsOk(calls + [Activate(owner, s)]) && Monotone(start, calls + [Activate(owner, s)])
    requires ActivateStep(Run(w, calls), owner, s).Success?
    requires Run(w, calls).Lookup(owner).pendingActivationAmount > 0
    ensures var c, p := Run(w, calls).config, Run(w, calls).Lookup(owner);
      var m := FirstMaturity(c, s);
      && p.activationTs <= s <= m <= s + c.policy.epochSeconds
      && p.unlockTs - m >= c.policy.epochSeconds - (s - p.activationTs)
  {
    var all := calls + [Activate(owner, s)];
    assert all[..|all| - 1] == calls && all[|all| - 1] == Activate(owner, s);
    assert forall call <- calls :: call in all;
    assert Genesis(w);
    GenesisFresh(w);
    RunExposed(w, calls, owner);
    LastEpochPast(start, w, calls);
    PolicyFixedOver(w, calls);
  }

  /** No run before the next epoch time rolls the epoch, whatever the order of its clock readings. */
  lemma {:induction false} NoEpochBefore(w: World, calls: seq<Call>, m: int)
    requires m <= Next(w.config)
    requires forall call <- calls :: TimeOf(call).Some? ==> TimeOf(call).value < m
    ensures Run(w, calls).config.currentEpoch == w.config.currentEpoch
    ensures Run(w, calls).config.lastEpochTs == w.config.lastEpochTs
  {
    if calls != [] {
      var n := |calls| - 1;
      assert calls[n] in calls;
      assert forall call <- calls[..n] :: call in calls;
      NoEpochBefore(w, calls[..n], m);
      PolicyFixedOver(w, calls[..n]);
      EpochSteps(Run(w, calls[..n]), calls[n]);
    }
  }

  /** While the clock is before the next epoch time no stake activated in this epoch is ready. */
  predicate Young(c: Config, p: Position, epoch: int, next: int) {
    && c.currentEpoch == epoch && Next(c) == next
    && (p.warmingAmount > 0 ==> epoch <= p.warmingEpoch)
  }

  lemma StaysYoung(w: World, call: Call, owner: Key, epoch: int, next: int)
    requires Safe(w) && Young(w.config, w.Lookup(owner), epoch, next)
    requires TimeOf(call).Some? ==> TimeOf(call).value < next
    ensures Young(After(w, call).config, After(w, call).Lookup(owner), epoch, next)
  {
    PolicyFixed(w, call);
    EpochSteps(w, call);
    WarmingSteps(w, call, owner);
  }

  lemma ActivatedYoung(w: World, owner: Key, s: int)
    requires Safe(w) && ActivateStep(w, owner, s).Success?
    requires w.Lookup(owner).pendingActivationAmount > 0
    ensures var w1 := After(w, Activate(owner, s));
      Young(w1.config, w1.Lookup(owner), w.config.currentEpoch, Next(w.config))
  {
    WarmingSteps(w, Activate(owner, s), owner);
  }

  /** After an activation, no run whose clock stays before the next epoch time makes the stake ready. */
  lemma {:induction false} RunYoung(start: int, w: World, calls: seq<Call>, owner: Key, s: int, later: seq<Call>)
    requires Safe(w) && CallsOk(calls + [Activate(owner, s)] + later)
    requires Monotone(start, calls + [Activate(owner, s)] + later)
    requires ActivateStep(Run(w, calls), owner, s).Success?
    requires Run(w, calls).Lookup(owner).pendingActivationAmount > 0
    requires ClockAt(start, calls + [Activate(owner, s)] + later) < Next(Run(w, calls).config)
    ensures var w', c := Run(w, calls + [Activate(owner, s)] + later), Run(w, calls).config;
      Young(w'.config, w'.Lookup(owner), c.currentEpoch, Next(c))
  {
    var all := calls + [Activate(owner, s)] + later;
    var n := |all| - 1;
    if later == [] {
      assert all == calls + [Activate(owner, s)] && all[..n] == calls;
      RunPrefixSafe(w, calls, all);
      ActivatedYoung(Run(w, calls), owner, s);
    } else {
      var before := later[..|later| - 1];
      assert all[..n] == calls + [Activate(owner, s)] + before;
      RunPrefixSafe(w, all[..n], all);
      RunYoung(start, w, calls, owner, s, before);
      StaysYoung(Run(w, all[..n]), all[n], owner, Run(w, calls).config.currentEpoch, Next(Run(w, calls).config));
    }
  }

  lemma RunPrefixSafe(w: World, calls: seq<Call>, all: seq<Call>)
    requires Safe(w) && CallsOk(all) && calls <= all
    ensures Safe(Run(w, calls)) && CallsOk(calls)
  {
    assert forall call <- calls :: call in all;
    RunSafe(w, calls);
  }

  lemma {:induction false} ClockGrows(start: int, calls: seq<Call>, k: nat)
    requires k <= |calls| && Monotone(start, calls)
    ensures Monotone(start, calls[..k]) && ClockAt(start, calls[..k]) <= ClockAt(start, calls)
  {
    if k == |calls| {
      assert calls[..k] == calls;
    } else {
      var n := |calls| - 1;
      assert calls[..n][..k] == calls[..k];
      ClockGrows(start, calls[..n], k);
    }
  }

  /**
   The whole of it: whatever follows an activation at time s, its stake is ready only from the first
   maturity on, which leaves a full penalty-bearing epoch before the unlock time, less the delay.
   */
  lemma MaturityLeavesExposure(start: int, w: World, calls: seq<Call>, owner: Key, s: int, later: seq<Call>)
    requires GenesisAt(w, start) && CallsOk(calls + [Activate(owner, s)] + later)
    requires Monotone(start, calls + [Activate(owner, s)] + later)
    requires ActivateStep(Run(w, calls), owner, s).Success?
    requires Run(w, calls).Lookup(owner).pendingActivationAmount > 0
    ensures var c, p := Run(w, calls).config, Run(w, calls).Lookup(owner);
      var w' := Run(w, calls + [Activate(owner, s)] + later);
      var m := FirstMaturity(c, s);
      && p.activationTs <= s <= m <= s + c.policy.epochSeconds
      && p.unlockTs - m >= c.policy.epochSeconds - (s - p.activationTs)
      && (WarmingReady(w'.config, w'.Lookup(owner)) ==> m <= ClockAt(start, calls + [Activate(owner, s)] + later))
  {
    var activated := calls + [Activate(owner, s)];
    var all := activated + later;
    assert all[..|activated|] == activated && activated[..|activated| - 1] == calls;
    ClockGrows(start, all, |activated|);
    assert forall call <- activated :: call in all;
    assert Genesis(w);
    GenesisFresh(w);
    ActivationLeavesExposure(start, w, calls, owner, s);
    if ClockAt(start, all) < Next(Run(w, calls).config) {
      RunYoung(start, w, calls, owner, s, later);
    }
  }

  /**
   At that clock reading a roll is accepted, and from then on the stake is due: the owner's next claim
   is accepted and finds all its stake eligible.
   */
  lemma MaturesAtFirstMaturity(w: World, owner: Key, s: int)
    requires Safe(w) && ActivateStep(w, owner, s).Success?
    requires w.Lookup(owner).pendingActivationAmount > 0 && FirstMaturity(w.config, s) <= I64_MAX
    ensures var w1 := ActivateStep(w, owner, s).value.world;
      && RollStep(w1, FirstMaturity(w.config, s)).Success?
      && var w2 := RollStep(w1, FirstMaturity(w.config, s)).value.world;
      && WarmingReady(w2.config, w1.Lookup(owner))
      && Step(w2, Claim(owner)).Success?
      && After(w2, Claim(owner)).Lookup(owner).eligibleAmount == w.Lookup(owner).lockedAmount
  {
    LookupOk(w, owner);
    ActivateKeeps(w, owner, s);
    ActivateLawful(w, owner, s);
    var w1 := ActivateStep(w, owner, s).value.world;
    var w2 := RollStep(w1, FirstMaturity(w.config, s)).value.world;
    RollKeeps(w1, FirstMaturity(w.config, s));
    LookupOk(w1, owner);
    ClaimAnswers(w2, owner);
    ClaimLawful(w2, owner);
  }

  /**
   No accepted instruction of an owner leaves due stake warming: it becomes eligible, before a withdrawal
   takes its part and before an activation starts more.
   */
  lemma DuePromoted(w: World, call: Call, owner: Key)
    requires Safe(w) && CallOk(call) && Step(w, call).Success?
    requires (call.Deposit? || call.Activate? || call.Claim? || call.Withdraw?) && call.owner == owner
    ensures var p, w' := w.Lookup(owner), After(w, call);
      var q := w'.Lookup(owner);
      && !WarmingReady(w'.config, q)
      && (p.warmingEpoch < w.config.currentEpoch ==>
            && q.warmingAmount == (if call.Activate? then p.pendingActivationAmount else 0)
            && (!call.Withdraw? ==> q.eligibleAmount == p.eligibleAmount + p.warmingAmount)
            && (call.Withdraw? ==>
                  q.eligibleAmount == Min(p.eligibleAmount + p.warmingAmount, p.lockedAmount - call.amount)))
  {
    LookupOk(w, owner);
    StepLawful(w, call);
  }

  // ---- Warming ----

  /** The epochs in which the stake now warming was activated. */
  function WarmedIn(w: World, calls: seq<Call>, owner: Key): set<int> {
    if calls == [] then {}
    else
      var n := |calls| - 1;
      var before, after := Run(w, calls[..n]), Run(w, calls);
      WarmedAfter(before, calls[n], after, owner, WarmedIn(w, calls[..n], owner))
  }

  function WarmedAfter(before: World, call: Call, after: World, owner: Key, epochs: set<int>): set<int> {
    if after.Lookup(owner).warmingAmount == 0 then {}
    else if call.Activate? && call.owner == owner && Step(before, call).Success?
            && before.Lookup(owner).pendingActivationAmount > 0
    then (if WarmingReady(before.config, before.Lookup(owner)) then {} else epochs) + {before.config.currentEpoch}
    else epochs
  }

  predicate WarmingSound(p: Position, epochs: set<int>) {
    epochs == if p.warmingAmount > 0 then {p.warmingEpoch} else {}
  }

  lemma WarmingSteps(w: World, call: Call, owner: Key)
    requires Safe(w)
    ensures var p, q := w.Lookup(owner), After(w, call).Lookup(owner);
      if call.Activate? && call.owner == owner && Step(w, call).Success? && p.pendingActivationAmount > 0
      then
        && q.warmingAmount > 0
        && q.warmingEpoch
           == if p.warmingAmount == 0 || WarmingReady(w.config, p) then w.config.currentEpoch else p.warmingEpoch
      else q.warmingAmount > 0 ==> p.warmingAmount > 0 && q.warmingEpoch == p.warmingEpoch
  {
    LookupOk(w, owner);
  }

  lemma StepWarming(w: World, call: Call, owner: Key, epochs: set<int>)
    requires Safe(w) && CallOk(call) && WarmingSound(w.Lookup(owner), epochs)
    ensures WarmingSound(After(w, call).Lookup(owner), WarmedAfter(w, call, After(w, call), owner, epochs))
  {
    LookupOk(w, owner);
    WarmingSteps(w, call, owner);
    if Step(w, call).Success? {
      StepKeeps(w, call);
      LookupOk(After(w, call), owner);
    }
  }

  /** All of a position's warming stake was activated in the one epoch its record names. */
  lemma {:induction false} RunWarming(w: World, calls: seq<Call>, owner: Key)
    requires Fresh(w) && CallsOk(calls)
    ensures WarmingSound(Run(w, calls).Lookup(owner), WarmedIn(w, calls, owner))
  {
    if calls != [] {
      var n := |calls| - 1;
      RunWarming(w, calls[..n], owner);
      RunSafe(w, calls[..n]);
      StepWarming(Run(w, calls[..n]), calls[n], owner, WarmedIn(w, calls[..n], owner));
    }
  }

  /** Stake becomes eligible only in an epoch strictly after every epoch it was activated in. */
  lemma PromotedLater(w: World, calls: seq<Call>, call: Call, owner: Key)
    requires Fresh(w) && CallsOk(calls + [call])
    requires var before := Run(w, calls);
      before.Lookup(owner).eligibleAmount < After(before, call).Lookup(owner).eligibleAmount
    ensures forall e <- WarmedIn(w, calls, owner) :: e < Run(w, calls).config.currentEpoch
    ensures WarmedIn(w, calls, owner) != {}
  {
    assert forall c <- calls :: c in calls + [call];
    RunWarming(w, calls, owner);
    RunSafe(w, calls);
    LookupOk(Run(w, calls), owner);
    OnlyReadyPromotes(Run(w, calls), call, owner);
  }

  lemma OnlyReadyPromotes(w: World, call: Call, owner: Key)
    requires Safe(w)
    requires w.Lookup(owner).eligibleAmount < After(w, call).Lookup(owner).eligibleAmount
    ensures WarmingReady(w.config, w.Lookup(owner))
  {
    LookupOk(w, owner);
  }
}
