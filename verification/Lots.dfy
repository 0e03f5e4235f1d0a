/**
 The plain account of an owner's stake: a stack of lots, one for each deposit, each remembering the epoch
 it was activated in. The three buckets and the one warming epoch of a stored position are a summary of it.
 */
module Lots {
  import opened Checked
  import opened State
  import opened Spec
  import opened Safety
  import opened Preservation
  import opened Laws

  /** Staked together and, once activated, activated in one epoch. */
  datatype Lot = Lot(amount: nat, activated: Option<int>)

  /** The lots, oldest first, and the epoch of the owner's last accepted instruction. */
  datatype Stack = Stack(lots: seq<Lot>, seen: int)

  // ---- What instructions do to a stack ----

  /** Activates every lot that is not. */
  function Started(lots: seq<Lot>, epoch: int): seq<Lot> {
    if lots == [] then []
    else
      var n := |lots| - 1;
      var last := if lots[n].activated.None? then lots[n].(activated := Some(epoch)) else lots[n];
      Started(lots[..n], epoch) + [last]
  }

  /** Takes an amount off the top, the youngest lots first. */
  function Popped(lots: seq<Lot>, amount: nat): seq<Lot> {
    if lots == [] then []
    else
      var n := |lots| - 1;
      if lots[n].amount <= amount then Popped(lots[..n], amount - lots[n].amount)
      else lots[..n] + [lots[n].(amount := lots[n].amount - amount)]
  }

  predicate OwnCall(w: World, call: Call, owner: Key) {
    (call.Deposit? || call.Activate? || call.Claim? || call.Withdraw?) && call.owner == owner && Step(w, call).Success?
  }

  function Stacked(s: Stack, call: Call, epoch: int): Stack {
    match call
    case Deposit(_, amount, _) => Stack(s.lots + [Lot(amount, None)], epoch)
    case Activate(_, _) => Stack(Started(s.lots, epoch), epoch)
    case Withdraw(_, amount, _) => Stack(Popped(s.lots, amount), epoch)
    case _ => Stack(s.lots, epoch)
  }

  function StackOf(w: World, calls: seq<Call>, owner: Key): Stack {
    if calls == [] then Stack([], w.config.currentEpoch)
    else
      var n := |calls| - 1;
      var before := Run(w, calls[..n]);
      var s := StackOf(w, calls[..n], owner);
      if OwnCall(before, calls[n], owner) then Stacked(s, calls[n], before.config.currentEpoch) else s
  }

  // ---- The ages of lots ----

  datatype Age = Earns | Warms | Waits

  /** A lot earns once its owner was seen in a later epoch than it was activated in. */
  function AgeOf(l: Lot, seen: int): Age {
    match l.activated
    case None => Waits
    case Some(e) => if e < seen then Earns else Warms
  }

  function Staked(lots: seq<Lot>, seen: int, age: Age): nat {
    if lots == [] then 0
    else
      var n := |lots| - 1;
      Staked(lots[..n], seen, age) + (if AgeOf(lots[n], seen) == age then lots[n].amount else 0)
  }

  function Rank(age: Age): int {
    match age
    case Earns => 0
    case Warms => 1
    case Waits => 2
  }

  /** No lot is older than one below it, and none was activated after the owner was last seen. */
  predicate Ordered(s: Stack) {
    && (forall i, j :: 0 <= i < j < |s.lots| ==> Rank(AgeOf(s.lots[i], s.seen)) <= Rank(AgeOf(s.lots[j], s.seen)))
    && (forall i :: 0 <= i < |s.lots| && s.lots[i].activated.Some? ==> s.lots[i].activated.value <= s.seen)
  }

  /** The stored position sums up the stack, and names the epoch of whatever is warming. */
  predicate Summary(p: Position, s: Stack) {
    && p.eligibleAmount == Staked(s.lots, s.seen, Earns)
    && p.warmingAmount == Staked(s.lots, s.seen, Warms)
    && p.pendingActivationAmount == Staked(s.lots, s.seen, Waits)
    && (p.warmingAmount > 0 ==> p.warmingEpoch == s.seen)
  }

  // ---- Stacks and sums ----

  lemma {:induction false} NoneYounger(lots: seq<Lot>, seen: int, age: Age)
    requires forall i :: 0 <= i < |lots| ==> Rank(AgeOf(lots[i], seen)) < Rank(age)
    ensures Staked(lots, seen, age) == 0
  {
    if lots != [] {
      NoneYounger(lots[..|lots| - 1], seen, age);
    }
  }

  /** Seen in a later epoch, what was warming earns. */
  lemma {:induction false} SeenLater(lots: seq<Lot>, seen: int, later: int)
    requires seen < later
    requires forall i :: 0 <= i < |lots| && lots[i].activated.Some? ==> lots[i].activated.value <= seen
    ensures Staked(lots, later, Earns) == Staked(lots, seen, Earns) + Staked(lots, seen, Warms)
    ensures Staked(lots, later, Warms) == 0
    ensures Staked(lots, later, Waits) == Staked(lots, seen, Waits)
  {
    if lots != [] {
      SeenLater(lots[..|lots| - 1], seen, later);
    }
  }

  lemma {:induction false} StartedSums(lots: seq<Lot>, epoch: int)
    ensures |Started(lots, epoch)| == |lots|
    ensures Staked(Started(lots, epoch), epoch, Earns) == Staked(lots, epoch, Earns)
    ensures Staked(Started(lots, epoch), epoch, Warms) == Staked(lots, epoch, Warms) + Staked(lots, epoch, Waits)
    ensures Staked(Started(lots, epoch), epoch, Waits) == 0
  {
    if lots != [] {
      var n := |lots| - 1;
      StartedSums(lots[..n], epoch);
      var started := Started(lots, epoch);
      assert started[..n] == Started(lots[..n], epoch);
    }
  }

  /** The top of an ordered stack is the youngest, so what is younger still is not there. */
  lemma TopIsYoungest(lots: seq<Lot>, seen: int)
    requires Ordered(Stack(lots, seen)) && lots != []
    ensures Ordered(Stack(lots[..|lots| - 1], seen))
    ensures AgeOf(lots[|lots| - 1], seen) != Waits ==> Staked(lots, seen, Waits) == 0
    ensures AgeOf(lots[|lots| - 1], seen) == Earns ==> Staked(lots, seen, Warms) == 0
  {
    if AgeOf(lots[|lots| - 1], seen) != Waits {
      NoneYounger(lots, seen, Waits);
    }
    if AgeOf(lots[|lots| - 1], seen) == Earns {
      NoneYounger(lots, seen, Warms);
    }
  }

  lemma {:induction false} PoppedOrdered(lots: seq<Lot>, seen: int, amount: nat)
    requires Ordered(Stack(lots, seen))
    ensures Ordered(Stack(Popped(lots, amount), seen))
  {
    PoppedPrefix(lots, amount);
  }

  lemma {:induction false} PoppedPrefix(lots: seq<Lot>, amount: nat)
    ensures |Popped(lots, amount)| <= |lots|
    ensures forall i :: 0 <= i < |Popped(lots, amount)| ==> Popped(lots, amount)[i].activated == lots[i].activated
  {
    if lots != [] && lots[|lots| - 1].amount <= amount {
      PoppedPrefix(lots[..|lots| - 1], amount - lots[|lots| - 1].amount);
    }
  }

  function Total(lots: seq<Lot>, seen: int): nat {
    Staked(lots, seen, Earns) + Staked(lots, seen, Warms) + Staked(lots, seen, Waits)
  }

  lemma TopCounts(lots: seq<Lot>, seen: int)
    requires lots != []
    ensures var rest, top, age := lots[..|lots| - 1], lots[|lots| - 1].amount, AgeOf(lots[|lots| - 1], seen);
      && Staked(lots, seen, Waits) == Staked(rest, seen, Waits) + (if age == Waits then top else 0)
      && Staked(lots, seen, Warms) == Staked(rest, seen, Warms) + (if age == Warms then top else 0)
      && Total(lots, seen) == Total(rest, seen) + top
  {}

  /** How much waits, warms and is there in all, before and after an amount is popped. */
  predicate Leaves(waits: int, warms: int, all: int, amount: int, waits': int, warms': int, all': int) {
    && waits' == Max(waits - amount, 0)
    && warms' == Min(warms, Max(waits + warms - amount, 0))
    && all' == all - amount
  }

  /** A whole top lot gone, the rest follows from what is below it. */
  lemma WholeTop(waits: nat, warms: nat, all: nat, amount: nat, top: nat, age: Age, waits': int, warms': int, all': int)
    requires age != Waits ==> waits == 0
    requires age == Earns ==> warms == 0
    requires top <= amount && (age == Waits ==> top <= waits) && (age == Warms ==> top <= warms)
    requires Leaves(if age == Waits then waits - top else waits, if age == Warms then warms - top else warms,
                    all - top, amount - top, waits', warms', all')
    ensures Leaves(waits, warms, all, amount, waits', warms', all')
  {}

  /** Popping empties the younger ages before it touches an older one. */
  lemma {:induction false} PoppedSums(lots: seq<Lot>, seen: int, amount: nat)
    requires Ordered(Stack(lots, seen)) && amount <= Total(lots, seen)
    ensures var p := Popped(lots, amount);
      Leaves(Staked(lots, seen, Waits), Staked(lots, seen, Warms), Total(lots, seen), amount,
             Staked(p, seen, Waits), Staked(p, seen, Warms), Total(p, seen))
  {
    if lots != [] {
      var rest, top, p := lots[..|lots| - 1], lots[|lots| - 1], Popped(lots, amount);
      TopIsYoungest(lots, seen);
      TopCounts(lots, seen);
      if top.amount <= amount {
        PoppedSums(rest, seen, amount - top.amount);
        WholeTop(Staked(lots, seen, Waits), Staked(lots, seen, Warms), Total(lots, seen), amount, top.amount,
                 AgeOf(top, seen), Staked(p, seen, Waits), Staked(p, seen, Warms), Total(p, seen));
      } else {
        CutTop(lots, seen, amount);
      }
    }
  }

  lemma CutTop(lots: seq<Lot>, seen: int, amount: nat)
    requires Ordered(Stack(lots, seen)) && lots != [] && amount < lots[|lots| - 1].amount
    ensures var p := Popped(lots, amount);
      Leaves(Staked(lots, seen, Waits), Staked(lots, seen, Warms), Total(lots, seen), amount,
             Staked(p, seen, Waits), Staked(p, seen, Warms), Total(p, seen))
  {
    var p := Popped(lots, amount);
    assert p[..|p| - 1] == lots[..|lots| - 1];
    TopIsYoungest(lots, seen);
    TopCounts(lots, seen);
    TopCounts(p, seen);
  }

  lemma {:induction false} StartedEach(lots: seq<Lot>, epoch: int)
    ensures |Started(lots, epoch)| == |lots|
    ensures forall i :: 0 <= i < |lots| ==>
      Started(lots, epoch)[i] == if lots[i].activated.None? then lots[i].(activated := Some(epoch)) else lots[i]
  {
    if lots != [] {
      StartedEach(lots[..|lots| - 1], epoch);
    }
  }

  lemma StartedOrdered(lots: seq<Lot>, epoch: int)
    requires Ordered(Stack(lots, epoch))
    ensures Ordered(Stack(Started(lots, epoch), epoch))
  {
    StartedEach(lots, epoch);
  }

  // ---- One call ----

  lemma Pushed(s: Stack, amount: nat)
    requires Ordered(s)
    ensures var t := Stack(s.lots + [Lot(amount, None)], s.seen);
      && Ordered(t)
      && Staked(t.lots, t.seen, Waits) == Staked(s.lots, s.seen, Waits) + amount
      && Staked(t.lots, t.seen, Warms) == Staked(s.lots, s.seen, Warms)
      && Staked(t.lots, t.seen, Earns) == Staked(s.lots, s.seen, Earns)
  {
    var lots := s.lots + [Lot(amount, None)];
    assert lots[..|lots| - 1] == s.lots;
  }

  /** The position as its owner's next accepted instruction finds it, due stake promoted. */
  lemma Refreshed(p: Position, s: Stack, epoch: int)
    requires Ordered(s) && Summary(p, s) && s.seen <= epoch && 0 <= p.warmingAmount
    ensures Ordered(Stack(s.lots, epoch))
    ensures var due := if p.warmingEpoch < epoch then p.warmingAmount else 0;
      && Staked(s.lots, epoch, Earns) == p.eligibleAmount + due
      && Staked(s.lots, epoch, Warms) == p.warmingAmount - due
      && Staked(s.lots, epoch, Waits) == p.pendingActivationAmount
  {
    if s.seen < epoch {
      SeenLater(s.lots, s.seen, epoch);
    }
  }

  lemma WithdrawPops(p: Position, due: int, q: Position, lots: seq<Lot>, seen: int, amount: nat)
    requires Ordered(Stack(lots, seen)) && YoungestFirst(p, due, q)
    requires p.lockedAmount == p.eligibleAmount + p.warmingAmount + p.pendingActivationAmount
    requires amount <= p.lockedAmount && q.lockedAmount == p.lockedAmount - amount
    requires Staked(lots, seen, Earns) == p.eligibleAmount + due
    requires Staked(lots, seen, Warms) == p.warmingAmount - due
    requires Staked(lots, seen, Waits) == p.pendingActivationAmount
    requires q.warmingAmount > 0 ==> q.warmingEpoch == seen
    ensures Ordered(Stack(Popped(lots, amount), seen)) && Summary(q, Stack(Popped(lots, amount), seen))
  {
    PoppedOrdered(lots, seen, amount);
    PoppedSums(lots, seen, amount);
    assert amount <= Total(lots, seen);
  }

  lemma DepositStacks(w: World, owner: Key, amount: nat, now: int, s: Stack)
    requires Safe(w) && DepositStep(w, owner, amount, now).Success?
    requires Ordered(s) && Summary(w.Lookup(owner), s) && s.seen <= w.config.currentEpoch
    ensures var t := Stacked(s, Deposit(owner, amount, now), w.config.currentEpoch);
      Ordered(t) && Summary(DepositStep(w, owner, amount, now).value.world.Lookup(owner), t)
  {
    LookupOk(w, owner);
    DepositLawful(w, owner, amount, now);
    Refreshed(w.Lookup(owner), s, w.config.currentEpoch);
    Pushed(Stack(s.lots, w.config.currentEpoch), amount);
  }

  lemma ActivateStarts(p: Position, due: int, q: Position, lots: seq<Lot>, epoch: int)
    requires Ordered(Stack(lots, epoch))
    requires Staked(lots, epoch, Earns) == p.eligibleAmount + due == q.eligibleAmount
    requires Staked(lots, epoch, Warms) == p.warmingAmount - due == q.warmingAmount - p.pendingActivationAmount
    requires Staked(lots, epoch, Waits) == p.pendingActivationAmount && q.pendingActivationAmount == 0
    requires q.warmingAmount > 0 ==> q.warmingEpoch == epoch
    ensures Ordered(Stack(Started(lots, epoch), epoch)) && Summary(q, Stack(Started(lots, epoch), epoch))
  {
    StartedSums(lots, epoch);
    StartedOrdered(lots, epoch);
  }

  lemma ActivateStacks(w: World, owner: Key, now: int, s: Stack)
    requires Safe(w) && ActivateStep(w, owner, now).Success?
    requires Ordered(s) && Summary(w.Lookup(owner), s) && s.seen <= w.config.currentEpoch
    ensures var t := Stacked(s, Activate(owner, now), w.config.currentEpoch);
      Ordered(t) && Summary(ActivateStep(w, owner, now).value.world.Lookup(owner), t)
  {
    LookupOk(w, owner);
    ActivateLawful(w, owner, now);
    Refreshed(w.Lookup(owner), s, w.config.currentEpoch);
    var p, q := w.Lookup(owner), ActivateStep(w, owner, now).value.world.Lookup(owner);
    ActivateStarts(p, Due(w.config, p), q, s.lots, w.config.currentEpoch);
  }

  lemma ClaimStacks(w: World, owner: Key, s: Stack)
    requires Safe(w) && ClaimStep(w, owner).Success?
    requires Ordered(s) && Summary(w.Lookup(owner), s) && s.seen <= w.config.currentEpoch
    ensures var t := Stacked(s, Claim(owner), w.config.currentEpoch);
      Ordered(t) && Summary(ClaimStep(w, owner).value.world.Lookup(owner), t)
  {
    LookupOk(w, owner);
    ClaimLawful(w, owner);
    Refreshed(w.Lookup(owner), s, w.config.currentEpoch);
  }

  lemma WithdrawStacks(w: World, owner: Key, amount: nat, now: int, s: Stack)
    requires Safe(w) && WithdrawStep(w, owner, amount, now).Success?
    requires Ordered(s) && Summary(w.Lookup(owner), s) && s.seen <= w.config.currentEpoch
    ensures var t := Stacked(s, Withdraw(owner, amount, now), w.config.currentEpoch);
      Ordered(t) && Summary(WithdrawStep(w, owner, amount, now).value.world.Lookup(owner), t)
  {
    var p, q := w.Lookup(owner), WithdrawStep(w, owner, amount, now).value.world.Lookup(owner);
    LookupOk(w, owner);
    WithdrawStakeLawful(w, owner, amount, now);
    Refreshed(p, s, w.config.currentEpoch);
    WithdrawPops(p, Due(w.config, p), q, s.lots, w.config.currentEpoch, amount);
  }

  lemma OwnStep(w: World, call: Call, owner: Key, s: Stack)
    requires Safe(w) && OwnCall(w, call, owner)
    requires Ordered(s) && Summary(w.Lookup(owner), s) && s.seen <= w.config.currentEpoch
    ensures var t := Stacked(s, call, w.config.currentEpoch);
      Ordered(t) && Summary(After(w, call).Lookup(owner), t)
  {
    match call
    case Deposit(_, amount, now) => DepositStacks(w, owner, amount, now, s);
    case Activate(_, now) => ActivateStacks(w, owner, now, s);
    case Claim(_) => ClaimStacks(w, owner, s);
    case Withdraw(_, amount, now) => WithdrawStacks(w, owner, amount, now, s);
  }

  lemma OtherStep(w: World, call: Call, owner: Key, s: Stack)
    requires Safe(w) && CallOk(call) && !OwnCall(w, call, owner) && Summary(w.Lookup(owner), s)
    ensures Summary(After(w, call).Lookup(owner), s)
  {
    if Step(w, call).Success? {
      StepLawful(w, call);
    }
  }

  /**
   Over every run the buckets of an owner are its stack summed up by age: deposits push, activations
   start what waits, withdrawals pop, and stake earns once its owner is seen in a later epoch.
   */
  lemma {:induction false} BucketsSumUpLots(w: World, calls: seq<Call>, owner: Key)
    requires Fresh(w) && CallsOk(calls)
    ensures var w', s := Run(w, calls), StackOf(w, calls, owner);
      Ordered(s) && s.seen <= w'.config.currentEpoch && Summary(w'.Lookup(owner), s)
  {
    if calls != [] {
      var n := |calls| - 1;
      var before := Run(w, calls[..n]);
      RunSafe(w, calls[..n]);
      BucketsSumUpLots(w, calls[..n], owner);
      EpochGrows(before, calls[n]);
      if OwnCall(before, calls[n], owner) {
        OwnStep(before, calls[n], owner, StackOf(w, calls[..n], owner));
      } else {
        OtherStep(before, calls[n], owner, StackOf(w, calls[..n], owner));
      }
    }
  }

  lemma EpochGrows(w: World, call: Call)
    ensures w.config.currentEpoch <= After(w, call).config.currentEpoch
  {}
}
