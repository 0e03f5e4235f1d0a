/**
 One owner's early exit in parts and at once: when the tokens that are actually burned agree.
 The penalty always agrees; the burn also takes in the reward share when no eligible stake remains.
 */
module PartialExits {
  import opened Checked
  import opened State
  import opened Spec
  import opened Safety
  import opened MapSum
  import opened Preservation
  import opened Liveness
  import opened Penalty
  import opened EarlyExits

  // ---- What the parts burn, on the touched records ----

  /** The eligible stake of the arena once this much of a position has left. */
  function BaseAfter(c: Config, p: Position, taken: int): int {
    c.eligibleLocked - EligiblePart(p, taken)
  }

  /** The penalty series of the parts, from the remainders the position carries. */
  function SeriesOf(c: Config, p: Position, amounts: seq<nat>): Sums {
    Series(amounts, c.policy.earlyExitPenaltyBps, c.policy.burnPenaltyBps, p.penaltyRemainder, p.burnRemainder)
  }

  function RewardOf(c: Config, p: Position, amounts: seq<nat>): int {
    SeriesOf(c, p, amounts).penalty - SeriesOf(c, p, amounts).burn
  }

  /** Tokens burned: every burn share, and the reward share of the parts that leave no eligible stake. */
  function Burned(c: Config, p: Position, amounts: seq<nat>): int {
    if amounts == [] then 0
    else
      var n := |amounts| - 1;
      var reward := RewardOf(c, p, amounts) - RewardOf(c, p, amounts[..n]);
      Burned(c, p, amounts[..n]) + SeriesOf(c, p, amounts).burn - SeriesOf(c, p, amounts[..n]).burn
      + (if BaseAfter(c, p, Total(amounts)) == 0 then reward else 0)
  }

  /** The records of a touched position, early in its lock. */
  predicate Open(c: Config, p: Position) {
    && ConfigOk(c) && PositionOk(c, p) && Carries(c.policy, p)
    && p.eligibleAmount <= c.eligibleLocked
  }

  lemma BaseFalls(c: Config, p: Position, taken: nat, more: nat)
    requires Open(c, p) && taken + more <= p.lockedAmount
    ensures 0 <= BaseAfter(c, p, taken + more) <= BaseAfter(c, p, taken) <= c.eligibleLocked
    ensures BaseAfter(c, p, taken) < c.eligibleLocked ==> BaseAfter(c, p, taken + more) == BaseAfter(c, p, taken) - more
  {}

  /** While eligible stake remains only the burn shares are burned. */
  lemma {:induction false} BurnsShares(c: Config, p: Position, amounts: seq<nat>)
    requires Open(c, p) && Total(amounts) <= p.lockedAmount
    requires BaseAfter(c, p, Total(amounts)) > 0
    ensures Burned(c, p, amounts) == SeriesOf(c, p, amounts).burn
  {
    if amounts != [] {
      var n := |amounts| - 1;
      BaseFalls(c, p, Total(amounts[..n]), amounts[n]);
      BurnsShares(c, p, amounts[..n]);
    }
  }

  /** With no eligible stake in the arena at all, the whole penalty is burned. */
  lemma {:induction false} BurnsAll(c: Config, p: Position, amounts: seq<nat>)
    requires Open(c, p) && Total(amounts) <= p.lockedAmount
    requires c.eligibleLocked == 0
    ensures Burned(c, p, amounts) == SeriesOf(c, p, amounts).penalty
  {
    if amounts != [] {
      var n := |amounts| - 1;
      BaseFalls(c, p, 0, Total(amounts));
      BurnsAll(c, p, amounts[..n]);
    }
  }

  /** When the last eligible stake leaves, what the earlier parts redistributed is not burned. */
  lemma BurnsLast(c: Config, p: Position, amounts: seq<nat>)
    requires Open(c, p) && Total(amounts) <= p.lockedAmount
    requires amounts != [] && AllPositive(amounts)
    requires c.eligibleLocked > 0 && BaseAfter(c, p, Total(amounts)) == 0
    ensures Burned(c, p, amounts) == SeriesOf(c, p, amounts).penalty - RewardOf(c, p, amounts[..|amounts| - 1])
  {
    var n := |amounts| - 1;
    BaseFalls(c, p, Total(amounts[..n]), amounts[n]);
    BurnsShares(c, p, amounts[..n]);
  }

  lemma RewardNonNegative(c: Config, p: Position, amounts: seq<nat>)
    requires Open(c, p)
    ensures 0 <= RewardOf(c, p, amounts)
  {
    PenaltyPartition(amounts, c.policy.earlyExitPenaltyBps, c.policy.burnPenaltyBps,
                     p.penaltyRemainder, p.burnRemainder);
  }

  /** Further parts only add to the reward share. */
  lemma RewardGrows(c: Config, p: Position, amounts: seq<nat>, more: nat)
    requires Open(c, p)
    ensures RewardOf(c, p, amounts) <= RewardOf(c, p, amounts + [more])
    ensures Total(amounts + [more]) == Total(amounts) + more
  {
    var all := amounts + [more];
    assert all[..|all| - 1] == amounts;
    var bps, burnBps := c.policy.earlyExitPenaltyBps, c.policy.burnPenaltyBps;
    PenaltyPartition(amounts, bps, burnBps, p.penaltyRemainder, p.burnRemainder);
    var before := SeriesOf(c, p, amounts);
    SplitExact(more, bps, burnBps, before.penaltyRemainder, before.burnRemainder);
  }

  /** With dividing rates the reward share depends only on the total. */
  lemma RewardOfTotal(c: Config, p: Position, amounts: seq<nat>)
    requires Open(c, p) && Dividing(c.policy.earlyExitPenaltyBps, c.policy.burnPenaltyBps)
    ensures SeriesOf(c, p, amounts).penalty == SeriesOf(c, p, [Total(amounts)]).penalty
    ensures SeriesOf(c, p, amounts).burn == SeriesOf(c, p, [Total(amounts)]).burn
  {
    var bps, burnBps := c.policy.earlyExitPenaltyBps, c.policy.burnPenaltyBps;
    PenaltyMatchesBulk(amounts, bps, burnBps, p.penaltyRemainder, p.burnRemainder);
    DividingMatchesBulk(amounts, bps, burnBps, p.penaltyRemainder, p.burnRemainder);
  }

  /** Whatever the rates, parts never burn more than the whole. */
  lemma BurnsAtMost(c: Config, p: Position, amounts: seq<nat>, total: nat)
    requires Open(c, p) && amounts != [] && AllPositive(amounts)
    requires 0 < total == Total(amounts) <= p.lockedAmount
    ensures Burned(c, p, amounts) <= Burned(c, p, [total])
  {
    var bps, burnBps := c.policy.earlyExitPenaltyBps, c.policy.burnPenaltyBps;
    TotalOfOne(total);
    PenaltyMatchesBulk(amounts, bps, burnBps, p.penaltyRemainder, p.burnRemainder);
    BaseFalls(c, p, 0, total);
    if BaseAfter(c, p, total) > 0 {
      BurnsShares(c, p, amounts);
      BurnsShares(c, p, [total]);
      BurnNeverAboveBulk(amounts, bps, burnBps, p.penaltyRemainder, p.burnRemainder);
    } else if c.eligibleLocked == 0 {
      BurnsAll(c, p, amounts);
      BurnsAll(c, p, [total]);
    } else {
      BurnsLast(c, p, amounts);
      BurnsLast(c, p, [total]);
      RewardNonNegative(c, p, amounts[..|amounts| - 1]);
    }
  }

  /** Nothing that any smaller withdrawal would redistribute is lost to the burn of the whole. */
  predicate NothingRedirected(c: Config, p: Position, total: nat)
    requires 0 < total
  {
    || BaseAfter(c, p, total) > 0
    || c.eligibleLocked == 0
    || RewardOf(c, p, [total - 1]) == 0
  }

  lemma RewardBelow(c: Config, p: Position, amounts: seq<nat>, more: nat)
    requires Open(c, p) && Dividing(c.policy.earlyExitPenaltyBps, c.policy.burnPenaltyBps)
    ensures 0 <= RewardOf(c, p, amounts) <= RewardOf(c, p, [Total(amounts) + more])
  {
    RewardNonNegative(c, p, amounts);
    RewardGrows(c, p, amounts, more);
    RewardOfTotal(c, p, amounts + [more]);
  }

  /** So then every way of taking a total burns the same: its burn share, or its whole penalty. */
  lemma BurnsByTotal(c: Config, p: Position, amounts: seq<nat>, total: nat)
    requires Open(c, p) && Dividing(c.policy.earlyExitPenaltyBps, c.policy.burnPenaltyBps)
    requires amounts != [] && AllPositive(amounts) && total == Total(amounts)
    requires 0 < total <= p.lockedAmount && NothingRedirected(c, p, total)
    ensures Burned(c, p, amounts)
         == if BaseAfter(c, p, total) > 0 then SeriesOf(c, p, [total]).burn else SeriesOf(c, p, [total]).penalty
  {
    RewardOfTotal(c, p, amounts);
    BaseFalls(c, p, 0, total);
    if BaseAfter(c, p, total) > 0 {
      BurnsShares(c, p, amounts);
    } else if c.eligibleLocked == 0 {
      BurnsAll(c, p, amounts);
    } else {
      var n := |amounts| - 1;
      BurnsLast(c, p, amounts);
      RewardBelow(c, p, amounts[..n], amounts[n] - 1);
    }
  }

  /** Otherwise holding one unit back burns less than leaving at once. */
  lemma PartsDiffer(c: Config, p: Position, total: nat)
    requires Open(c, p) && 0 < total <= p.lockedAmount && !NothingRedirected(c, p, total)
    ensures 1 < total && Burned(c, p, [total - 1, 1]) < Burned(c, p, [total])
  {
    var parts, whole := [total - 1, 1], [total];
    assert parts[..1] == [total - 1] && whole[..0] == [];
    TotalOfOne(total);
    TotalOfTwo(total - 1, 1);
    RewardNonNegative(c, p, [total - 1]);
    BaseFalls(c, p, 0, total);
    if total == 1 {
      NoRewardOfNothing(c, p);
      assert false;
    }
    BurnsLast(c, p, parts);
    BurnsLast(c, p, whole);
    PenaltyMatchesBulk(parts, c.policy.earlyExitPenaltyBps, c.policy.burnPenaltyBps,
                       p.penaltyRemainder, p.burnRemainder);
  }

  lemma NoRewardOfNothing(c: Config, p: Position)
    requires Open(c, p)
    ensures RewardOf(c, p, [0]) == 0
  {
    BulkIsOneSplit(0, c.policy.earlyExitPenaltyBps, c.policy.burnPenaltyBps, p.penaltyRemainder, p.burnRemainder);
  }

  // ---- The withdrawals themselves ----

  function Parts(owner: Key, amounts: seq<nat>, now: int): seq<Call> {
    if amounts == [] then []
    else
      var n := |amounts| - 1;
      Parts(owner, amounts[..n], now) + [Withdraw(owner, amounts[n], now)]
  }

  /** A withdrawal of this total is early and meets no overflow. */
  predicate Early(w: World, owner: Key, total: nat, now: int) {
    && w.config.rewardIndexGeneration < U64_MAX
    && owner in w.positions && InReach(w.config, w.positions[owner])
    && total <= w.positions[owner].lockedAmount
    && I64_MIN <= now < w.positions[owner].unlockTs
  }

  /** The same in a state that satisfies what every reachable state does. */
  ghost predicate Leaving(w: World, owner: Key, total: nat, now: int) {
    Safe(w) && Early(w, owner, total, now) && Carries(w.config.policy, w.positions[owner])
  }

  /** The records a withdrawal works on, once the position is settled and its warming stake promoted. */
  function ConfigOf(w: World, owner: Key): Config {
    TouchedConfig(w.config, w.Lookup(owner))
  }

  function PositionOf(w: World, owner: Key): Position {
    TouchedPosition(w.config, w.Lookup(owner))
  }

  /** How much of a position's buckets is left once an amount has been taken. */
  predicate Left(c: Config, p: Position, taken: int, c': Config, p': Position) {
    && c'.eligibleLocked == BaseAfter(c, p, taken)
    && p'.lockedAmount == p.lockedAmount - taken
    && p'.pendingActivationAmount == p.pendingActivationAmount - PendingPart(p, taken)
    && p'.warmingAmount == p.warmingAmount - WarmingPart(p, taken)
    && p'.eligibleAmount == p.eligibleAmount - EligiblePart(p, taken)
  }

  /** What is so after some of the parts. */
  ghost predicate PartWay(w: World, owner: Key, amounts: seq<nat>, w': World) {
    var c, p, c', p' := ConfigOf(w, owner), PositionOf(w, owner), ConfigOf(w', owner), PositionOf(w', owner);
    var s := SeriesOf(c, p, amounts);
    && Safe(w') && owner in w'.positions && InReach(w'.config, w'.positions[owner])
    && c'.policy == c.policy && p'.unlockTs == p.unlockTs
    && Left(c, p, Total(amounts), c', p')
    && p'.penaltyRemainder == s.penaltyRemainder && p'.burnRemainder == s.burnRemainder
    && w'.tokens.burned == w.tokens.burned + Burned(c, p, amounts)
    && w'.config.Index() <= w.config.Index() + Total(amounts) * SCALE
  }

  lemma LeftAdds(c: Config, p: Position, taken: nat, c1: Config, p1: Position, amount: nat, c2: Config, p2: Position)
    requires Open(c, p) && taken + amount <= p.lockedAmount
    requires Left(c, p, taken, c1, p1) && Left(c1, p1, amount, c2, p2)
    ensures Left(c, p, taken + amount, c2, p2)
  {}

  /** A withdrawal leaves the touched records short of just its amount. */
  lemma WithdrawLeaves(w: World, owner: Key, amount: nat, now: int)
    requires Safe(w) && WithdrawStep(w, owner, amount, now).Success?
    ensures var w' := WithdrawStep(w, owner, amount, now).value.world;
      var c, p, c', p' := ConfigOf(w, owner), PositionOf(w, owner), ConfigOf(w', owner), PositionOf(w', owner);
      && Left(c, p, amount, c', p')
      && owner in w'.positions && w'.positions[owner].Checkpoint() == w.config.Index()
      && c'.policy == c.policy && p'.unlockTs == p.unlockTs
      && p'.penaltyRemainder == w'.Lookup(owner).penaltyRemainder
      && p'.burnRemainder == w'.Lookup(owner).burnRemainder
  {
    LookupOk(w, owner);
    TouchKeepsLiability(w.config, w.Lookup(owner));
  }

  lemma PartAccepted(w: World, owner: Key, amount: nat, now: int)
    requires Safe(w) && owner in w.positions && InReach(w.config, w.positions[owner])
    requires 0 < amount <= w.positions[owner].lockedAmount
    requires w.config.Index() + amount * SCALE < GENERATIONS * WRAP
    ensures WithdrawStep(w, owner, amount, now).Success?
    ensures var w' := WithdrawStep(w, owner, amount, now).value.world;
      Safe(w') && w.config.Index() <= w'.config.Index() <= w.config.Index() + amount * SCALE
  {
    TouchOk(w, owner);
    TouchedBacked(w, owner);
    ExitBounds(ConfigOf(w, owner), PositionOf(w, owner), amount, now);
    var e := ExitAt(w, owner, amount, now);
    StepBelowBatch(e.reward, e.base);
    WithdrawKeeps(w, owner, amount, now);
  }

  /** What one accepted part, with exit e, changes. */
  ghost predicate WentOn(w: World, owner: Key, amount: int, e: Exit, w': World) {
    var c, p, c', p' := ConfigOf(w, owner), PositionOf(w, owner), ConfigOf(w', owner), PositionOf(w', owner);
    && Safe(w') && owner in w'.positions && InReach(w'.config, w'.positions[owner])
    && c'.policy == c.policy && p'.unlockTs == p.unlockTs
    && Left(c, p, amount, c', p') && c'.eligibleLocked == e.base
    && p'.penaltyRemainder == e.split.penaltyRemainder && p'.burnRemainder == e.split.burnRemainder
    && w'.tokens.burned == w.tokens.burned + e.burned
    && w'.config.Index() <= w.config.Index() + amount * SCALE
  }

  lemma PartGoesOn(w: World, owner: Key, amount: nat, now: int)
    requires Safe(w) && owner in w.positions && InReach(w.config, w.positions[owner])
    requires 0 < amount <= w.positions[owner].lockedAmount
    requires w.config.Index() + amount * SCALE < GENERATIONS * WRAP
    ensures WentOn(w, owner, amount, ExitAt(w, owner, amount, now), After(w, Withdraw(owner, amount, now)))
  {
    LookupOk(w, owner);
    PartAccepted(w, owner, amount, now);
    WithdrawLeaves(w, owner, amount, now);
    WithdrawBurns(w, owner, amount, now);
  }

  lemma LeavingOpen(w: World, owner: Key, total: nat, now: int)
    requires Leaving(w, owner, total, now)
    ensures Open(ConfigOf(w, owner), PositionOf(w, owner))
    ensures total <= PositionOf(w, owner).lockedAmount
  {
    TouchOk(w, owner);
    TouchedBacked(w, owner);
  }

  /** The books of one more part, split s, that leaves this much eligible stake. */
  lemma NextBurn(c: Config, p: Position, amounts: seq<nat>, s: Split, base: int)
    requires amounts != [] && base == BaseAfter(c, p, Total(amounts))
    requires var before := SeriesOf(c, p, amounts[..|amounts| - 1]);
      s == PenaltySplit(amounts[|amounts| - 1], c.policy.earlyExitPenaltyBps, c.policy.burnPenaltyBps,
                        before.penaltyRemainder, before.burnRemainder)
    ensures Burned(c, p, amounts)
         == Burned(c, p, amounts[..|amounts| - 1]) + s.burn + (if base == 0 then s.reward else 0)
    ensures SeriesOf(c, p, amounts).penaltyRemainder == s.penaltyRemainder
    ensures SeriesOf(c, p, amounts).burnRemainder == s.burnRemainder
  {}

  /** Part way through the position is still early, linked and in reach, with room for the next part. */
  lemma StillLeaving(w: World, owner: Key, amounts: seq<nat>, w': World, amount: nat, now: int)
    requires Leaving(w, owner, Total(amounts) + amount, now) && PartWay(w, owner, amounts, w')
    ensures w'.positions[owner].lockedAmount >= amount && now < w'.positions[owner].unlockTs
    ensures Carries(w'.config.policy, w'.positions[owner])
    ensures w'.config.Index() + amount * SCALE < GENERATIONS * WRAP
  {
    var c, p := ConfigOf(w, owner), PositionOf(w, owner);
    LeavingOpen(w, owner, Total(amounts) + amount, now);
    SeriesLinks(amounts, c.policy.earlyExitPenaltyBps, c.policy.burnPenaltyBps, p.penaltyRemainder, p.burnRemainder);
  }

  lemma NextPart(w: World, owner: Key, amounts: seq<nat>, w1: World, e: Exit, w2: World, now: int)
    requires amounts != [] && AllPositive(amounts) && Leaving(w, owner, Total(amounts), now)
    requires var before, amount := amounts[..|amounts| - 1], amounts[|amounts| - 1];
      var c, p := ConfigOf(w, owner), PositionOf(w, owner);
      var s := SeriesOf(c, p, before);
      && PartWay(w, owner, before, w1) && WentOn(w1, owner, amount, e, w2)
      && e.burned == e.split.burn + (if e.base == 0 then e.split.reward else 0)
      && e.split == PenaltySplit(amount, c.policy.earlyExitPenaltyBps, c.policy.burnPenaltyBps,
                                 s.penaltyRemainder, s.burnRemainder)
    ensures PartWay(w, owner, amounts, w2)
  {
    var before, amount := amounts[..|amounts| - 1], amounts[|amounts| - 1];
    LeavingOpen(w, owner, Total(amounts), now);
    LeftAdds(ConfigOf(w, owner), PositionOf(w, owner), Total(before),
             ConfigOf(w1, owner), PositionOf(w1, owner), amount, ConfigOf(w2, owner), PositionOf(w2, owner));
    NextBurn(ConfigOf(w, owner), PositionOf(w, owner), amounts, e.split, e.base);
  }

  /** Every part is accepted, and together they burn what the split series says. */
  lemma {:induction false} PartsBurn(w: World, owner: Key, amounts: seq<nat>, now: int)
    requires AllPositive(amounts) && Leaving(w, owner, Total(amounts), now)
    ensures PartWay(w, owner, amounts, Run(w, Parts(owner, amounts, now)))
  {
    if amounts != [] {
      var n := |amounts| - 1;
      var calls := Parts(owner, amounts, now);
      assert calls[..|calls| - 1] == Parts(owner, amounts[..n], now);
      PartsBurn(w, owner, amounts[..n], now);
      var w1 := Run(w, Parts(owner, amounts[..n], now));
      StillLeaving(w, owner, amounts[..n], w1, amounts[n], now);
      PartGoesOn(w1, owner, amounts[n], now);
      ExitSplit(w1, owner, amounts[n], now);
      NextPart(w, owner, amounts, w1, ExitAt(w1, owner, amounts[n], now), Run(w, calls), now);
    }
  }

  // ---- When the burned tokens agree ----

  /** Taking a total in parts, in whatever way, burns as many tokens as taking it at once. */
  ghost predicate BurnsAlike(w: World, owner: Key, total: nat, now: int) {
    forall amounts: seq<nat> | AllPositive(amounts) && Total(amounts) == total ::
      Run(w, Parts(owner, amounts, now)).tokens.burned == After(w, Withdraw(owner, total, now)).tokens.burned
  }

  lemma OnePart(w: World, owner: Key, total: nat, now: int)
    ensures Run(w, Parts(owner, [total], now)) == After(w, Withdraw(owner, total, now))
  {
    assert [total][..0] == [];
    var calls := Parts(owner, [], now) + [Withdraw(owner, total, now)];
    assert Parts(owner, [total], now) == calls && calls[..|calls| - 1] == [];
  }

  lemma WholeBurn(w: World, owner: Key, total: nat, now: int)
    requires 0 < total && Leaving(w, owner, total, now)
    ensures After(w, Withdraw(owner, total, now)).tokens.burned
         == w.tokens.burned + Burned(ConfigOf(w, owner), PositionOf(w, owner), [total])
  {
    TotalOfOne(total);
    OnePart(w, owner, total, now);
    PartsBurn(w, owner, [total], now);
  }

  /** Splitting up an early exit never burns more tokens than taking it at once. */
  lemma PartsNeverBurnMore(w: World, owner: Key, amounts: seq<nat>, now: int)
    requires AllPositive(amounts) && 0 < Total(amounts) && Leaving(w, owner, Total(amounts), now)
    ensures Run(w, Parts(owner, amounts, now)).tokens.burned
         <= After(w, Withdraw(owner, Total(amounts), now)).tokens.burned
  {
    LeavingOpen(w, owner, Total(amounts), now);
    WholeBurn(w, owner, Total(amounts), now);
    PartsBurn(w, owner, amounts, now);
    BurnsAtMost(ConfigOf(w, owner), PositionOf(w, owner), amounts, Total(amounts));
  }

  lemma PartsBurnAlike(w: World, owner: Key, amounts: seq<nat>, total: nat, now: int)
    requires 0 < total == Total(amounts) && AllPositive(amounts) && Leaving(w, owner, total, now)
    requires Dividing(w.config.policy.earlyExitPenaltyBps, w.config.policy.burnPenaltyBps)
    requires NothingRedirected(ConfigOf(w, owner), PositionOf(w, owner), total)
    ensures Run(w, Parts(owner, amounts, now)).tokens.burned == After(w, Withdraw(owner, total, now)).tokens.burned
  {
    var c, p := ConfigOf(w, owner), PositionOf(w, owner);
    LeavingOpen(w, owner, total, now);
    TotalOfOne(total);
    WholeBurn(w, owner, total, now);
    PartsBurn(w, owner, amounts, now);
    BurnsByTotal(c, p, amounts, total);
    BurnsByTotal(c, p, [total], total);
  }

  /**
   With dividing rates the parts of an early exit burn what the whole would if and only if eligible
   stake remains after the whole, or there was none before, or the reward share of all but one unit
   is nothing.
   */
  lemma BurnsAlikeIff(w: World, owner: Key, total: nat, now: int)
    requires 0 < total && Leaving(w, owner, total, now)
    requires Dividing(w.config.policy.earlyExitPenaltyBps, w.config.policy.burnPenaltyBps)
    ensures BurnsAlike(w, owner, total, now)
       <==> NothingRedirected(ConfigOf(w, owner), PositionOf(w, owner), total)
  {
    if NothingRedirected(ConfigOf(w, owner), PositionOf(w, owner), total) {
      forall amounts: seq<nat> | AllPositive(amounts) && Total(amounts) == total
        ensures Run(w, Parts(owner, amounts, now)).tokens.burned == After(w, Withdraw(owner, total, now)).tokens.burned
      {
        PartsBurnAlike(w, owner, amounts, total, now);
      }
    } else {
      LeavingOpen(w, owner, total, now);
      PartsDiffer(ConfigOf(w, owner), PositionOf(w, owner), total);
      TotalOfTwo(total - 1, 1);
      WholeBurn(w, owner, total, now);
      PartsBurn(w, owner, [total - 1, 1], now);
    }
  }

  /** The sole staker of four units at 5000 and 2500 basis points burns two at once and one in halves. */
  lemma SoleStakerExample(w: World, owner: Key, now: int)
    requires Leaving(w, owner, 4, now)
    requires w.config.policy.earlyExitPenaltyBps == 5000 && w.config.policy.burnPenaltyBps == 2500
    requires w.config.eligibleLocked == 4 && w.positions[owner].eligibleAmount == w.positions[owner].lockedAmount == 4
    requires w.positions[owner].penaltyRemainder == w.positions[owner].burnRemainder == 0
    ensures After(w, Withdraw(owner, 4, now)).tokens.burned == w.tokens.burned + 2
    ensures Run(w, Parts(owner, [2, 2], now)).tokens.burned == w.tokens.burned + 1
  {
    var c, p := ConfigOf(w, owner), PositionOf(w, owner);
    LookupOk(w, owner);
    LeavingOpen(w, owner, 4, now);
    TotalOfOne(2);
    TotalOfTwo(2, 2);
    WholeBurn(w, owner, 4, now);
    PartsBurn(w, owner, [2, 2], now);
    SoleStakerBurns(c, p);
  }

  lemma SoleStakerBurns(c: Config, p: Position)
    requires Open(c, p) && c.policy.earlyExitPenaltyBps == 5000 && c.policy.burnPenaltyBps == 2500
    requires c.eligibleLocked == p.eligibleAmount == p.lockedAmount == 4
    requires p.penaltyRemainder == p.burnRemainder == 0
    ensures Burned(c, p, [4]) == 2 && Burned(c, p, [2, 2]) == 1
  {
    TotalOfOne(2);
    TotalOfOne(4);
    TotalOfTwo(2, 2);
    assert [2, 2][..1] == [2] && [4][..0] == [] && [2][..0] == [];
    BulkIsOneSplit(2, 5000, 2500, 0, 0);
    BulkIsOneSplit(4, 5000, 2500, 0, 0);
    BurnsLast(c, p, [4]);
    BurnsLast(c, p, [2, 2]);
    PenaltyMatchesBulk([2, 2], 5000, 2500, 0, 0);
  }

  // ---- Over every reachable state ----

  /** Under this policy, in every reachable state, parts of an exit that leaves eligible stake burn alike. */
  ghost predicate PartsNeverMatter(policy: Policy) {
    forall g: World, calls: seq<Call>, owner: Key, total: nat, now: int |
      && Genesis(g) && g.config.policy == policy && CallsOk(calls)
      && 0 < total && Early(Run(g, calls), owner, total, now)
      && BaseAfter(ConfigOf(Run(g, calls), owner), PositionOf(Run(g, calls), owner), total) > 0 ::
      BurnsAlike(Run(g, calls), owner, total, now)
  }

  const NOBODY: Tokens := Tokens(0, 0, map[], 0)

  /** That is so exactly when the burn rate is zero or divides the penalty rate. */
  lemma PartsNeverMatterIff(policy: Policy)
    requires Initialized(policy, 0, NOBODY).Success?
    ensures PartsNeverMatter(policy) <==> Dividing(policy.earlyExitPenaltyBps, policy.burnPenaltyBps)
  {
    if Dividing(policy.earlyExitPenaltyBps, policy.burnPenaltyBps) {
      forall g: World, calls: seq<Call>, owner: Key, total: nat, now: int |
        && Genesis(g) && g.config.policy == policy && CallsOk(calls)
        && 0 < total && Early(Run(g, calls), owner, total, now)
        && BaseAfter(ConfigOf(Run(g, calls), owner), PositionOf(Run(g, calls), owner), total) > 0
        ensures BurnsAlike(Run(g, calls), owner, total, now)
      {
        GenesisFresh(g);
        RunSafe(g, calls);
        RunCarries(g, calls, owner);
        PolicyFixedOver(g, calls);
        BurnsAlikeIff(Run(g, calls), owner, total, now);
      }
    } else {
      var x := LossyAmount(policy.earlyExitPenaltyBps, policy.burnPenaltyBps);
      SoloReady(policy, x);
      SoloBurnsLess(Solo(policy), x);
    }
  }

  // ---- A reachable state for every policy ----

  const SOLO: Key := 0

  /** A deposit large enough for any policy, and to leave stake behind. */
  function Stake(policy: Policy): nat {
    Max(policy.minDepositAmount, BPS)
  }

  function SoloStart(policy: Policy): World {
    World(Config(policy, 0, 0, 0, 0, 0, 0, 0, 0, 0, 0, 0, 0, 0, 0, 0, 0, 0), map[],
          Tokens(0, 0, map[][SOLO := Stake(policy)], 0))
  }

  function SoloCalls(policy: Policy): seq<Call> {
    [Deposit(SOLO, Stake(policy), 0), Activate(SOLO, policy.activationDelaySeconds), Roll(policy.epochSeconds)]
  }

  function SoloConfig(policy: Policy, epoch: nat, warming: nat, pending: nat): Config {
    Config(policy, 0, epoch * policy.epochSeconds, epoch, Stake(policy), 0, warming, pending,
           0, 0, 0, 0, 0, 0, 0, 0, 0, 0)
  }

  function SoloPosition(policy: Policy, warming: nat, pending: nat): Position {
    Position(Stake(policy), 0, warming, pending, 0, 0, 0, 0, 0,
             policy.minLockSeconds, policy.activationDelaySeconds, 0, 0, 0)
  }

  function Solo(policy: Policy): World {
    Run(SoloStart(policy), SoloCalls(policy))
  }

  lemma SoloGenesis(policy: Policy)
    requires Initialized(policy, 0, NOBODY).Success?
    ensures Genesis(SoloStart(policy)) && CallsOk(SoloCalls(policy))
  {
    var none: map<Key, int> := map[];
    SumUpdate(none, SOLO, Stake(policy), Units());
    assert Sum(none, Units()) == 0;
    assert GenesisAt(SoloStart(policy), 0);
  }

  lemma SoloDeposits(policy: Policy)
    requires Initialized(policy, 0, NOBODY).Success?
    ensures var w := After(SoloStart(policy), Deposit(SOLO, Stake(policy), 0));
      && w.config == SoloConfig(policy, 0, 0, Stake(policy))
      && w.positions == map[][SOLO := SoloPosition(policy, 0, Stake(policy))]
  {
    SettledAlready(SoloStart(policy).config, SoloStart(policy).Lookup(SOLO));
  }

  lemma SoloActivates(policy: Policy, w: World)
    requires Initialized(policy, 0, NOBODY).Success?
    requires w.config == SoloConfig(policy, 0, 0, Stake(policy))
    requires w.positions == map[][SOLO := SoloPosition(policy, 0, Stake(policy))]
    ensures var w2 := After(After(w, Activate(SOLO, policy.activationDelaySeconds)), Roll(policy.epochSeconds));
      && w2.config == SoloConfig(policy, 1, Stake(policy), 0)
      && w2.positions == map[][SOLO := SoloPosition(policy, Stake(policy), 0)]
  {
    SettledAlready(w.config, w.positions[SOLO]);
  }

  lemma SoloRuns(policy: Policy)
    requires Initialized(policy, 0, NOBODY).Success?
    ensures Solo(policy).config == SoloConfig(policy, 1, Stake(policy), 0)
    ensures Solo(policy).positions == map[][SOLO := SoloPosition(policy, Stake(policy), 0)]
  {
    var g, calls := SoloStart(policy), SoloCalls(policy);
    SoloDeposits(policy);
    SoloActivates(policy, After(g, calls[0]));
    assert calls[..2][..1] == calls[..1] && calls[..1][..0] == [];
    assert Run(g, calls[..1]) == After(g, calls[0]);
    assert Run(g, calls[..2]) == After(After(g, calls[0]), calls[1]);
  }

  /** The sole staker's position is warming and due, so a withdrawal finds it eligible. */
  lemma SoloReady(policy: Policy, x: nat)
    requires Initialized(policy, 0, NOBODY).Success? && x < BPS
    ensures Genesis(SoloStart(policy)) && CallsOk(SoloCalls(policy))
    ensures Leaving(Solo(policy), SOLO, x, 0)
    ensures var w := Solo(policy);
      && w.config.policy == policy
      && BaseAfter(ConfigOf(w, SOLO), PositionOf(w, SOLO), x) > 0
      && w.positions[SOLO].penaltyRemainder == w.positions[SOLO].burnRemainder == 0
  {
    SoloGenesis(policy);
    GenesisFresh(SoloStart(policy));
    RunSafe(SoloStart(policy), SoloCalls(policy));
    SoloRuns(policy);
  }

  /** With eligible stake left, an amount whose burn share does not partition burns otherwise in parts. */
  lemma LossyBurns(c: Config, p: Position, x: nat)
    requires Open(c, p) && 2 <= x <= p.lockedAmount && BaseAfter(c, p, x) > 0
    requires SeriesOf(c, p, [x - 1, 1]).burn != SeriesOf(c, p, [x]).burn
    ensures Burned(c, p, [x - 1, 1]) != Burned(c, p, [x])
  {
    TotalOfOne(x);
    TotalOfTwo(x - 1, 1);
    BurnsShares(c, p, [x]);
    BurnsShares(c, p, [x - 1, 1]);
  }

  lemma SoloBurnsLess(w: World, x: nat)
    requires 2 <= x && Leaving(w, SOLO, x, 0)
    requires BaseAfter(ConfigOf(w, SOLO), PositionOf(w, SOLO), x) > 0
    requires w.positions[SOLO].penaltyRemainder == w.positions[SOLO].burnRemainder == 0
    requires var bps, burnBps := w.config.policy.earlyExitPenaltyBps, w.config.policy.burnPenaltyBps;
      Series([x - 1, 1], bps, burnBps, 0, 0).burn != Bulk([x - 1, 1], bps, burnBps, 0, 0).burn
    ensures !BurnsAlike(w, SOLO, x, 0)
  {
    LeavingOpen(w, SOLO, x, 0);
    TotalOfTwo(x - 1, 1);
    LossyBurns(ConfigOf(w, SOLO), PositionOf(w, SOLO), x);
    WholeBurn(w, SOLO, x, 0);
    PartsBurn(w, SOLO, [x - 1, 1], 0);
  }
}
