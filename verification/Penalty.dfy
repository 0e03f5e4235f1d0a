/**
 The penalty split over sequences of early withdrawals, with its carried remainders. The burn share
 here is what penalty_split returns; what a withdrawal burns is in PartialExits.
 */
module Penalty {
  import opened Arithmetic
  import opened Checked
  import opened State
  import opened Spec
  import opened Residues

  /** Totals of a series of splits, and the remainders it leaves. */
  datatype Sums = Sums(penalty: int, burn: int, penaltyRemainder: int, burnRemainder: int)

  function Series(amounts: seq<nat>, bps: nat, burnBps: nat, penaltyRem: int, burnRem: int): Sums {
    if amounts == [] then Sums(0, 0, penaltyRem, burnRem)
    else
      var n := |amounts| - 1;
      var before := Series(amounts[..n], bps, burnBps, penaltyRem, burnRem);
      var s := PenaltySplit(amounts[n], bps, burnBps, before.penaltyRemainder, before.burnRemainder);
      Sums(before.penalty + s.reward + s.burn, before.burn + s.burn, s.penaltyRemainder, s.burnRemainder)
  }

  function Total(amounts: seq<nat>): nat {
    if amounts == [] then 0 else Total(amounts[..|amounts| - 1]) + amounts[|amounts| - 1]
  }

  predicate RatesOk(bps: nat, burnBps: nat) {
    burnBps <= bps <= MAX_EARLY_EXIT_PENALTY_BPS
  }

  predicate RemaindersOk(penaltyRem: int, burnRem: int) {
    0 <= penaltyRem < BPS && 0 <= burnRem < BPS
  }

  // ---- One split ----

  lemma ShareBounds(amount: nat, bps: nat, rem: int)
    requires bps <= MAX_EARLY_EXIT_PENALTY_BPS && 0 <= rem < BPS
    ensures 0 <= amount * bps
    ensures (amount * bps + rem) / BPS <= amount
  {
    ProductNonNegative(amount, bps);
    ProductNonNegative(amount, MAX_EARLY_EXIT_PENALTY_BPS - bps);
  }

  /** The clamp to the withdrawn amount never fires, so no unit of penalty is lost in a split. */
  lemma SplitExact(amount: nat, bps: nat, burnBps: nat, penaltyRem: int, burnRem: int)
    requires RatesOk(bps, burnBps) && RemaindersOk(penaltyRem, burnRem)
    ensures var s := PenaltySplit(amount, bps, burnBps, penaltyRem, burnRem);
      && BPS * (s.reward + s.burn) + s.penaltyRemainder == amount * bps + penaltyRem
      && RemaindersOk(s.penaltyRemainder, s.burnRemainder)
      && 0 <= s.burn <= s.reward + s.burn <= amount
  {
    ShareBounds(amount, bps, penaltyRem);
    ShareBounds(amount, burnBps, burnRem);
  }

  /** The burn share is at most its own cumulative part, whose remainder is carried exactly. */
  lemma BurnExact(amount: nat, bps: nat, burnBps: nat, penaltyRem: int, burnRem: int)
    requires RatesOk(bps, burnBps) && RemaindersOk(penaltyRem, burnRem) && 0 < burnBps
    ensures var s := PenaltySplit(amount, bps, burnBps, penaltyRem, burnRem);
      && BPS * s.burn + s.burnRemainder <= amount * burnBps + burnRem
      && s.burnRemainder == (amount * burnBps + burnRem) % BPS
  {
    ShareBounds(amount, burnBps, burnRem);
  }

  /** The split loses nothing of the burn share unless the whole penalty is burned. */
  lemma BurnLosesNothing(amount: nat, bps: nat, burnBps: nat, penaltyRem: int, burnRem: int)
    requires RatesOk(bps, burnBps) && RemaindersOk(penaltyRem, burnRem) && 0 < burnBps
    ensures var s := PenaltySplit(amount, bps, burnBps, penaltyRem, burnRem);
      s.reward == 0 || BPS * s.burn + s.burnRemainder == amount * burnBps + burnRem
  {
    ShareBounds(amount, bps, penaltyRem);
    ShareBounds(amount, burnBps, burnRem);
  }

  // ---- Partition invariance of the penalty ----

  /** The total penalty and the final remainder depend only on the total withdrawn. */
  lemma {:induction false} PenaltyPartition(amounts: seq<nat>, bps: nat, burnBps: nat, penaltyRem: int, burnRem: int)
    requires RatesOk(bps, burnBps) && RemaindersOk(penaltyRem, burnRem)
    ensures var t := Series(amounts, bps, burnBps, penaltyRem, burnRem);
      && BPS * t.penalty + t.penaltyRemainder == Total(amounts) * bps + penaltyRem
      && RemaindersOk(t.penaltyRemainder, t.burnRemainder)
      && 0 <= t.burn <= t.penalty
  {
    if amounts != [] {
      var n := |amounts| - 1;
      PenaltyPartition(amounts[..n], bps, burnBps, penaltyRem, burnRem);
      var before := Series(amounts[..n], bps, burnBps, penaltyRem, burnRem);
      SplitExact(amounts[n], bps, burnBps, before.penaltyRemainder, before.burnRemainder);
      Distribute(Total(amounts[..n]), amounts[n], bps);
    }
  }

  function Bulk(amounts: seq<nat>, bps: nat, burnBps: nat, penaltyRem: int, burnRem: int): Sums {
    Series([Total(amounts)], bps, burnBps, penaltyRem, burnRem)
  }

  lemma BulkIsOneSplit(total: nat, bps: nat, burnBps: nat, penaltyRem: int, burnRem: int)
    ensures var s := PenaltySplit(total, bps, burnBps, penaltyRem, burnRem);
      Series([total], bps, burnBps, penaltyRem, burnRem)
      == Sums(s.reward + s.burn, s.burn, s.penaltyRemainder, s.burnRemainder)
  {
    assert [total][..0] == [];
  }

  lemma PenaltyMatchesBulk(amounts: seq<nat>, bps: nat, burnBps: nat, penaltyRem: int, burnRem: int)
    requires RatesOk(bps, burnBps) && RemaindersOk(penaltyRem, burnRem)
    ensures Series(amounts, bps, burnBps, penaltyRem, burnRem).penalty
         == Bulk(amounts, bps, burnBps, penaltyRem, burnRem).penalty
    ensures Series(amounts, bps, burnBps, penaltyRem, burnRem).penaltyRemainder
         == Bulk(amounts, bps, burnBps, penaltyRem, burnRem).penaltyRemainder
  {
    PenaltyPartition(amounts, bps, burnBps, penaltyRem, burnRem);
    SplitExact(Total(amounts), bps, burnBps, penaltyRem, burnRem);
    BulkIsOneSplit(Total(amounts), bps, burnBps, penaltyRem, burnRem);
  }

  // ---- The burn share under partitioning ----

  lemma CarryMod(sum: int, rem: int, step: int)
    requires rem == sum % BPS
    ensures (step + rem) % BPS == (sum + step) % BPS
  {
    ModSum(sum, step);
    ModSum(rem, step);
  }

  lemma {:induction false} BurnSeries(amounts: seq<nat>, bps: nat, burnBps: nat, penaltyRem: int, burnRem: int)
    requires RatesOk(bps, burnBps) && RemaindersOk(penaltyRem, burnRem) && 0 < burnBps
    ensures var t := Series(amounts, bps, burnBps, penaltyRem, burnRem);
      && BPS * t.burn + t.burnRemainder <= Total(amounts) * burnBps + burnRem
      && t.burnRemainder == (Total(amounts) * burnBps + burnRem) % BPS
  {
    if amounts != [] {
      var n := |amounts| - 1;
      BurnSeries(amounts[..n], bps, burnBps, penaltyRem, burnRem);
      PenaltyPartition(amounts[..n], bps, burnBps, penaltyRem, burnRem);
      var before := Series(amounts[..n], bps, burnBps, penaltyRem, burnRem);
      BurnExact(amounts[n], bps, burnBps, before.penaltyRemainder, before.burnRemainder);
      Distribute(Total(amounts[..n]), amounts[n], burnBps);
      var s := PenaltySplit(amounts[n], bps, burnBps, before.penaltyRemainder, before.burnRemainder);
      AddShare(Total(amounts[..n]) * burnBps + burnRem, before.burn, before.burnRemainder,
               amounts[n] * burnBps, s.burn, s.burnRemainder);
    }
  }

  /** Two burn shares at most their due, the second from what the first carries, are together. */
  lemma AddShare(due: int, burn: int, rem: int, more: int, burn': int, rem': int)
    requires BPS * burn + rem <= due && rem == due % BPS
    requires BPS * burn' + rem' <= more + rem && rem' == (more + rem) % BPS
    ensures BPS * (burn + burn') + rem' <= due + more && rem' == (due + more) % BPS
  {
    CarryMod(due, rem, more);
  }

  /** Splitting up a withdrawal never raises the sum of its burn shares. */
  lemma BurnNeverAboveBulk(amounts: seq<nat>, bps: nat, burnBps: nat, penaltyRem: int, burnRem: int)
    requires RatesOk(bps, burnBps) && RemaindersOk(penaltyRem, burnRem)
    ensures Series(amounts, bps, burnBps, penaltyRem, burnRem).burn
         <= Bulk(amounts, bps, burnBps, penaltyRem, burnRem).burn
  {
    PenaltyMatchesBulk(amounts, bps, burnBps, penaltyRem, burnRem);
    PenaltyPartition(amounts, bps, burnBps, penaltyRem, burnRem);
    BulkIsOneSplit(Total(amounts), bps, burnBps, penaltyRem, burnRem);
    ShareBounds(Total(amounts), bps, penaltyRem);
    if burnBps == 0 {
      NoBurnRate(amounts, bps, penaltyRem, burnRem);
    } else {
      BurnSeries(amounts, bps, burnBps, penaltyRem, burnRem);
    }
  }

  lemma {:induction false} NoBurnRate(amounts: seq<nat>, bps: nat, penaltyRem: int, burnRem: int)
    ensures Series(amounts, bps, 0, penaltyRem, burnRem).burn == 0
  {
    if amounts != [] {
      NoBurnRate(amounts[..|amounts| - 1], bps, penaltyRem, burnRem);
    }
  }

  // ---- When splitting up loses no burn share at all ----

  /** The burn rate is zero or divides the penalty rate. */
  predicate Dividing(bps: nat, burnBps: nat) {
    burnBps == 0 || bps % burnBps == 0
  }

  /** How the two carried remainders of a position hang together in every reachable state. */
  predicate Linked(bps: nat, burnBps: nat, penaltyRem: int, burnRem: int) {
    && RemaindersOk(penaltyRem, burnRem)
    && (bps == 0 ==> penaltyRem == 0)
    && (burnBps == 0 ==> burnRem == 0)
    && (burnBps > 0 && bps % burnBps == 0 ==> penaltyRem == (bps / burnBps) * burnRem % BPS)
  }

  /** With p = k * b and linked remainders, the burn never exceeds the penalty and the link is kept. */
  lemma LinkedSplit(amount: nat, k: nat, b: nat, p: nat, penaltyRem: int, burnRem: int)
    requires 0 < b && 0 < k && p == k * b <= MAX_EARLY_EXIT_PENALTY_BPS
    requires 0 <= burnRem < BPS && penaltyRem == k * burnRem % BPS
    ensures var burn, rem := (amount * b + burnRem) / BPS, (amount * b + burnRem) % BPS;
      && burn <= (amount * p + penaltyRem) / BPS
      && (amount * p + penaltyRem) % BPS == k * rem % BPS
  {
    ProductNonNegative(amount, b);
    assert amount * p == k * (amount * b);
    LinkedShares(k, amount * b, amount * p, burnRem);
  }

  lemma LinkedShares(k: nat, share: nat, kShare: int, burnRem: int)
    requires 0 < k && kShare == k * share && 0 <= burnRem < BPS
    ensures var burn, rem := (share + burnRem) / BPS, (share + burnRem) % BPS;
      && burn <= (kShare + k * burnRem % BPS) / BPS
      && (kShare + k * burnRem % BPS) % BPS == k * rem % BPS
  {
    var burn, rem := (share + burnRem) / BPS, (share + burnRem) % BPS;
    assert share + burnRem == burn * BPS + rem;
    Distribute(share, burnRem, k);
    Distribute(burn * BPS, rem, k);
    assert kShare + k * burnRem == (k * burn) * BPS + k * rem;
    LinkedProducts(k, burn, burnRem, rem);
    LinkedQuotient(k, burn, k * burn, k * burnRem, k * rem);
    DropMultiple(k * rem, k * burn - k * burnRem / BPS);
  }

  lemma LinkedProducts(k: nat, burn: int, burnRem: int, rem: int)
    requires 0 < k && 0 <= burn && 0 <= burnRem < BPS && 0 <= rem
    requires burn == 0 ==> burnRem <= rem
    ensures 0 <= k * rem && 0 <= k * burnRem < k * BPS
    ensures burn == 0 ==> k * burn == 0 && k * burnRem <= k * rem
    ensures burn > 0 ==> k + burn - 1 <= k * burn
  {
    ProductNonNegative(k, rem);
    ProductNonNegative(k, burnRem);
    ProductNonNegative(k, BPS - 1 - burnRem);
    if burn == 0 {
      ProductNonNegative(k, rem - burnRem);
    } else {
      ProductNonNegative(k - 1, burn - 1);
    }
  }

  lemma LinkedQuotient(k: nat, burn: int, kBurn: int, kBurnRem: int, kRem: int)
    requires 0 <= burn && 0 <= kRem && 0 <= kBurnRem < k * BPS
    requires burn == 0 ==> kBurn == 0 && kBurnRem <= kRem
    requires burn > 0 ==> k + burn - 1 <= kBurn
    ensures burn <= (kBurn * BPS + kRem - kBurnRem + kBurnRem % BPS) / BPS
  {}

  /** A split keeps the remainders linked; with a dividing rate it rounds nothing away from the burn share. */
  lemma SplitLinks(amount: nat, bps: nat, burnBps: nat, penaltyRem: int, burnRem: int)
    requires RatesOk(bps, burnBps) && Linked(bps, burnBps, penaltyRem, burnRem)
    ensures var s := PenaltySplit(amount, bps, burnBps, penaltyRem, burnRem);
      && Linked(bps, burnBps, s.penaltyRemainder, s.burnRemainder)
      && (Dividing(bps, burnBps) ==> BPS * s.burn + s.burnRemainder == amount * burnBps + burnRem)
  {
    SplitExact(amount, bps, burnBps, penaltyRem, burnRem);
    if burnBps > 0 && bps % burnBps == 0 {
      var k := bps / burnBps;
      DivMod(bps, burnBps);
      ShareBounds(amount, bps, penaltyRem);
      LinkedSplit(amount, k, burnBps, bps, penaltyRem, burnRem);
    }
  }

  /** So does a whole series. */
  lemma {:induction false} SeriesLinks(amounts: seq<nat>, bps: nat, burnBps: nat, penaltyRem: int, burnRem: int)
    requires RatesOk(bps, burnBps) && Linked(bps, burnBps, penaltyRem, burnRem)
    ensures var t := Series(amounts, bps, burnBps, penaltyRem, burnRem);
      && Linked(bps, burnBps, t.penaltyRemainder, t.burnRemainder)
      && (Dividing(bps, burnBps) ==> BPS * t.burn + t.burnRemainder == Total(amounts) * burnBps + burnRem)
  {
    if amounts != [] {
      var n := |amounts| - 1;
      SeriesLinks(amounts[..n], bps, burnBps, penaltyRem, burnRem);
      var before := Series(amounts[..n], bps, burnBps, penaltyRem, burnRem);
      SplitLinks(amounts[n], bps, burnBps, before.penaltyRemainder, before.burnRemainder);
      Distribute(Total(amounts[..n]), amounts[n], burnBps);
    }
  }

  lemma DividingMatchesBulk(amounts: seq<nat>, bps: nat, burnBps: nat, penaltyRem: int, burnRem: int)
    requires RatesOk(bps, burnBps) && Dividing(bps, burnBps) && Linked(bps, burnBps, penaltyRem, burnRem)
    ensures Series(amounts, bps, burnBps, penaltyRem, burnRem).burn
         == Bulk(amounts, bps, burnBps, penaltyRem, burnRem).burn
  {
    SeriesLinks(amounts, bps, burnBps, penaltyRem, burnRem);
    SplitLinks(Total(amounts), bps, burnBps, penaltyRem, burnRem);
    BulkIsOneSplit(Total(amounts), bps, burnBps, penaltyRem, burnRem);
  }

  // ---- And when it loses some ----

  /** At x the burn share steps up and the penalty share does not. */
  lemma StepFacts(b: nat, p: nat, x: nat)
    requires 0 < b <= p <= MAX_EARLY_EXIT_PENALTY_BPS
    requires R(b, x) < b && p <= R(p, x)
    ensures 2 <= x
    ensures x * b / BPS == (x - 1) * b / BPS + 1
    ensures x * p / BPS == (x - 1) * p / BPS
    ensures (x - 1) * p % BPS + p < BPS
  {
    assert x != 0 && x != 1;
    assert x * b == b * x && x * p == p * x;
    assert (x - 1) * b == x * b - b && (x - 1) * p == x * p - p;
  }

  lemma SplitAtStep(b: nat, p: nat, x: nat)
    requires 0 < b <= p <= MAX_EARLY_EXIT_PENALTY_BPS
    requires R(b, x) < b && p <= R(p, x)
    ensures 2 <= x
    ensures Series([x - 1, 1], p, b, 0, 0).burn == Bulk([x - 1, 1], p, b, 0, 0).burn - 1
  {
    StepFacts(b, p, x);
    var both := [x - 1, 1];
    assert both[..1] == [x - 1] && both[1] == 1;
    BulkIsOneSplit(x - 1, p, b, 0, 0);
    SplitFromZero(x - 1, p, b);
    var first := PenaltySplit(x - 1, p, b, 0, 0);
    NoPenaltyNoBurn(p, b, first.penaltyRemainder, first.burnRemainder);
    TotalOfTwo(x - 1, 1);
    BulkIsOneSplit(x, p, b, 0, 0);
    SplitFromZero(x, p, b);
  }

  lemma SplitFromZero(amount: nat, p: nat, b: nat)
    requires 0 < b <= p <= MAX_EARLY_EXIT_PENALTY_BPS
    ensures PenaltySplit(amount, p, b, 0, 0).burn == amount * b / BPS
    ensures PenaltySplit(amount, p, b, 0, 0).penaltyRemainder == amount * p % BPS
  {
    ShareOrder(amount, b, p);
    ShareBounds(amount, p, 0);
  }

  lemma NoPenaltyNoBurn(p: nat, b: nat, penaltyRem: int, burnRem: int)
    requires 0 < b <= p && 0 <= penaltyRem && penaltyRem + p < BPS && 0 <= burnRem
    ensures PenaltySplit(1, p, b, penaltyRem, burnRem).burn == 0
  {}

  lemma TotalOfTwo(x: nat, y: nat)
    ensures Total([x, y]) == x + y
  {
    TotalOfOne(x);
    assert [x, y][..1] == [x];
  }

  lemma ShareOrder(amount: nat, b: nat, p: nat)
    requires b <= p
    ensures 0 <= amount * b / BPS <= amount * p / BPS
  {
    ProductNonNegative(amount, b);
    ProductNonNegative(amount, p - b);
  }

  predicate AllPositive(amounts: seq<nat>) {
    forall i | 0 <= i < |amounts| :: 0 < amounts[i]
  }

  /**
   However an amount is split up, from whatever remainders a position can carry, the burn shares add
   up to the burn share of the whole.
   */
  ghost predicate BurnPartitions(bps: nat, burnBps: nat) {
    forall amounts: seq<nat>, penaltyRem: int, burnRem: int |
      Linked(bps, burnBps, penaltyRem, burnRem) && AllPositive(amounts) && Total(amounts) <= U64_MAX ::
      Series(amounts, bps, burnBps, penaltyRem, burnRem).burn == Bulk(amounts, bps, burnBps, penaltyRem, burnRem).burn
  }

  lemma TotalOfOne(x: nat)
    ensures Total([x]) == x
  {
    assert [x][..0] == [];
  }

  /**
   The cumulative burn share is independent of how an amount is split up exactly when the burn rate is
   zero or divides the penalty rate.
   */
  lemma BurnPartitionsIff(bps: nat, burnBps: nat)
    requires RatesOk(bps, burnBps)
    ensures BurnPartitions(bps, burnBps) <==> Dividing(bps, burnBps)
  {
    if Dividing(bps, burnBps) {
      forall amounts: seq<nat>, penaltyRem: int, burnRem: int | Linked(bps, burnBps, penaltyRem, burnRem)
        ensures Series(amounts, bps, burnBps, penaltyRem, burnRem).burn
             == Bulk(amounts, bps, burnBps, penaltyRem, burnRem).burn
      {
        DividingMatchesBulk(amounts, bps, burnBps, penaltyRem, burnRem);
      }
    } else {
      var x := LossyAmount(bps, burnBps);
      TotalOfTwo(x - 1, 1);
    }
  }

  /** Otherwise some amount below 10000 burns one less in two parts than at once. */
  lemma LossyAmount(bps: nat, burnBps: nat) returns (x: nat)
    requires RatesOk(bps, burnBps) && !Dividing(bps, burnBps)
    ensures 2 <= x < BPS
    ensures Series([x - 1, 1], bps, burnBps, 0, 0).burn == Bulk([x - 1, 1], bps, burnBps, 0, 0).burn - 1
  {
    if forall x: nat :: StepsUp(burnBps, x) ==> StepsUp(bps, x) {
      CoveredDivides(burnBps, bps);
      assert false;
    }
    var y: nat :| StepsUp(burnBps, y) && !StepsUp(bps, y);
    RPeriodic(burnBps, y);
    RPeriodic(bps, y);
    x := y % BPS;
    SplitAtStep(burnBps, bps, x);
  }

  /** A concrete loss: at 5000 and 3334 basis points, 1 + 1 + 1 burns less than 3. */
  lemma BurnLossExample()
    ensures Series([1, 1, 1], 5000, 3334, 0, 0).burn < Bulk([1, 1, 1], 5000, 3334, 0, 0).burn
  {
    var ones := [1, 1, 1];
    assert ones[..2] == [1, 1] && [1, 1][..1] == [1] && [1][..0] == [];
    TotalOfTwo(1, 1);
    BulkIsOneSplit(1, 5000, 3334, 0, 0);
    BulkIsOneSplit(3, 5000, 3334, 0, 0);
    assert Series([1, 1], 5000, 3334, 0, 0) == Sums(1, 0, 0, 6668);
  }
}
