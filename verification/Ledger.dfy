/**
 The exact books of a run, kept by the simple method: every position is credited at every batch.
 The program's lazy accumulator and saturating counters are compared with these books.
 */
module Ledger {
  import opened Checked
  import opened State
  import opened Spec
  import opened Safety
  import opened Preservation
  import opened MapSum

  /**
   credited: per owner, its eligible stake after each batch's step times that batch's index delta
   paid:     per owner, reward tokens received
   dropped:  per owner, scaled fractions given up at full exits
   dust:     residues, dropped fractions and donations since the last finalization, scaled
   The rest are unsaturated totals. The pool's and vault's opening balances count as donated.
   */
  datatype Book = Book(
    credited: map<Key, int>,
    paid: map<Key, int>,
    dropped: map<Key, int>,
    dust: int,
    funded: int,
    redistributed: int,
    committed: int,
    claimed: int,
    expired: int,
    penalties: int,
    burned: int,
    donated: int,
    vaultSurplus: int,
    denominators: int,
    exits: int)

  function Get(m: map<Key, int>, k: Key): int {
    if k in m then m[k] else 0
  }

  function Opening(w: World): Book {
    Book(map[], map[], map[], w.tokens.pool * SCALE, 0, 0, 0, 0, 0, 0, 0, w.tokens.pool, w.tokens.vault, 0, 0)
  }

  /** The eager form: one pass over all positions at each batch. */
  function CreditAll(b: Book, o: Outcome): Book {
    var d := BatchDelta(o.batch, o.base);
    b.(credited := map k | k in o.world.positions :: Get(b.credited, k) + o.world.positions[k].eligibleAmount * d,
       dust := b.dust + Residue(o.batch, o.base),
       denominators := b.denominators + (if o.batch > 0 then o.base else 0),
       committed := b.committed + (if d > 0 then o.batch else 0))
  }

  function Pay(b: Book, owner: Key, amount: int): Book {
    b.(paid := b.paid[owner := Get(b.paid, owner) + amount], claimed := b.claimed + amount)
  }

  function Leave(b: Book, owner: Key, fraction: int): Book {
    b.(dropped := b.dropped[owner := Get(b.dropped, owner) + fraction],
       dust := b.dust + fraction,
       exits := b.exits + 1)
  }

  /** The entry for a call that succeeded with outcome o. */
  function Enter(b: Book, w: World, call: Call, o: Outcome): Book {
    var credited := CreditAll(b, o);
    match call
    case Fund(_, amount, _) => credited.(funded := b.funded + amount)
    case Claim(owner) => Pay(credited, owner, o.paid)
    case Withdraw(owner, amount, _) =>
      var burned := o.world.tokens.burned - w.tokens.burned;
      var settled := Pay(credited, owner, o.paid).(
        redistributed := b.redistributed + o.batch,
        penalties := b.penalties + o.batch + burned,
        burned := b.burned + burned);
      if o.world.Lookup(owner).lockedAmount == 0 then Leave(settled, owner, Fraction(w, owner)) else settled
    case Finalize =>
      credited.(expired := b.expired + w.tokens.pool, burned := b.burned + w.tokens.pool, dust := 0)
    case Send(_, to, amount) =>
      (match to
       case Pool => credited.(donated := b.donated + amount, dust := b.dust + amount * SCALE)
       case Vault => credited.(vaultSurplus := b.vaultSurplus + amount)
       case Wallet(_) => credited)
    case _ => credited
  }

  function Record(b: Book, w: World, call: Call): Book {
    match Step(w, call)
    case Failure(_) => b
    case Success(o) => Enter(b, w, call, o)
  }

  function Books(w: World, calls: seq<Call>): Book {
    if calls == [] then Opening(w)
    else
      var n := |calls| - 1;
      Record(Books(w, calls[..n]), Run(w, calls[..n]), calls[n])
  }

  // ---- What one call does to one owner ----

  function PaidTo(w: World, call: Call, owner: Key): int {
    match Step(w, call)
    case Failure(_) => 0
    case Success(o) => if (call.Claim? || call.Withdraw?) && call.owner == owner then o.paid else 0
  }

  function DroppedBy(w: World, call: Call, owner: Key): int {
    if call.Withdraw? && call.owner == owner && Step(w, call).Success?
       && After(w, call).Lookup(owner).lockedAmount == 0
    then Fraction(w, owner)
    else 0
  }

  lemma WithdrawFlow(w: World, owner: Key, amount: nat, now: int)
    requires Safe(w) && WithdrawStep(w, owner, amount, now).Success?
    ensures var o := WithdrawStep(w, owner, amount, now).value;
      && (o.world.Lookup(owner).lockedAmount == 0 <==> amount == w.Lookup(owner).lockedAmount)
      && Liability(o.world.Lookup(owner), w.config.Index())
         == Liability(w.Lookup(owner), w.config.Index()) - o.paid * SCALE
            - (if amount == w.Lookup(owner).lockedAmount then Fraction(w, owner) else 0)
  {
    var p := w.Lookup(owner);
    var c1, p1 := TouchedConfig(w.config, p), TouchedPosition(w.config, p);
    TouchKeepsLiability(w.config, p);
    ExitLiability(c1, p1, amount, ExitOf(c1, p1, amount, now));
  }

  lemma ClaimFlow(w: World, owner: Key)
    requires ClaimStep(w, owner).Success?
    ensures var o := ClaimStep(w, owner).value;
      Liability(o.world.Lookup(owner), w.config.Index())
      == Liability(w.Lookup(owner), w.config.Index()) - o.paid * SCALE
  {
    var p := w.Lookup(owner);
    var c1, p1 := TouchedConfig(w.config, p), TouchedPosition(w.config, p);
    TouchKeepsLiability(w.config, p);
    AtCheckpoint(c1, PaidPosition(p1, p1.pendingRewards));
  }

  lemma DepositFlow(w: World, owner: Key, amount: nat, now: int)
    requires DepositStep(w, owner, amount, now).Success?
    ensures Liability(DepositStep(w, owner, amount, now).value.world.Lookup(owner), w.config.Index())
         == Liability(w.Lookup(owner), w.config.Index())
  {
    var p := w.Lookup(owner);
    var c1, p1 := TouchedConfig(w.config, p), TouchedPosition(w.config, p);
    TouchKeepsLiability(w.config, p);
    AtCheckpoint(c1, DepositedPosition(w.config.policy, p1, amount, now));
  }

  lemma ActivateFlow(w: World, owner: Key, now: int)
    requires ActivateStep(w, owner, now).Success?
    ensures Liability(ActivateStep(w, owner, now).value.world.Lookup(owner), w.config.Index())
         == Liability(w.Lookup(owner), w.config.Index())
  {
    var p := w.Lookup(owner);
    var c1, p1 := TouchedConfig(w.config, p), TouchedPosition(w.config, p);
    TouchKeepsLiability(w.config, p);
    AtCheckpoint(c1, ActivatedPosition(c1, p1));
  }

  /** Other calls leave an owner's record alone. */
  lemma OthersFlow(w: World, call: Call, owner: Key)
    requires (call.Deposit? || call.Activate? || call.Claim? || call.Withdraw?) ==> call.owner != owner
    ensures Liability(After(w, call).Lookup(owner), w.config.Index()) == Liability(w.Lookup(owner), w.config.Index())
  {
    if owner !in w.positions {
      NoEligibleLiability(Blank(w.config), w.config.Index());
      NoEligibleLiability(Blank(After(w, call).config), w.config.Index());
    }
  }

  /** Before the index moves, a call changes an owner's claim only by what it pays or drops. */
  lemma OwnerFlow(w: World, call: Call, owner: Key)
    requires Safe(w)
    ensures Liability(After(w, call).Lookup(owner), w.config.Index())
         == Liability(w.Lookup(owner), w.config.Index())
            - PaidTo(w, call, owner) * SCALE - DroppedBy(w, call, owner)
  {
    if Step(w, call).Success? {
      if (call.Deposit? || call.Activate? || call.Claim? || call.Withdraw?) && call.owner == owner {
        match call
        case Deposit(_, amount, now) => DepositFlow(w, owner, amount, now);
        case Activate(_, now) => ActivateFlow(w, owner, now);
        case Claim(_) => ClaimFlow(w, owner);
        case Withdraw(_, amount, now) => WithdrawFlow(w, owner, amount, now);
      } else {
        OthersFlow(w, call, owner);
      }
    }
  }

  /** The index moves by the delta of the call's batch, measured on the eligible stake after it. */
  lemma IndexFlow(w: World, call: Call)
    requires Safe(w) && CallOk(call) && Step(w, call).Success?
    ensures var o := Step(w, call).value;
      && o.world.config.Index() == w.config.Index() + BatchDelta(o.batch, o.base)
      && 0 <= o.batch && 0 <= o.base && (o.base == 0 ==> o.batch == 0) && 0 <= o.paid
      && 0 <= BatchDelta(o.batch, o.base)
      && (o.batch > 0 ==> o.world.config.eligibleLocked == o.base)
  {
    match call
    case Deposit(owner, amount, now) => DepositKeeps(w, owner, amount, now);
    case Activate(owner, now) => ActivateKeeps(w, owner, now);
    case Fund(funder, amount, expected) =>
      FundKeeps(w, funder, amount, expected);
      BatchExact(amount, w.config.eligibleLocked);
    case Roll(now) => RollKeeps(w, now);
    case Claim(owner) => ClaimKeeps(w, owner);
    case Withdraw(owner, amount, now) =>
      WithdrawKeeps(w, owner, amount, now);
      BatchExact(Step(w, call).value.batch, Step(w, call).value.base);
    case Finalize => FinalizeKeeps(w);
    case Send(sender, to, amount) => SendKeeps(w, sender, to, amount);
  }

  // ---- Lazy refines eager ----

  /** What the lazy form owes, has paid and has dropped is what the eager form credited. */
  predicate Balanced(w: World, b: Book, owner: Key) {
    Liability(w.Lookup(owner), w.config.Index()) + Get(b.paid, owner) * SCALE + Get(b.dropped, owner)
    == Get(b.credited, owner)
  }

  lemma RecordPaid(b: Book, w: World, call: Call, owner: Key)
    ensures Get(Record(b, w, call).paid, owner) == Get(b.paid, owner) + PaidTo(w, call, owner)
  {}

  lemma RecordDropped(b: Book, w: World, call: Call, owner: Key)
    ensures Get(Record(b, w, call).dropped, owner) == Get(b.dropped, owner) + DroppedBy(w, call, owner)
  {}

  lemma RecordCredited(b: Book, w: World, call: Call, owner: Key)
    requires Step(w, call).Success?
    requires owner !in w.positions ==> Get(b.credited, owner) == 0
    ensures var o := Step(w, call).value;
      && Get(Record(b, w, call).credited, owner)
         == Get(b.credited, owner) + o.world.Lookup(owner).eligibleAmount * BatchDelta(o.batch, o.base)
      && (owner !in o.world.positions ==> Get(Record(b, w, call).credited, owner) == 0)
  {
    var o := Step(w, call).value;
    assert Record(b, w, call).credited == CreditAll(b, o).credited;
    if owner !in o.world.positions {
      PositionsGrow(w, call);
      assert 0 * BatchDelta(o.batch, o.base) == 0;
    }
  }

  lemma PositionsGrow(w: World, call: Call)
    ensures w.positions.Keys <= After(w, call).positions.Keys
  {}

  lemma Rebalance(w: World, b: Book, w': World, b': Book, owner: Key, paid: int, dropped: int, d: int)
    requires Balanced(w, b, owner)
    requires w'.config.Index() == w.config.Index() + d
    requires Liability(w'.Lookup(owner), w.config.Index())
          == Liability(w.Lookup(owner), w.config.Index()) - paid * SCALE - dropped
    requires Get(b'.paid, owner) == Get(b.paid, owner) + paid
    requires Get(b'.dropped, owner) == Get(b.dropped, owner) + dropped
    requires Get(b'.credited, owner) == Get(b.credited, owner) + w'.Lookup(owner).eligibleAmount * d
    ensures Balanced(w', b', owner)
  {
    LiabilityGrows(w'.Lookup(owner), w.config.Index(), d);
  }

  lemma StepBalanced(w: World, b: Book, call: Call, owner: Key)
    requires Safe(w) && CallOk(call)
    requires Balanced(w, b, owner)
    requires owner !in w.positions ==> Get(b.credited, owner) == 0
    ensures Balanced(After(w, call), Record(b, w, call), owner)
    ensures owner !in After(w, call).positions ==> Get(Record(b, w, call).credited, owner) == 0
  {
    if Step(w, call).Success? {
      var o := Step(w, call).value;
      OwnerFlow(w, call, owner);
      IndexFlow(w, call);
      RecordPaid(b, w, call, owner);
      RecordDropped(b, w, call, owner);
      RecordCredited(b, w, call, owner);
      Rebalance(w, b, o.world, Record(b, w, call), owner,
                PaidTo(w, call, owner), DroppedBy(w, call, owner), BatchDelta(o.batch, o.base));
    }
  }

  /**
   Over every run of every instruction, index wraps included, the lazy accumulator agrees with
   crediting each position at each batch, up to the fractions dropped at full exits.
   */
  lemma {:induction false} LazyRefinesEager(w: World, calls: seq<Call>, owner: Key)
    requires Fresh(w) && CallsOk(calls)
    ensures Balanced(Run(w, calls), Books(w, calls), owner)
    ensures owner !in Run(w, calls).positions ==> Get(Books(w, calls).credited, owner) == 0
  {
    if calls == [] {
      NoEligibleLiability(Blank(w.config), w.config.Index());
    } else {
      var n := |calls| - 1;
      RunSafe(w, calls[..n]);
      LazyRefinesEager(w, calls[..n], owner);
      StepBalanced(Run(w, calls[..n]), Books(w, calls[..n]), calls[n], owner);
    }
  }

  // ---- Solvency and conservation ----

  /** No dust is negative; each residue is below its denominator, each dropped fraction below one token. */
  predicate DustBounded(b: Book) {
    && 0 <= b.dust <= b.denominators + b.exits * (SCALE - 1) + b.donated * SCALE
    && 0 <= b.donated && 0 <= b.exits && 0 <= b.denominators
  }

  /** Tokens in equal tokens out plus what is still there. */
  predicate CustodyBalanced(w: World, b: Book) {
    && w.tokens.pool + b.claimed + b.expired == b.funded + b.redistributed + b.donated
    && w.tokens.vault == w.config.totalLocked + b.vaultSurplus
  }

  /** What was paid and what is owed never exceeds what was committed. */
  ghost predicate Backed(w: World, b: Book) {
    b.claimed * SCALE + Owed(w) <= b.committed * SCALE
  }

  /** The custody side of the books: the pool is exactly what is owed plus the dust. */
  ghost predicate Reconciled(w: World, b: Book) {
    && w.tokens.pool * SCALE == Owed(w) + b.dust
    && DustBounded(b)
    && CustodyBalanced(w, b)
    && Backed(w, b)
  }

  predicate Counts(counter: int, total: int) {
    0 <= total && counter == Min(U64_MAX, total)
  }

  /** Every lifetime counter is its exact total, stopped at the top of 64 bits. */
  predicate CountersMatch(c: Config, b: Book) {
    RewardCountersMatch(c, b) && BurnCountersMatch(c, b)
  }

  predicate RewardCountersMatch(c: Config, b: Book) {
    && Counts(c.totalRewardsFunded, b.funded)
    && Counts(c.totalRewardsDistributed, b.committed)
    && Counts(c.totalRewardsClaimed, b.claimed)
  }

  predicate BurnCountersMatch(c: Config, b: Book) {
    && Counts(c.totalRewardsExpired, b.expired)
    && Counts(c.totalPenaltiesCollected, b.penalties)
    && Counts(c.totalBurned, b.burned)
  }

  lemma SlackFlow(w: World, call: Call)
    requires Safe(w) && CallOk(call) && Step(w, call).Success?
    ensures var o := Step(w, call).value;
      && Slack(o.world) == DustAfter(w, call, o, Slack(w))
      && (call.Fund? || call.Withdraw? || o.base == 0)
      && (call.Fund? ==> o.batch == call.amount)
  {
    match call
    case Deposit(owner, amount, now) => DepositKeeps(w, owner, amount, now);
    case Activate(owner, now) => ActivateKeeps(w, owner, now);
    case Fund(funder, amount, expected) => FundKeeps(w, funder, amount, expected);
    case Roll(now) => RollKeeps(w, now);
    case Claim(owner) => ClaimKeeps(w, owner);
    case Withdraw(owner, amount, now) =>
      WithdrawKeeps(w, owner, amount, now);
      WithdrawFlow(w, owner, amount, now);
    case Finalize => FinalizeKeeps(w);
    case Send(sender, to, amount) => SendKeeps(w, sender, to, amount);
  }

  /** Where the tokens of the two custody accounts go, call by call. */
  predicate Explained(w: World, call: Call, o: Outcome) {
    var pool, vault, locked :=
      o.world.tokens.pool - w.tokens.pool,
      o.world.tokens.vault - w.tokens.vault,
      o.world.config.totalLocked - w.config.totalLocked;
    match call
    case Deposit(_, amount, _) => pool == 0 && vault == locked == amount
    case Fund(_, amount, _) => pool == amount && vault == locked == 0
    case Claim(_) => pool == -o.paid && vault == locked == 0
    case Withdraw(_, amount, _) => pool == o.batch - o.paid && vault == locked == 0 - amount
    case Finalize => pool == -w.tokens.pool && vault == locked == 0
    case Send(_, to, amount) =>
      pool == (if to.Pool? then amount else 0) && vault == (if to.Vault? then amount else 0) && locked == 0
    case _ => pool == 0 && vault == locked == 0
  }

  lemma WithdrawExplained(w: World, owner: Key, amount: nat, now: int)
    requires Safe(w) && WithdrawStep(w, owner, amount, now).Success?
    ensures var o := WithdrawStep(w, owner, amount, now).value;
      && o.world.tokens.vault == w.tokens.vault - amount
      && o.world.config.totalLocked == w.config.totalLocked - amount
      && o.world.tokens.pool == w.tokens.pool - o.paid + o.batch
  {
    var p := w.Lookup(owner);
    var c1, p1 := TouchedConfig(w.config, p), TouchedPosition(w.config, p);
    TouchOk(w, owner);
    TouchedBacked(w, owner);
    ExitBounds(c1, p1, amount, now);
    ExitTokensOk(w.tokens, owner, amount, ExitOf(c1, p1, amount, now));
  }

  lemma StepExplained(w: World, call: Call)
    requires Safe(w) && Step(w, call).Success?
    ensures Explained(w, call, Step(w, call).value)
  {
    if call.Withdraw? {
      WithdrawExplained(w, call.owner, call.amount, call.now);
    }
  }

  /** How each lifetime counter moves. */
  predicate CountersMoved(w: World, call: Call, o: Outcome) {
    var c, c' := w.config, o.world.config;
    var burned := o.world.tokens.burned - w.tokens.burned;
    && c'.totalRewardsFunded == SatAdd(c.totalRewardsFunded, if call.Fund? then call.amount else 0)
    && c'.totalRewardsDistributed
       == SatAdd(c.totalRewardsDistributed, if BatchDelta(o.batch, o.base) > 0 then o.batch else 0)
    && c'.totalRewardsClaimed == SatAdd(c.totalRewardsClaimed, if call.Claim? || call.Withdraw? then o.paid else 0)
    && c'.totalRewardsExpired == SatAdd(c.totalRewardsExpired, if call.Finalize? then w.tokens.pool else 0)
    && c'.totalPenaltiesCollected == SatAdd(c.totalPenaltiesCollected, if call.Withdraw? then o.batch + burned else 0)
    && c'.totalBurned == SatAdd(c.totalBurned, if call.Withdraw? || call.Finalize? then burned else 0)
    && (call.Finalize? ==> burned == w.tokens.pool)
    && (call.Withdraw? ==> 0 <= burned)
  }

  lemma WithdrawCounters(w: World, owner: Key, amount: nat, now: int)
    requires Safe(w) && WithdrawStep(w, owner, amount, now).Success?
    ensures CountersMoved(w, Withdraw(owner, amount, now), WithdrawStep(w, owner, amount, now).value)
  {
    var p := w.Lookup(owner);
    var c1, p1 := TouchedConfig(w.config, p), TouchedPosition(w.config, p);
    var e := ExitOf(c1, p1, amount, now);
    TouchOk(w, owner);
    TouchedBacked(w, owner);
    ExitBounds(c1, p1, amount, now);
    ExitTokensOk(w.tokens, owner, amount, e);
    BatchExact(e.reward, e.base);
  }

  lemma FundCounters(w: World, funder: Key, amount: nat, expected: Option<(nat, nat)>)
    requires Safe(w) && FundStep(w, funder, amount, expected).Success?
    ensures CountersMoved(w, Fund(funder, amount, expected), FundStep(w, funder, amount, expected).value)
  {
    BatchExact(amount, w.config.eligibleLocked);
  }

  lemma StepCounters(w: World, call: Call)
    requires Safe(w) && CallOk(call) && Step(w, call).Success?
    ensures CountersMoved(w, call, Step(w, call).value)
  {
    match call
    case Withdraw(owner, amount, now) => WithdrawCounters(w, owner, amount, now);
    case Fund(funder, amount, expected) => FundCounters(w, funder, amount, expected);
    case _ =>
  }

  lemma EnterRewardCounters(w: World, b: Book, call: Call, o: Outcome)
    requires RewardCountersMatch(w.config, b) && CountersMoved(w, call, o)
    requires 0 <= o.paid && 0 <= o.batch
    ensures RewardCountersMatch(o.world.config, Enter(b, w, call, o))
  {}

  lemma EnterBurnTotals(b: Book, w: World, call: Call, o: Outcome)
    ensures var b', burned := Enter(b, w, call, o), o.world.tokens.burned - w.tokens.burned;
      && b'.expired == b.expired + (if call.Finalize? then w.tokens.pool else 0)
      && b'.penalties == b.penalties + (if call.Withdraw? then o.batch + burned else 0)
      && b'.burned == b.burned + (if call.Withdraw? then burned else if call.Finalize? then w.tokens.pool else 0)
  {}

  lemma EnterBurnCounters(w: World, b: Book, call: Call, o: Outcome)
    requires BurnCountersMatch(w.config, b) && CountersMoved(w, call, o)
    requires 0 <= o.batch && 0 <= w.tokens.pool
    ensures BurnCountersMatch(o.world.config, Enter(b, w, call, o))
  {
    var burned := o.world.tokens.burned - w.tokens.burned;
    EnterBurnTotals(b, w, call, o);
    CountsMore(w.config.totalRewardsExpired, b.expired, if call.Finalize? then w.tokens.pool else 0);
    CountsMore(w.config.totalPenaltiesCollected, b.penalties, if call.Withdraw? then o.batch + burned else 0);
    CountsMore(w.config.totalBurned, b.burned, if call.Withdraw? || call.Finalize? then burned else 0);
  }

  lemma CountsMore(counter: int, total: int, added: int)
    requires Counts(counter, total) && 0 <= added
    ensures Counts(SatAdd(counter, added), total + added)
  {}

  /** A residue is less than its denominator, and is the whole batch when the index does not move. */
  lemma ResidueBound(o: Outcome)
    requires 0 <= o.batch && 0 <= o.base && (o.base == 0 ==> o.batch == 0)
    ensures Residue(o.batch, o.base) <= (if o.batch > 0 then o.base else 0)
    ensures BatchDelta(o.batch, o.base) == 0 ==> Residue(o.batch, o.base) == o.batch * SCALE
    ensures 0 <= Residue(o.batch, o.base)
  {
    BatchExact(o.batch, o.base);
  }

  lemma OwedNonNegative(w: World)
    requires Safe(w)
    ensures 0 <= Owed(w)
  {
    var f := LiabilityAt(w.config.Index());
    forall k <- w.positions ensures f(w.positions[k]) >= 0 {
      LiabilityNonNegative(w.config, w.positions[k]);
    }
    SumNonNegative(w.positions, f);
  }

  /** The dust of the next book, from the outcome alone. */
  function DustAfter(w: World, call: Call, o: Outcome, dust: int): int {
    match call
    case Fund(_, _, _) => dust + Residue(o.batch, o.base)
    case Withdraw(owner, _, _) =>
      dust + Residue(o.batch, o.base) + (if o.world.Lookup(owner).lockedAmount == 0 then Fraction(w, owner) else 0)
    case Finalize => 0
    case Send(_, to, amount) => dust + (if to.Pool? then amount * SCALE else 0)
    case _ => dust
  }

  /** What a successful call's outcome is known to satisfy. */
  ghost predicate Lawful(w: World, call: Call, o: Outcome) {
    && Explained(w, call, o)
    && 0 <= o.paid && 0 <= o.batch && 0 <= o.base && (o.base == 0 ==> o.batch == 0)
    && (call.Fund? || call.Withdraw? || o.base == 0)
    && (call.Fund? ==> o.batch == call.amount)
    && Slack(o.world) == DustAfter(w, call, o, Slack(w))
  }

  lemma EnterDust(w: World, b: Book, call: Call, o: Outcome)
    requires Lawful(w, call, o)
    ensures Enter(b, w, call, o).dust == DustAfter(w, call, o, b.dust)
  {}

  lemma EnterDustBound(w: World, b: Book, call: Call, o: Outcome)
    requires Lawful(w, call, o) && DustBounded(b)
    ensures DustBounded(Enter(b, w, call, o))
  {
    ResidueBound(o);
  }

  lemma EnterCustody(w: World, b: Book, call: Call, o: Outcome)
    requires Lawful(w, call, o) && CustodyBalanced(w, b)
    ensures CustodyBalanced(o.world, Enter(b, w, call, o))
  {}

  lemma EnterBacking(w: World, b: Book, call: Call, o: Outcome)
    requires Lawful(w, call, o) && Backed(w, b) && 0 <= Owed(w)
    ensures Backed(o.world, Enter(b, w, call, o))
  {
    ResidueBound(o);
  }

  lemma StepReconciled(w: World, b: Book, call: Call)
    requires Safe(w) && CallOk(call)
    requires Reconciled(w, b) && CountersMatch(w.config, b)
    ensures Reconciled(After(w, call), Record(b, w, call))
    ensures CountersMatch(After(w, call).config, Record(b, w, call))
  {
    if Step(w, call).Success? {
      var o := Step(w, call).value;
      IndexFlow(w, call);
      SlackFlow(w, call);
      StepExplained(w, call);
      StepCounters(w, call);
      OwedNonNegative(w);
      EnterDust(w, b, call, o);
      EnterDustBound(w, b, call, o);
      EnterCustody(w, b, call, o);
      EnterBacking(w, b, call, o);
      EnterRewardCounters(w, b, call, o);
      EnterBurnCounters(w, b, call, o);
    }
  }

  /** Exact solvency: at every point of every run the pool is what is owed plus the recorded dust. */
  lemma {:induction false} RunReconciled(w: World, calls: seq<Call>)
    requires Fresh(w) && CallsOk(calls)
    ensures Reconciled(Run(w, calls), Books(w, calls))
    ensures CountersMatch(Run(w, calls).config, Books(w, calls))
  {
    if calls == [] {
    } else {
      var n := |calls| - 1;
      RunSafe(w, calls[..n]);
      RunReconciled(w, calls[..n]);
      StepReconciled(Run(w, calls[..n]), Books(w, calls[..n]), calls[n]);
    }
  }
}
