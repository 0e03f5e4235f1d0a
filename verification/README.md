# Arena accounting, modelled and proved

This project models the accounting of the `arena-lock-v2` program: one `ArenaConfig`, the stored
`ArenaPosition` of every owner, the balances of the two custody accounts and of the wallets, and the
instructions InitializeConfig, Deposit, ActivatePosition, FundRewards / FundRewardsChecked, RollEpoch,
ClaimRewards, Withdraw and FinalizeRewards, plus token transfers that bypass the program. A failed
instruction changes nothing, because transactions are atomic. Clock readings are parameters.

It has three layers.

1. **Specification** (`Spec.dfy`): one exact transition function `Step` over unbounded integers, with the
   reward index unwrapped (`Index() = generation * 2^128 + reward_index`) and only the guards a caller can
   run into. `Run` folds it over any sequence of calls.
2. **Program** (`Accounts.dfy`, `Program.dfy`, `Arena.dfy`): classes whose fields have the stored widths
   (the three carried remainders, which the program only ever sets to a value taken modulo their scale, are
   held below that scale), updated in place with checked arithmetic and a wrapping index, in the order of
   the source. In a state satisfying the invariant `Safe`, each instruction method returns exactly the result
   (or error) of one specification step and leaves exactly its next state. So none of the checked operations
   that the specification leaves out can fail there.
3. **Properties**: `Safety.dfy` and `Preservation.dfy` (the invariant and its preservation by every call and
   every run), `Ledger.dfy` (exact books kept by the eager method), `Consequences.dfy`, `Liveness.dfy`,
   `LeftBehind.dfy`, `Penalty.dfy`, `Residues.dfy`, `EarlyExits.dfy`, `PartialExits.dfy`, `Timing.dfy`,
   `Laws.dfy`, `Answers.dfy`, `Lots.dfy`.

A position's *liability* at an index, in units of one token divided by 10^18, is
`pending * 10^18 + remainder + eligible * (index - checkpoint)`.

`Laws.dfy` says what each instruction does without its steps, as what moves, what is conserved and what comes
first, and proves that nothing else obeys those laws; `Answers.dfy` says when each is accepted and when each error is
raised; `Lots.dfy` gives the plain account of stake that the buckets summarize.

## Main results

- **The laws fix every instruction.** In a safe state the outcome of an accepted call is the one outcome that obeys its
  law (`Laws.LawsComplete`), and it is accepted, or refused with a given error, exactly under stated conditions (the
  lemmas of `Answers`).
- **Buckets summarize a stack of lots.** Over every run an owner's three buckets and one warming epoch are its stack of
  deposits summed up by age (`Lots.BucketsSumUpLots`).

- **Lazy refines eager.** Over every run, each owner's liability plus what it was paid is the sum over reward
  batches of its eligible stake times the batch's index step, less the fractions dropped at full exits
  (`Ledger.LazyRefinesEager`); so payouts plus what is claimable are that credit rounded down once
  (`Consequences.RoundedOnce`).
- **Exact solvency.** Over every run, `pool * 10^18` is the sum of all liabilities plus a recorded,
  bounded, non-negative dust, and every lifetime counter is its exact total stopped at 2^64 - 1
  (`Ledger.RunReconciled`).
- **Exit liveness.** Below the last index generation, a withdrawal of any part of a position is accepted if and
  only if the index grew by less than 2^128 since the position was last settled, and always when it holds
  eligible stake (`Liveness.ExitLive`); no run of fewer than 2^64 calls from initialization gets to that
  generation (`Liveness.ExitLiveFromGenesis`). The condition is needed: `LeftBehindRun.IdleOwnerStuck` is a run
  from initialization after which an idle owner's withdrawal fails, and `Liveness.LeftBehindForever` shows that
  no later run changes such a position.
- **Penalty and burn under partitioning.** Over every run the penalty an owner is charged is the rate on the total it
  withdrew early, short of the fractions carried or forfeited (`EarlyExits.RunAtRate`). The burn *share* of
  `penalty_split` adds up to that of the whole, for every way of splitting and from all remainders a position can
  carry, exactly when the burn rate is zero or divides the penalty rate (`Penalty.BurnPartitionsIff`). The tokens
  *burned* also take in the reward share whenever no eligible stake remains. For parts withdrawn one after another
  before the unlock time: they never burn more than the whole (`PartialExits.PartsNeverBurnMore`). When eligible stake remains after the whole they burn the same in every
  reachable state exactly under those rates (`PartialExits.PartsNeverMatterIff`). Under those rates, state by state,
  they burn the same if and only if eligible stake remains after the whole, or there was none before, or the
  reward share of all but one unit is zero (`PartialExits.BurnsAlikeIff`).
- **Lock policy.** Activated stake first matures within one epoch, and stays under the penalty for a full epoch after
  that, less any delay in activating it (`Timing.MaturityLeavesExposure`).

Where documentation and code differ the code is followed. `docs/SECURITY_ADVERSARIAL_FINDINGS.md` says that more than
one index generation between touches is rejected; the code rejects any growth of 2^128 or more, which can already
happen across a single wrap (`RewardIndex.DeltaSinceExact`). `docs/PROFESSIONAL_SIGN_OFF.md` lists penalty and burn
partitioning as fixed within one position lifecycle. That holds of the penalty. It does not hold of the burn at rates
that do not divide (`Penalty.BurnLossExample`; the unit test `cumulative_burn_matches_bulk_for_small_splits` uses a
pair that does), nor for the last eligible stake at rates that do (`PartialExits.SoleStakerExample`).

## Model

| member | source | states |
|---|---|---|
| RewardIndex.RewardIndexDelta | programs/arena-lock-v2/src/processor.rs:454-467 | a batch has an index step iff it is non-empty, someone is eligible and the scaled batch reaches the base; the step is then the largest whose total over the base stays within the batch |
| RewardIndex.DeltaIsBatchDelta | programs/arena-lock-v2/src/processor.rs:492-505 | the checked step agrees with the exact one, and fails exactly on batches that do not move the index |
| RewardIndex.DeltaSinceExact | programs/arena-lock-v2/src/processor.rs:507-535 | the wrapped difference succeeds iff the unwrapped index grew by 0 to 2^128 - 1, and then is that growth, for checkpoint 0 and for gaps of several generations too |
| RewardIndex.AssertLockPolicy | programs/arena-lock-v2/src/processor.rs:162-178 | accepted iff delay and epoch are positive and the lock covers the delay and two epochs; each of the three errors exactly when it applies, overflow included |
| Accounts.ArenaConfig.Load | programs/arena-lock-v2/src/state.rs:57-67 | the working record holds exactly the stored values |
| Accounts.ArenaConfig.AddRewardIndex | programs/arena-lock-v2/src/processor.rs:469-479 | the unwrapped index moves by exactly the delta, or the last generation would be exceeded and the call fails |
| Accounts.ArenaConfig.CommitRewardsToIndex | programs/arena-lock-v2/src/processor.rs:481-490 | the batch moves the index by its exact delta and the distributed counter by its amount; each error exactly when it applies |
| Accounts.ArenaConfig.TryCommitRewardsToIndex | programs/arena-lock-v2/src/processor.rs:492-505 | a batch too small to move the index is left in the pool without error and without being counted; otherwise as the committing form |
| Accounts.ArenaPosition.Load | programs/arena-lock-v2/src/state.rs:119-129 | the working record holds exactly the stored values |
| Accounts.ArenaPosition.Credit | programs/arena-lock-v2/src/processor.rs:574-589 | the scaled product plus the carry becomes whole pending tokens and a new carry, unless product, carry or pending amount overflow |
| Accounts.ArenaPosition.AccrueRewards | programs/arena-lock-v2/src/processor.rs:570-594 | succeeds iff the position is in reach and the whole tokens owed fit in 64 bits, and then turns everything owed into pending tokens plus a carried fraction |
| Accounts.AccrualArithmetic | programs/arena-lock-v2/src/processor.rs:572-590 | product, carry, division and addition give the settled amounts, and overflow only when those do not fit |
| Accounts.ArenaPosition.PenaltySplit | programs/arena-lock-v2/src/processor.rs:1454-1510 | fails exactly when a share in use does not fit in 64 bits; otherwise both carried remainders and the two shares of the exact split, never exceeding the amount and losing nothing of the burn share unless the whole penalty is burned |
| Program.PromoteWarming | programs/arena-lock-v2/src/processor.rs:550-566 | moves all warming stake to the eligible bucket on both records, failing exactly when an amount does not fit |
| Program.MatureWarmingIfReady | programs/arena-lock-v2/src/processor.rs:539-568 | leaves no warming stake from an earlier epoch: promotes exactly the ready stake, after settling the stake already eligible |
| Program.Touch | programs/arena-lock-v2/src/processor.rs:1386-1387 | promotion then accrual succeed exactly when the position is in reach, settle once and leave no due stake warming |
| Program.TakePending | programs/arena-lock-v2/src/processor.rs:1520-1533 | takes as much as it can from the pending stake on both records and returns the rest |
| Program.TakeWarming | programs/arena-lock-v2/src/processor.rs:1535-1548 | the same from the warming stake |
| Program.TakeEligible | programs/arena-lock-v2/src/processor.rs:1550-1559 | takes the rest from the eligible stake, failing exactly when it is short |
| Program.ReduceBuckets | programs/arena-lock-v2/src/processor.rs:1517-1559 | takes an amount from pending, then warming, then eligible stake, on the position and on the config alike, and fails exactly when some bucket is short |
| Program.ReduceFields | programs/arena-lock-v2/src/processor.rs:1517-1572 | the same together with the totals and the dropped fraction, field by field |
| Program.ReducePositionStake | programs/arena-lock-v2/src/processor.rs:1512-1574 | the whole records afterwards are those of the exact reduction |
| Program.PayPendingRewards | programs/arena-lock-v2/src/processor.rs:1417-1450 | pays all pending tokens from the pool to the owner and counts them, or fails when the pool is short |
| Program.TransferFromProgram | programs/arena-lock-v2/src/processor.rs:1218-1256 | a custody transfer fails exactly when the source is short; an empty one moves nothing |
| Program.BurnFromProgram | programs/arena-lock-v2/src/processor.rs:1259-1294 | a custody burn fails exactly when the source is short; an empty one burns nothing |
| Program.SettleForExit | programs/arena-lock-v2/src/processor.rs:1649-1678 | settles and, on a full exit only, pays everything pending |
| Program.ExitPenalty | programs/arena-lock-v2/src/processor.rs:1680-1702 | no penalty after unlock and the remainders cleared; everything burned when no eligible stake would remain; cannot fail under an accepted policy |
| Program.EligibleLockedAfter | programs/arena-lock-v2/src/processor.rs:1652-1664 | the eligible stake that will remain, previewed before any reduction |
| Program.CommitPenalty | programs/arena-lock-v2/src/processor.rs:1748-1760 | commits the redistributed share over the given base and counts the penalty, failing only for want of index room |
| Program.ChargeExit | programs/arena-lock-v2/src/processor.rs:1652-1748 | the amount leaves the vault as returned, redistributed and burned parts, the redistributed part committed over the previewed base; with the vault covering it, fails only for want of index room |
| Program.WithdrawFrom | programs/arena-lock-v2/src/processor.rs:1649-1763 | the whole accounting of a withdrawal, reducing the stake last, equals the exact exit; fails only out of reach or for want of index room |
| Program.ReduceCommutes | programs/arena-lock-v2/src/processor.rs:1748-1750 | committing the penalty before reducing the stake gives the same records as the exact exit |
| Program.ExtendClocks | programs/arena-lock-v2/src/processor.rs:901-916 | the first stake sets both clocks, later deposits only push them out |
| Program.AddToTotals | programs/arena-lock-v2/src/processor.rs:919-926 | adds the stake to the two aggregates, failing exactly when one does not fit |
| Program.AddStake | programs/arena-lock-v2/src/processor.rs:882-926 | adds the stake to the pending buckets and the totals; only the clock can overflow |
| Program.DepositInto | programs/arena-lock-v2/src/processor.rs:840-929 | touches an existing position or opens a blank one, then adds the stake |
| Program.WarmTotals | programs/arena-lock-v2/src/processor.rs:1012-1019 | moves an amount between the two aggregates, failing exactly when it does not fit |
| Program.StartWarming | programs/arena-lock-v2/src/processor.rs:998-1019 | moves all pending stake into warming, on top of what is there, naming the epoch only when the bucket was empty |
| Program.ActivateIn | programs/arena-lock-v2/src/processor.rs:975-1019 | each error exactly when it applies, and the settled, promoted and activated records otherwise |
| Program.ClaimFrom | programs/arena-lock-v2/src/processor.rs:1384-1413 | pays everything owed; with nothing to pay, accepted only if stake was promoted |
| Program.FundInto | programs/arena-lock-v2/src/processor.rs:1031-1107 | the guards in order, then the transfer and the commit over the current base |
| Program.FinalizeIn | programs/arena-lock-v2/src/processor.rs:1185-1213 | each stake and pending guard, then the whole pool burned and counted |
| Arenas.Arena.InitializeConfig | programs/arena-lock-v2/src/processor.rs:597-740 | each rejected policy with its error, and otherwise an empty arena over the given custody balances whose two clocks are the current reading |
| Arenas.Arena.Deposit | programs/arena-lock-v2/src/processor.rs:742-930 | accepts no less than the minimum; in a safe state exactly one specification step, error included; a failure changes nothing |
| Arenas.Arena.ActivatePosition | programs/arena-lock-v2/src/processor.rs:932-1023 | the same for activation |
| Arenas.Arena.FundRewards | programs/arena-lock-v2/src/processor.rs:1025-1108 | exactly one specification step in every stored state |
| Arenas.Arena.RollEpoch | programs/arena-lock-v2/src/processor.rs:1110-1161 | in a safe state exactly one specification step; the epoch counter cannot overflow |
| Arenas.Arena.ClaimRewards | programs/arena-lock-v2/src/processor.rs:1330-1414 | in a safe state exactly one specification step; the pool covers the payment |
| Arenas.Arena.Withdraw | programs/arena-lock-v2/src/processor.rs:1576-1763 | in a safe state exactly one specification step; no checked operation or transfer but the stated ones can fail |
| Arenas.Arena.FinalizeRewards | programs/arena-lock-v2/src/processor.rs:1163-1215 | in a safe state accepted iff no stake is locked, and then burns the whole pool |
| Arenas.Arena.SendTokens | README.md:86-87 | a transfer that bypasses the program moves balances and touches no record |
| Arenas.PerformsKeepsSafe | programs/arena-lock-v2/src/processor.rs:64-114 | an arena that is safe stays safe through every instruction |
| Safety.SettleKeepsLiability | programs/arena-lock-v2/src/processor.rs:570-594 | accrual never changes what a position is owed |
| Safety.TouchKeepsLiability | programs/arena-lock-v2/src/processor.rs:549-566 | promotion never changes what the eligible stake is owed, and the promoted stake starts at the current index |
| Safety.LiabilityBacked | programs/arena-lock-v2/src/processor.rs:570-594 | what any one position is owed is in the pool |
| Safety.BucketsBacked | programs/arena-lock-v2/src/processor.rs:1512-1574 | no position's bucket exceeds the config's aggregate of that bucket |
| Safety.EligibleInReach | programs/arena-lock-v2/src/processor.rs:507-535 | a position with eligible stake is always within 128 bits of index growth |
| Preservation.PreviewIsDenominator | programs/arena-lock-v2/src/processor.rs:1652-1664 | the eligible base previewed before the reduction is the sum of all positions' eligible stake after it, the leaver's included |
| Preservation.BatchExact | programs/arena-lock-v2/src/processor.rs:458-462 | base times index step plus residue is the scaled batch, with the residue below the base |
| Preservation.ExitLiability | programs/arena-lock-v2/src/processor.rs:1570-1572 | an exit takes from the leaver's liability its payout and, when full, the carried fraction |
| Preservation.ExitTokensOk | programs/arena-lock-v2/src/processor.rs:1716-1747 | the four token movements of a covered exit change vault, pool, wallet, burned and supply by the stated amounts |
| Preservation.WithdrawKeeps | programs/arena-lock-v2/src/processor.rs:1641-1763 | a withdrawal keeps the invariant though the penalty is committed before the stake is reduced; the pool's slack grows by exactly the residue and the dropped fraction |
| Preservation.DepositKeeps | programs/arena-lock-v2/src/processor.rs:840-929 | a deposit keeps the invariant and the slack |
| Preservation.ActivateKeeps | programs/arena-lock-v2/src/processor.rs:975-1022 | an activation keeps the invariant and the slack |
| Preservation.ClaimKeeps | programs/arena-lock-v2/src/processor.rs:1381-1413 | a claim keeps the invariant and the slack |
| Preservation.FundKeeps | programs/arena-lock-v2/src/processor.rs:1058-1107 | funding keeps the invariant and adds exactly its residue to the slack |
| Preservation.EpochFits | programs/arena-lock-v2/src/processor.rs:1144-1158 | when the next epoch time is representable the epoch counter is too |
| Preservation.RollKeeps | programs/arena-lock-v2/src/processor.rs:1143-1160 | a roll keeps the invariant and creation time plus epochs times length is the last epoch time |
| Preservation.NothingOwed | programs/arena-lock-v2/src/processor.rs:1185-1192 | with no stake locked every position is empty and owed nothing |
| Preservation.FinalizeKeeps | programs/arena-lock-v2/src/processor.rs:1205-1214 | finalization keeps the invariant and empties pool and slack |
| Preservation.StepKeeps | programs/arena-lock-v2/src/processor.rs:64-114 | every call keeps the invariant |
| Preservation.RunSafe | programs/arena-lock-v2/src/processor.rs:64-114 | in every reachable state buckets add up per position and in the config, aggregates are sums over positions, the vault covers all stake, the pool covers all liabilities, and the deprecated fields are zero |
| Preservation.GenesisFresh | programs/arena-lock-v2/src/processor.rs:703-738 | initialization over any custody balances gives a safe, unused arena |
| Laws.LawsComplete | programs/arena-lock-v2/src/processor.rs:64-114 | in a safe state every accepted call obeys its law, said as conservation and order and not as steps, and its outcome is the only one that does |
| Laws.DepositLawful | programs/arena-lock-v2/src/processor.rs:840-929 | amount into pending stake and vault, due stake promoted, both clocks, nothing else |
| Laws.ActivateLawful | programs/arena-lock-v2/src/processor.rs:975-1022 | afterwards nothing is pending, and warming has gained all of it and lost just the due stake, on the position and on the config |
| Laws.ClaimLawful | programs/arena-lock-v2/src/processor.rs:1381-1413 | every whole token owed is paid, less than one token stays owed, due stake is promoted |
| Laws.WithdrawStakeLawful | programs/arena-lock-v2/src/processor.rs:1512-1574 | the youngest stake leaves first; a full exit is paid every whole token owed and drops the fraction, a partial one is paid nothing |
| Laws.WithdrawTokensLawful | programs/arena-lock-v2/src/processor.rs:1680-1760 | the charge is the rate on the amount to the last unit, the burn its own rate unless it takes the whole charge or no eligible stake remains; the rest is returned, the redistributed part committed |
| Laws.FundLawful | programs/arena-lock-v2/src/processor.rs:1058-1107 | the batch enters the pool and moves the index by the largest step it covers for all eligible stake |
| Laws.RollLawful | programs/arena-lock-v2/src/processor.rs:1143-1160 | the epoch advances by one, its time by one length from creation |
| Laws.FinalizeLawful | programs/arena-lock-v2/src/processor.rs:1298-1328 | the pool is emptied into the burn and counted |
| Laws.SendLawful | README.md:86-87 | a donation moves two balances and writes no record |
| Answers.InitializeAnswers | programs/arena-lock-v2/src/processor.rs:609-633 | accepted iff the policy is sound and its penalties can be felt on a minimum deposit; the clocks of the new arena are the current reading |
| Answers.FeltIff | programs/arena-lock-v2/src/processor.rs:619-633 | the two guards on the minimum deposit say that withdrawing it early costs, and burns, a whole unit |
| Answers.PenaltyFelt | programs/arena-lock-v2/src/processor.rs:619-633 | then every early withdrawal of at least the minimum costs, and burns, a whole unit, whatever is carried |
| Answers.InitializeErrors | programs/arena-lock-v2/src/processor.rs:609-633 | each error of a refused policy exactly when it applies |
| Answers.DepositAnswers | programs/arena-lock-v2/src/processor.rs:766-849 | accepted iff at least the minimum, covered by the wallet, in reach and with a representable unlock time; each error exactly when it applies |
| Answers.MinimumHeld | programs/arena-lock-v2/src/processor.rs:766-768 | over every run an owner that never withdrew holds nothing or at least the minimum |
| Answers.ActivateAnswers | programs/arena-lock-v2/src/processor.rs:975-997 | acceptance and each error exactly when they apply |
| Answers.ClaimAnswers | programs/arena-lock-v2/src/processor.rs:1381-1396 | accepted iff there is stake in reach and a whole token is owed or due stake can be promoted; each error exactly when it applies |
| Answers.WithdrawAnswers | programs/arena-lock-v2/src/processor.rs:1646-1665 | acceptance and each error exactly when they apply, the last index generation included |
| Answers.FundAnswers | programs/arena-lock-v2/src/processor.rs:1031-1069 | acceptance and each error exactly when they apply, the base being the sum of eligible stake |
| Answers.RollAnswers | programs/arena-lock-v2/src/processor.rs:1143-1150 | accepted iff one more epoch since creation has passed; each error exactly when it applies |
| Answers.FinalizeAnswers | programs/arena-lock-v2/src/processor.rs:1185-1192 | accepted iff nobody has stake |
| Lots.BucketsSumUpLots | programs/arena-lock-v2/src/processor.rs:539-568 | over every run the three buckets and the warming epoch are a stack of lots summed up by age: deposits push, activations start what waits, withdrawals pop, and a lot earns once its owner is seen in a later epoch than it was activated in |
| Lots.PoppedSums | programs/arena-lock-v2/src/processor.rs:1517-1559 | popping a stack empties the younger ages before it touches an older one |
| Ledger.OwnerFlow | programs/arena-lock-v2/src/processor.rs:570-594 | before the index moves, a call changes an owner's liability only by what it pays or drops |
| Ledger.IndexFlow | programs/arena-lock-v2/src/processor.rs:481-505 | the index moves by the step of the call's batch, whose base is the eligible stake after the call |
| Ledger.LazyRefinesEager | programs/arena-lock-v2/src/processor.rs:507-594 | over every run liability plus payouts plus dropped fractions are the eager credit |
| Ledger.RunReconciled | programs/arena-lock-v2/src/processor.rs:454-505 | over every run the pool is liabilities plus recorded non-negative dust, custody flows balance, payouts and debts stay within what was committed, and counters are their exact totals, saturated |
| Consequences.RoundedOnce | programs/arena-lock-v2/src/processor.rs:573-584 | payouts plus claimable tokens are the eager credit rounded down once, however often the owner claimed |
| Consequences.PaidCounter | programs/arena-lock-v2/src/processor.rs:1445-1448 | over every run a position's claimed counter is what its owner was paid, stopped at 2^64 - 1 |
| Consequences.TelemetryOrder | programs/arena-lock-v2/src/processor.rs:1445-1448 | the claimed counter never passes the distributed counter, saturated or not |
| Consequences.SurplusBound | programs/arena-lock-v2/src/processor.rs:1163-1215 | without donations, the surplus after all stake has left is below the batch bases plus one token per full exit, and funding is accounted for exactly |
| Consequences.FinalizeBurnsDust | programs/arena-lock-v2/src/processor.rs:1298-1328 | finalization is accepted iff no stake is locked, and then burns exactly the dust and nothing owed |
| Consequences.RunConserves | programs/arena-lock-v2/src/processor.rs:1716-1747 | no run creates or loses a token |
| Consequences.WithdrawSplitsAmount | programs/arena-lock-v2/src/processor.rs:1680-1714 | returned, redistributed and burned parts add up to the amount; all of it is returned after unlock; nothing is redistributed when no eligible stake remains |
| Consequences.WithdrawTakesYoungestFirst | programs/arena-lock-v2/src/processor.rs:1517-1559 | a later bucket shrinks only once the earlier ones are empty |
| Consequences.CheckedFundingBinds | programs/arena-lock-v2/src/processor.rs:1061-1068 | accepted checked funding is owed to exactly the expected eligible stake, in no later epoch |
| Consequences.VisitsKeep | programs/arena-lock-v2/src/processor.rs:570-594 | settling and claiming along the way never changes liability plus claims |
| Consequences.TouchScheduleIrrelevant | programs/arena-lock-v2/src/processor.rs:570-594 | any schedule of settlements and claims gives the same total and the same fraction as one settlement at the end |
| Liveness.AccrualFits | programs/arena-lock-v2/src/processor.rs:570-594 | with eligible stake, difference, product, carry, narrowing and addition all fit, and the new pending amount is in the pool |
| Liveness.ExitCovered | programs/arena-lock-v2/src/processor.rs:1649-1750 | pool, vault and every aggregate cover what a withdrawal takes |
| Liveness.RoomBelowTop | programs/arena-lock-v2/src/processor.rs:469-479 | below the last generation any batch fits |
| Liveness.ExitLive | programs/arena-lock-v2/src/processor.rs:1641-1763 | over every run a withdrawal is accepted iff the position is in reach, always so with eligible stake |
| Liveness.IndexPace | programs/arena-lock-v2/src/processor.rs:469-505 | over any run the index grows by at most the scaled supply per call |
| Liveness.ExitLiveFromGenesis | programs/arena-lock-v2/src/processor.rs:1641-1763 | the same for every run of fewer than 2^64 calls from initialization, with no condition on the generation |
| Liveness.LeftBehindForever | programs/arena-lock-v2/src/processor.rs:570-571 | a position out of reach is never changed again by any run |
| LeftBehindRun.ReadyFromGenesis | programs/arena-lock-v2/src/processor.rs:597-740 | a concrete setup from initialization with one eligible and one idle owner |
| LeftBehindRun.CyclesLeaveBehind | programs/arena-lock-v2/src/processor.rs:507-535 | from any ready run, enough rounds of funding and claiming make the idle owner's withdrawal fail at every clock reading |
| LeftBehindRun.IdleOwnerStuck | programs/arena-lock-v2/src/processor.rs:1665 | one concrete run from initialization, of legal calls, after which the idle owner's withdrawal is an overflow at every clock reading |
| Penalty.SplitExact | programs/arena-lock-v2/src/processor.rs:1464-1483 | the clamp to the amount never fires, so a split loses no fraction of the penalty |
| Penalty.BurnLosesNothing | programs/arena-lock-v2/src/processor.rs:1485-1503 | from any remainders and at any rates the split loses nothing of the burn share unless the whole penalty is burned |
| Penalty.PenaltyPartition | programs/arena-lock-v2/src/processor.rs:1452-1510 | over any series 10000 times the penalties plus the final remainder is the rate times the total plus the first remainder |
| Penalty.PenaltyMatchesBulk | programs/arena-lock-v2/src/processor.rs:1810-1824 | a series is charged exactly what the whole would be |
| Penalty.BurnNeverAboveBulk | programs/arena-lock-v2/src/processor.rs:1485-1507 | the burns of a series never exceed the burn of the whole |
| Penalty.LinkedSplit | programs/arena-lock-v2/src/processor.rs:1485-1503 | when the burn rate divides the penalty rate, the burn stays within the penalty and the two remainders stay linked |
| Penalty.SeriesLinks | programs/arena-lock-v2/src/processor.rs:1485-1503 | any series keeps the remainders linked; with dividing rates its burn shares are exactly the burn rate on the total, short of the carried fraction |
| Penalty.DividingMatchesBulk | programs/arena-lock-v2/src/processor.rs:1826-1845 | with dividing rates and linked remainders a series and the whole have the same burn share |
| Penalty.BurnPartitionsIff | programs/arena-lock-v2/src/processor.rs:1452-1510 | burn shares of series and whole agree, for all 64-bit totals, all ways of splitting and all remainders a position can carry, iff the burn rate is zero or divides the penalty rate |
| Penalty.LossyAmount | programs/arena-lock-v2/src/processor.rs:1503 | otherwise some amount below 10000 burns one unit less in two parts |
| Penalty.BurnLossExample | programs/arena-lock-v2/src/processor.rs:1503 | at 5000 and 3334 basis points 1 + 1 + 1 burns less than 3 |
| Residues.CoveredDivides | programs/arena-lock-v2/src/processor.rs:1485-1503 | if every amount at which the burn share steps up is one at which the penalty share does, the burn rate divides the penalty rate |
| EarlyExits.RunAtRate | programs/arena-lock-v2/src/processor.rs:1680-1702 | through any run, early and late withdrawals included: the charge is the rate on the total taken early, short of fractions carried or forfeited; burned tokens are burn shares plus redirected reward shares; the burn shares are their own rate on the total, short of fractions and of what exceeded penalties burned whole, which is nothing at dividing rates |
| EarlyExits.RunCarries | programs/arena-lock-v2/src/processor.rs:1681-1695 | in every reachable state a position's two remainders are linked by the rates |
| EarlyExits.WithdrawBurns | programs/arena-lock-v2/src/processor.rs:1697-1747 | batch, burned tokens, remaining base and remainders of an accepted withdrawal |
| PartialExits.PartsBurn | programs/arena-lock-v2/src/processor.rs:1641-1763 | any series of early withdrawals is accepted and leaves the buckets, remainders and burned tokens the split series gives |
| PartialExits.PartsNeverBurnMore | programs/arena-lock-v2/src/processor.rs:1697-1702 | an early exit in parts never burns more tokens than at once, at any rates |
| PartialExits.BurnsAlikeIff | programs/arena-lock-v2/src/processor.rs:1697-1702 | at dividing rates parts burn what the whole burns iff eligible stake remains after the whole, or there was none, or the reward share of all but one unit is zero |
| PartialExits.PartsNeverMatterIff | programs/arena-lock-v2/src/processor.rs:1680-1702 | in every reachable state exits that leave eligible stake burn alike in parts and at once iff the burn rate is zero or divides the penalty rate |
| PartialExits.SoleStakerExample | programs/arena-lock-v2/src/processor.rs:1697-1702 | the only staker of four units at 5000 and 2500 basis points burns 2 at once and 1 in halves |
| Timing.RollAccepted | programs/arena-lock-v2/src/processor.rs:1143-1150 | a roll is accepted iff the epoch counter is behind the whole epochs elapsed |
| Timing.RollsStopAtFloor | programs/arena-lock-v2/src/processor.rs:1152-1160 | repeated rolls at one clock reading stop exactly at the whole epochs elapsed |
| Timing.UnlockNeverFalls | programs/arena-lock-v2/src/processor.rs:905-908 | an open position's unlock time never moves closer |
| Timing.ClocksFromLastDeposit | programs/arena-lock-v2/src/processor.rs:879-916 | under a non-decreasing clock unlock and activation times are those of the last deposit |
| Timing.RunExposed | programs/arena-lock-v2/src/processor.rs:158-178 | pending stake always activates at least the lock less the delay before it unlocks, through any top-ups |
| Timing.MaturityLeavesExposure | programs/arena-lock-v2/src/processor.rs:158-178 | whatever follows an activation, its stake is ready only from the first maturity on, which is within one epoch of activation and a full epoch before unlock, less the activation's delay |
| Timing.RunYoung | programs/arena-lock-v2/src/processor.rs:543-548 | while the clock stays before the next epoch time, stake activated in this epoch is not ready |
| Timing.NoEpochBefore | programs/arena-lock-v2/src/processor.rs:1144-1150 | no run before the next epoch time rolls the epoch |
| Timing.MaturesAtFirstMaturity | programs/arena-lock-v2/src/processor.rs:539-568 | at the first maturity a roll is accepted and makes the activated stake ready; the owner's next claim is accepted and finds all its stake eligible |
| Timing.DuePromoted | programs/arena-lock-v2/src/processor.rs:549-566 | no accepted instruction of an owner leaves due stake warming; deposits, claims and activations make exactly it eligible |
| Timing.RollsCountFromStart | programs/arena-lock-v2/src/processor.rs:721-722 | from an initialization at any clock reading, after any run the n-th roll is accepted iff n epoch lengths have passed since that reading |
| Timing.RunWarming | programs/arena-lock-v2/src/processor.rs:1000-1009 | all warming stake of a position was activated in the one epoch its record names |
| Timing.PromotedLater | programs/arena-lock-v2/src/processor.rs:543-548 | stake becomes eligible only in an epoch strictly after every epoch it was activated in |

## Left out

- Account validation: signers, writability, ownership, program-derived addresses, rent and account creation. Records are keyed by owner, and a missing record is the error NotInitialized.
- Accounts.ArenaConfig.Load: the initialization flag, the version and decoding failures are not modelled; a record that exists is a valid one.
- Accounts.ArenaPosition.Load: the same.
- Token programs: mint and extension rules and call construction. They are a transfer and a burn on balances that fail when the source is short.
- Program.TransferFromProgram: an overflow of the destination is not modelled, because the supply is fixed and fits in 64 bits (`TokensOk`), so it cannot occur.
- Arenas.Arena.Withdraw: exact agreement is stated for states satisfying `Safe`, which holds in every reachable state; from any other stored state only atomicity and well-formedness of the result are stated. The same holds for the other owner instructions, RollEpoch and FinalizeRewards.
- Liveness.ExitLive: assumes an index generation below 2^64 - 1, which `Liveness.ExitLiveFromGenesis` discharges for fewer than 2^64 calls; at the last generation a penalty large enough to wrap the index is an overflow error, as `Arenas.Arena.Withdraw` states.
- Laws.LawsComplete: a wallet stored with no balance is not told apart from one that is not stored.
- PartialExits.BurnsAlikeIff: at rates that do not divide, no closed condition is given for one state; `PartialExits.PartsNeverMatterIff` covers them over all states.
- Several token accounts per owner: a key has one wallet.
- Holders burning their own tokens outside the program.
- Serialization and instruction decoding.
- Telemetry fields without a role in the properties: last activity and lock start times, and the position's deposited, withdrawn, penalty and burned totals.
- Checks that cannot fire by width alone, such as a 64-bit amount times the scale in 128 bits, are plain bounded arithmetic whose range is proved; the check that a withdrawal moves some value (line 1712 of the processor) is left out because its amount is positive.
