# Reward system verification

A Dafny model of the SEFI reward contracts and proofs of what they promise. Seven contracts are
modelled: the staking pool (lp-staking), its two kinds of reward sources (weight-master and
bulk-distributor), the voting contracts that follow the stake (poll-factory and secret-poll), and
the two tokens (gov-token and cashback).

Each contract appears twice. Its behaviour is a state machine over values: a function `Handle`
from a state and a call to a new state and the messages sent, or to `Abort`. And its handlers
appear in their own form, as a class whose methods load, change and store fields; each method is
proved to do what the state machine says, and the theorems are about the state machine. Integers
are unbounded in Dafny, so every checked operation of the source (overflow checks are on, a panic
aborts) is an explicit `Add64`, `Add128`, `Mul128`, `Sub` or `Div` that can return
`Abort(Arithmetic)`. A transaction that aborts leaves no trace: runs list committed calls, and a
class method that returns `Abort` promises nothing about its fields.

| files | content |
|---|---|
| Chain, Messages, Sums, Division | machine integers and results, messages, sums over storage maps, rounding |
| Staking, StakingSolvency, StakingLedger, StakingBounds, StakingQuery, StakeAccount, StakingContract | the pool: solvency with its rounding bound, the ledger it refines, overflow bounds, the reward query, stakes and rights read off the calls |
| Schedule, WeightMaster, EmissionBound, EmissionAccount, WeightHistory, WeightMasterContract | emission schedule, weights, the bound on minting and its exact account, grants read off the calls |
| BulkDistributor, BulkRelease, BulkDistributorContract | linear release, conservation |
| RewardSystem, RewardBooks, RewardFlow | a pool with any number of sources, one transaction with all its messages |
| SecretPoll, PollTally, PollHistory, SecretPollContract, PollFactory, PollFactoryContract | polls and their factory |
| Governance, VotingPower, PollCreation | pool, factory and polls together |
| Snip20, TokenSupply, LedgerHistory, Snip20Store, GovToken, GovHistory, GovTokenContract | balances, allowances and supply of both tokens |
| History, HistoryReplay, TransferHistory, LogHistory, HistoryStore | the transaction histories of both tokens |
| Cashback, CashbackRewards, CashbackHistory, CashbackBurn, CashbackContract | burn rewards, and a burn as one transaction with the master |
| Findings | concrete inputs on which the stronger claims fail |

Two kinds of results stand beside each other. The laws (solvency, emission bounds, exact tallies,
supply, replay) relate a contract's state to itself. The modules named after a history or an
account read the whole state off the list of calls alone, by definitions of their own, and say
exactly which call is taken next, of how much and by whom, and what it sends.

## What the code does not promise

Four natural claims are false of the code. Each has a concrete input and an exact condition.

- Claims can exceed allocations: `Findings.ClaimsCanExceedAllocations` reaches claims of 4 from
  allocations of 3. The true bound has a term per settlement (`StakingSolvency.Solvency`). Over a
  run claims stay within the allocations exactly if what settlements gained by rounding is within
  what was lost elsewhere (`StakingSolvency.ClaimsWithinIff`), and a single hook adds to the gain
  exactly when its remainder grows (`StakingSolvency.HookOverCredits`).
- Minting can exceed emission: `Findings.UndisciplinedWeightsOverMint`. Claims on past blocks grow
  exactly when a `set_weights` lowers the total while something is still owed
  (`EmissionBound.ClaimsGrowIff`). Over a run minting stays within emission exactly if that growth
  is within what was reserved, rounded off or not claimed (`EmissionAccount.MintsWithinEmissionIff`),
  so always when there is none (`EmissionBound.NeverOverMints`).
- `set_weights` with a repeated address can abort although the resulting total is valid:
  `Findings.RepeatedAddressAborts`, with the exact condition in `EmissionBound.CommitsIff`.
- Initial balances with a repeated address are not the supply: `Findings.RepeatedBalancesFallShort`.
  It happens exactly if an overwritten entry is not zero (`TokenSupply.NothingLostIff`,
  `TokenSupply.BalancesAreSupply`).

Some smaller points. The reader of a stored burn takes owner and burner in the other order than
the writer (contracts/cashback/src/transaction_history.rs:160-166 and 204-209). That would show
only for a burn by somebody else than the owner (`HistoryReplay.RoundTripIff`), which the code
never stores: every record it can write is read back correctly (`HistoryReplay.RecordsReadBack`).
`min_threshold` is documented as a percentage
(packages/scrt-finance/src/secret_vote_types.rs:16) but compared with a raw vote count
(contracts/secret-poll/src/contract.rs:289), and the model follows the code. A poll accepts both
votes and reveals at exactly its end time, so its votes are frozen only strictly later. And stake
that enters a pool at block h shares the emission of block h itself, which is granted from h + 1
on; what it never shares is the emission of blocks before h.

## Model

The results come first, module by module. The handlers in their own form, from
`StakingContract.Contract.constructor` on, come after them.

| member | source | states |
|---|---|---|
| StakingSolvency.RunBalances | contracts/lp-staking/src/contract.rs:211-416 | exact account over any run: owed, paid and forfeited rewards equal the allocations plus the settlements' rounding drift minus the notifications' rounding loss |
| StakingSolvency.Solvency | contracts/lp-staking/src/contract.rs:284-416 | two-sided rounding bound: paid + pending + residue is within (SCALE-1)/SCALE per hook above the allocations, and without emergency redeems no further below than hooks, users and notification losses explain |
| StakingSolvency.HookSettles | contracts/lp-staking/src/contract.rs:284-416 | a hook pays its user exactly what was pending and nobody else, leaves nothing pending for her and every other user's claim as it was |
| StakingSolvency.HookOverCredits | contracts/lp-staking/src/contract.rs:313-314 | a hook raises what is owed before the last rounding, beyond what it pays, if and only if the new stake's scaled remainder exceeds the old one's; what a user received plus can claim in whole tokens it never changes |
| StakingSolvency.ClaimsWithinIff | contracts/lp-staking/src/contract.rs:284-416 | over any run paid + pending + residue is within the allocations if and only if the settlements' rounding gain is within the notifications' loss, the emergency forfeits and the users' rounded-off remainders |
| StakingSolvency.ExactSolvency | contracts/lp-staking/src/contract.rs:284-416 | in particular without over-crediting hooks paid + pending + residue never exceeds the allocations |
| StakingSolvency.EmergencyBalances | contracts/lp-staking/src/contract.rs:522-558 | an emergency redeem forfeits exactly its user's own claims |
| StakingLedger.LedgerRefined | contracts/lp-staking/src/contract.rs:284-416 | the accumulator refines a per-event ledger: what a user received plus can claim is the ledger's credit, give or take one token per settlement |
| StakingLedger.HooksMakeNothing | contracts/lp-staking/src/contract.rs:284-416 | deposits and redeems of any amount, in any number, with whatever notifications of nothing between them, leave received plus pending of every user unchanged |
| StakingLedger.NothingFromNothing | contracts/lp-staking/src/contract.rs:284-416 | who has nothing pending is paid nothing and has nothing pending until a positive notification, emergency redeems included |
| StakingBounds.AccumulatorBound | contracts/lp-staking/src/contract.rs:780-805 | least supply times accumulator, plus scaled residue, never exceeds the scaled allocations |
| StakingBounds.NeverOverflows | contracts/lp-staking/src/contract.rs:284-416 | within stated limits on allocations and stake no notification, deposit or redeem aborts on arithmetic |
| StakingQuery.QueryAgrees | contracts/lp-staking/src/contract.rs:658-680 | the reward query equals what a redeem pays when one source reports (or none and no residue waits); with several it is never less and exceeds it at most by the stake's share of the saved roundings |
| StakeAccount.StakesFromCalls | contracts/lp-staking/src/contract.rs:284-558 | in every reachable state each stake and the stop switch are what the calls alone say |
| StakeAccount.StakeAccounted | contracts/lp-staking/src/contract.rs:284-558 | per user, all that was ever staked is still locked or was sent back to that user, by redeems and emergency redeems |
| StakeAccount.CommitsIff | contracts/lp-staking/src/contract.rs:103-416 | in every reachable state within the arithmetic limits a call commits if and only if its sender may make it: a deposit's hook always, a redeem's hook up to and including the whole stake and no further (insufficient funds), notifications from sources and admin, emergency redeems when stopped |
| Schedule.GetSpyRewards | contracts/weight-master/src/contract.rs:336-360 | the schedule loop with its mutable multiplier is the weighted share of the block-by-block emission, and aborts exactly if that does not fit |
| Schedule.EmissionSplits | contracts/weight-master/src/contract.rs:342-359 | emission is additive over adjacent intervals |
| Schedule.SortIsStable | packages/scrt-finance/src/types.rs:52-54 | sorting orders units by end, keeps exactly the given units and the order among equal ends |
| Schedule.MintingInPieces | contracts/weight-master/src/contract.rs:336-360 | with constant weights, updates at any intermediate blocks mint at most the one-shot amount and at most one token less per extra update |
| EmissionBound.InitIsFresh | contracts/weight-master/src/contract.rs:14-34 | a contract just instantiated, with whatever schedule, is a state from which the run theorems start |
| EmissionBound.BooksAlwaysKept | contracts/weight-master/src/contract.rs:75-148 | in every reachable state total weight is one more than the stored weights, so the division never fails, and the schedule is sorted |
| EmissionBound.SetAllConsistent | contracts/weight-master/src/contract.rs:88-146 | any prefix of a weight list, repeated addresses included, keeps the counters right and pays no more than the backlog it clears |
| EmissionBound.ClaimsGrowIff | contracts/weight-master/src/contract.rs:84-148 | a set_weights makes some spy's claim on past blocks grow if and only if it lowers the total while something is still owed for past blocks |
| EmissionBound.CheckpointedOwesNothing | contracts/weight-master/src/contract.rs:84-148 | nothing is owed if every spy with weight is checkpointed at the current block |
| EmissionBound.NeverOverMints | contracts/weight-master/src/contract.rs:84-192 | over whole runs with a fixed schedule and disciplined weight changes, all minting stays within the blocks' emission |
| EmissionAccount.MintingAccount | contracts/weight-master/src/contract.rs:84-192 | the exact account of any run with a fixed schedule: minted plus claimable is the emission, less the reserved unit's share and the divisions' remainders, plus the inflation of old claims by changes of weight |
| EmissionAccount.MintsWithinEmissionIff | contracts/weight-master/src/contract.rs:84-192 | over any such run minting is within the emission if and only if the inflation of old claims is within what was reserved, rounded off or is not claimed |
| EmissionBound.DistinctNeverUnderflows | contracts/weight-master/src/contract.rs:136-146 | the counter subtraction never underflows on a list of distinct addresses |
| EmissionBound.CommitsIff | contracts/weight-master/src/contract.rs:136-146 | for any list the final counter arithmetic succeeds if and only if the replaced weights are within the total and the new total fits |
| EmissionBound.QueryIsWhatUpdateGrants | contracts/weight-master/src/contract.rs:316-334 | the pending query forecasts exactly what an update at that block mints and notifies, and a second update has nothing left |
| WeightHistory.ScheduleFromCalls | contracts/weight-master/src/contract.rs:14-73 | in every reachable state the stored schedule is the one given last, at init or by the admin: sorted, with exactly its units and their order among equal ends, and emitting its rate in every block |
| WeightHistory.BooksFromCalls | contracts/weight-master/src/contract.rs:75-212 | in every reachable state exactly the spies ever listed are stored, each with the weight and checkpoint the calls gave it, and the total is one more than the weights |
| WeightHistory.GrantsFromCalls | contracts/weight-master/src/contract.rs:88-205 | what a committed call mints for each spy, and tells it, is its weight's share of what the schedule in force emitted since its checkpoint, all read off the calls before |
| WeightHistory.MasterCommitsIff | contracts/weight-master/src/contract.rs:52-212 | a call commits if and only if it is the admin's, or an update by anybody, and its payments and counters fit |
| WeightHistory.QueryFromCalls | contracts/weight-master/src/contract.rs:316-360 | for any block the pending query answers a listed spy its share since its checkpoint by the schedule in force, with exactly the stated overflows, and anybody else nothing |
| BulkRelease.PruningDropsNothing | contracts/bulk-distributor/src/state.rs:35-52 | a pruned bulk owes nothing from the last award on |
| BulkRelease.SentAsPromised | contracts/bulk-distributor/src/contract.rs:58-104 | path independence: whatever the update times, the total sent by a block is what all bulks promised by it |
| BulkRelease.Conservation | contracts/bulk-distributor/src/contract.rs:58-171 | received tokens are sent, still to be released by a live bulk, or a division remainder |
| BulkRelease.QueryIsWhatUpdateGrants | contracts/bulk-distributor/src/contract.rs:217-242 | the pending query forecasts exactly what an update sends and notifies, and a second update has nothing left |
| BulkRelease.CallSends | contracts/bulk-distributor/src/contract.rs:58-171 | in every reachable state a call commits if and only if it is an update or the admin's new bulk with a term, and the integers fit; it sends the spy what the promises released since the last call, and always tells it how much |
| BulkRelease.BulksFromCalls | contracts/bulk-distributor/src/state.rs:35-52 | in every reachable state the stored bulks are, in order, exactly those that end after the last block but one in which a call came |
| RewardBooks.AlwaysConsistent | contracts/lp-staking/src/contract.rs:807-840 | in every reachable world of a pool and its sources, the tokens that arrived at the pool are those the sources notified |
| RewardFlow.SourcesCurrentAtHook | contracts/lp-staking/src/contract.rs:807-840 | when the hook of a deposit or redeem runs, every listed source has reported up to the current block |
| RewardFlow.SettledMeansNothingPending | contracts/weight-master/src/contract.rs:157-212 | a source that has reported has zero pending for the pool |
| RewardFlow.NothingPendingAtHook | contracts/lp-staking/src/contract.rs:807-840 | in any reachable world, at any later block: when the hook of a deposit or redeem runs, every listed source that can answer answers zero for the pool |
| RewardFlow.NoSameBlockReward | contracts/lp-staking/src/contract.rs:259-416 | in any reachable world, at any later block: the redeem that follows a user's deposit or redeem at the same height moves no reward tokens |
| RewardFlow.NoRewardWithinBlock | contracts/lp-staking/src/contract.rs:259-416 | after a deposit or redeem its user is paid nothing and has nothing pending for the rest of the block, through any transactions of anybody with the pool or its sources, unless the admin announces rewards in it |
| RewardFlow.HoldingsCoverClaims | contracts/lp-staking/src/contract.rs:284-416 | the pool's reward tokens cover all claims and the residue, up to the rounding per settlement and what the admin announced |
| RewardFlow.PayoutsWithinEmissions | contracts/lp-staking/src/contract.rs:284-416 | end to end: paid + pending + residue is within what the schedules emitted and the bulks promised, plus the admin's announcements, up to the rounding per settlement; what was paid alone is within emissions and promises without slack |
| RewardFlow.QueryForecastsRedeem | contracts/lp-staking/src/contract.rs:658-680 | in any reachable world and for any block not before its last one, the pool's query on its sources' answers forecasts what a redeem in that block pays |
| PollTally.AlwaysExact | contracts/secret-poll/src/contract.rs:132-302 | in every reachable state each tally slot is the power of the voters who chose it, voters are counted once, the revealed list is duplicate-free and within the committee, and finalized holds exactly from the n-th reveal on |
| PollTally.UpdateFailsOnlyForTheNew | contracts/secret-poll/src/contract.rs:417-454 | a vote update fails if and only if the new vote's choice or sums do not fit: removing the old vote never underflows or misses its choice |
| PollTally.TallyTotal | contracts/secret-poll/src/contract.rs:281-290 | the summed tally is the power of all voters, and no slot exceeds it |
| PollTally.DecisionMeans | contracts/secret-poll/src/contract.rs:276-291 | the n-th reveal makes the poll valid if and only if all voters' power reaches (quorum + 1) percent of the stake and some choice's voters have more power than the threshold |
| PollTally.VerdictIsFinal | contracts/secret-poll/src/contract.rs:220-302 | strictly after the end votes and tally are frozen, and once finalized the verdict never changes |
| PollHistory.PollFromCalls | contracts/secret-poll/src/contract.rs:132-302 | in every reachable state the votes that stand, the digest of the last vote, and who revealed in which order are what the calls alone say, and the poll's terms are those it was started with |
| PollHistory.TallyFromCalls | contracts/secret-poll/src/contract.rs:417-454 | the published tally is the power of the votes that the calls leave standing for each choice |
| PollHistory.RunInSeason | contracts/secret-poll/src/contract.rs:132-302 | in any run votes and reports come no later than the end, reports only from the factory, reveals no earlier than the end and only from the committee |
| PollHistory.NothingDecidedEarly | contracts/secret-poll/src/contract.rs:225-228 | if anybody is recorded as a revealer, or the poll is finalized, some reveal of the run came at the end time or later |
| PollHistory.RevealRecordedIff | contracts/secret-poll/src/contract.rs:220-302 | a reveal is recorded if and only if it comes no earlier than the end, from a member of the committee who has not revealed, with the digest of the last committed vote, and, if it decides, the arithmetic is defined |
| PollHistory.VoteTakenIff | contracts/secret-poll/src/contract.rs:132-182 | a vote is taken if and only if it comes no later than the end, for an existing choice, and its slot and the count of voters fit |
| PollHistory.ReportTakenIff | contracts/secret-poll/src/contract.rs:184-218 | a report of power is taken if and only if it comes no later than the end, from the owner, and the voter's slot fits |
| VotingPower.ActiveKeepsOpen | contracts/poll-factory/src/contract.rs:403-428 | pruning keeps exactly the polls with end time not before now |
| VotingPower.HookSyncs | contracts/poll-factory/src/contract.rs:220-252 | from a synced world a settling hook is never stopped by the polls and leaves every open poll with every voter's new stake |
| VotingPower.CreateStep | contracts/poll-factory/src/contract.rs:115-218 | a new poll starts synced and is registered with the end time it has itself |
| PollCreation.FactoryStays | contracts/poll-factory/src/contract.rs:115-252 | over any run the factory keeps its terms and counts exactly the polls it created |
| PollCreation.CreatedAsAsked | contracts/poll-factory/src/contract.rs:115-218 | a poll is created if and only if its author has the minimum stake, its texts and choices are long enough and its end fits; it is then exactly what was asked for, with the asked configuration or else the factory's, and is listed with its own end |
| VotingPower.VotesAreStakes | contracts/lp-staking/src/contract.rs:312-407 | over runs without emergency redeem every recorded vote on an open poll is worth its voter's stake, and no tally exceeds the stake there is |
| VotingPower.ForwardingNeverBlocks | contracts/poll-factory/src/contract.rs:206-252 | a deposit or redeem hook commits with all polls attached if and only if it commits without them |
| VotingPower.EmergencyKeepsVotesIff | contracts/lp-staking/src/contract.rs:522-558 | an emergency redeem keeps votes equal to stakes if and only if its user had no stake or no vote on an open poll |
| TokenSupply.TransferMoves | contracts/gov-token/src/contract.rs:897-923 | a transfer, also to oneself, commits exactly if the sender can pay, and moves exactly the amount |
| TokenSupply.BalancesAreSupply | contracts/gov-token/src/contract.rs:24-81 | in every reachable state balances fall short of the supply by exactly what initial entries overwrote, equality holds exactly if they overwrote nothing, and the supply is what was issued minus what was burned |
| TokenSupply.NothingLostIff | contracts/gov-token/src/contract.rs:33-45 | initial balances are the supply if and only if every overwritten entry is zero; in particular for distinct addresses |
| TokenSupply.ErrorsNeverSeen | contracts/gov-token/src/contract.rs:315-343 | account overflow at a mint, "too rich" and "more than the total supply" never occur in a reachable state |
| TokenSupply.SpendingWithinGrants | contracts/gov-token/src/contract.rs:549-794 | over any run a spender moves and burns no more of an owner's tokens than the owner granted, allowance left included |
| LedgerHistory.SpendsWithinAllowance | contracts/gov-token/src/contract.rs:549-794 | until it is increased again, an allowance covers all that is still spent of it |
| LedgerHistory.RevokedIsRevoked | contracts/gov-token/src/contract.rs:761-794 | after a decrease, what is spent before the next increase is at most what the decrease left, nothing if it took all |
| GovHistory.InitCommitsIff | contracts/gov-token/src/contract.rs:24-81 | a token starts if and only if its initial balances add up to a 128-bit supply and name, symbol and decimals are in range |
| GovHistory.TokenFromCalls | contracts/gov-token/src/contract.rs:24-923 | in every reachable state each balance, the supply, each allowance with its saturation and expiration, the minters and each list of transfers are what the calls alone say |
| GovHistory.CommitsIff | contracts/gov-token/src/contract.rs:298-923 | a call is taken if and only if the caller may make it, of that much and at that time: held balance, unexpired allowance, minter, admin |
| GovHistory.LoweredAllowanceHolds | contracts/gov-token/src/contract.rs:761-794 | over any run, once an owner lowers an allowance its spender moves and burns at most what is left of it until the next increase |
| CashbackRewards.BurnCommitsIff | contracts/cashback/src/contract.rs:962-1020 | a burn commits if and only if the burner holds the amount, there is a supply, and product and counter fit; the reward is then the share of the collected rewards and never exceeds them |
| CashbackRewards.BooksAlwaysKept | contracts/cashback/src/contract.rs:962-1047 | in every reachable state collected plus paid rewards are those notified, and balances are the supply up to what initial entries overwrote |
| CashbackRewards.ErrorsNeverSeen | contracts/cashback/src/contract.rs:362-390 | the three "cannot happen" errors never occur in a reachable state of the cashback token either |
| CashbackRewards.BurnNeverDilutes | contracts/cashback/src/contract.rs:1149-1179 | a burn never lowers the reward balance per remaining token |
| CashbackRewards.SplittingGainsNothing | contracts/cashback/src/contract.rs:1149-1179 | k burns in a row, by anyone, pay together at most what one burn of the whole amount would, and at most k-1 less |
| CashbackBurn.BurnTransaction | contracts/cashback/src/contract.rs:726-1020 | a burn or burn-from with all its messages: it commits if and only if allowed, held and defined; then exactly the owner's balance and the supply are lower, the used allowance too, and the owner is sent her share of the rewards as they stand after the master's report |
| CashbackHistory.InitCommitsIff | contracts/cashback/src/contract.rs:28-83 | a token starts if and only if its initial balances add up to a 128-bit supply and each can be recorded |
| CashbackHistory.TokenFromCalls | contracts/cashback/src/contract.rs:28-1093 | in every reachable state each balance, the supply, each allowance, the collected rewards, the minters and each list of transactions are what the calls alone say |
| CashbackHistory.CommitsIff | contracts/cashback/src/contract.rs:344-1065 | a call is taken if and only if the caller may make it, of that much and at that time, and then sends exactly the stated messages |
| CashbackHistory.LoweredAllowanceHolds | contracts/cashback/src/contract.rs:811-844 | over any run, once an owner lowers an allowance its spender moves and burns at most what is left of it until the next increase |
| HistoryReplay.RoundTripIff | contracts/cashback/src/transaction_history.rs:137-209 | of the private helpers alone: reading a stored action returns it if and only if it is not a burn by somebody else than the owner |
| HistoryReplay.RecordsReadBack | contracts/cashback/src/transaction_history.rs:137-209 | in every reachable state every record in any list is read back as what it was stored for, and every recorded burn is by the owner |
| HistoryReplay.PageIsSlice | contracts/cashback/src/transaction_history.rs:385-416 | a page is its slice of the list, newest first, with the full length, and aborts exactly if the 32-bit offset overflows |
| HistoryReplay.PagesAreHistory | contracts/cashback/src/transaction_history.rs:385-416 | concatenated pages are the whole list, newest first |
| HistoryReplay.DropsExactlyRepeated | contracts/cashback/src/transaction_history.rs:282-319 | dropping repeated ids leaves every id exactly once |
| HistoryReplay.PagesReplayToBalance | contracts/cashback/src/transaction_history.rs:274-416 | in every reachable state the records collected from an account's pages, each id counted once, add up to its balance plus what initial entries overwrote |
| HistoryReplay.HistoriesAgree | contracts/cashback/src/transaction_history.rs:282-373 | in every reachable state a record is in the lists of exactly the accounts it names |
| HistoryReplay.NothingLostForIff | contracts/cashback/src/contract.rs:38-62 | nothing was overwritten for an account if and only if all its initial entries but the last are zero |
| TransferHistory.ListsShowTheSameTransfers | contracts/cashback/src/transaction_history.rs:282-319 | in every reachable state an account's second list is the transfers of its first list, in the same order |
| TransferHistory.TransfersExplainBalance | contracts/gov-token/src/state.rs:81-119 | in every reachable gov-token state an account's recorded transfers, each id counted once, are what its balance differs by from what was issued to it, and a transfer is in the lists of exactly the accounts it names |
| Findings.ClaimsCanExceedAllocations | contracts/lp-staking/src/contract.rs:298-316 | a run of three deposits and two notifications after which 4 can be claimed of 3 allocated |
| Findings.UndisciplinedWeightsOverMint | contracts/weight-master/src/contract.rs:84-148 | a run that mints 13 where one block emits 10 |
| Findings.RepeatedAddressAborts | contracts/weight-master/src/contract.rs:136-146 | a list with one address twice on which the counter subtraction underflows |
| Findings.RepeatedBalancesFallShort | contracts/gov-token/src/contract.rs:33-45 | an account listed twice with balance 1: supply 2, circulating 1 |
| StakingContract.Contract.constructor | contracts/lp-staking/src/contract.rs:24-101 | a new pool has no users, no supply and an accumulator of zero |
| StakingContract.Contract.UpdateRewards | contracts/lp-staking/src/contract.rs:780-805 | the stored pool after a notification, and when it aborts |
| StakingContract.Contract.NotifyAllocation | contracts/lp-staking/src/contract.rs:211-235 | only sources and the admin notify; state and messages of the state machine |
| StakingContract.Contract.DepositHook | contracts/lp-staking/src/contract.rs:284-333 | the in-place deposit leaves exactly the state and messages of the state machine, or aborts when it does |
| StakingContract.Contract.RedeemHook | contracts/lp-staking/src/contract.rs:351-416 | the in-place redeem leaves exactly the state and messages of the state machine, or aborts when it does |
| StakingContract.Contract.EmergencyRedeem | contracts/lp-staking/src/contract.rs:522-558 | gives back the stake, zeroes the user, sends no reward and tells no subscriber |
| StakingContract.Contract.UpdateAllocation | contracts/lp-staking/src/contract.rs:807-847 | every source is asked in order, and the self-callback comes last |
| StakingContract.Contract.NotifySubscribers | contracts/lp-staking/src/contract.rs:319-324 | one message per subscriber, in order, with the new stake |
| StakingContract.Contract.QueryPending | contracts/lp-staking/src/querier.rs:9-37 | the loop's result is the sum of all answers, or an abort exactly if it does not fit |
| StakingContract.Contract.QueryPendingRewards | contracts/lp-staking/src/contract.rs:658-680 | the query in the source's steps is the state machine's query on the summed answers |
| StakingContract.Contract.Handle | contracts/lp-staking/src/contract.rs:103-146 | dispatch in the stopped and the running contract |
| WeightMasterContract.Contract.constructor | contracts/weight-master/src/contract.rs:14-34 | a new contract has total weight one and a sorted schedule |
| WeightMasterContract.Contract.SetSchedule | contracts/weight-master/src/contract.rs:52-73 | the stored schedule is the given one, sorted |
| WeightMasterContract.Contract.SetWeights | contracts/weight-master/src/contract.rs:75-155 | the in-place loop over weights, with both counters, follows the state machine entry by entry |
| WeightMasterContract.Contract.UpdateAllocation | contracts/weight-master/src/contract.rs:157-212 | mints if the spy is behind and has weight, and always notifies |
| WeightMasterContract.Contract.QueryPendingRewards | contracts/weight-master/src/contract.rs:316-334 | the query computes the share from the stored checkpoint |
| BulkDistributorContract.GetSpyRewards | contracts/bulk-distributor/src/contract.rs:231-242 | the loop's sum is the release of every bulk over the interval, and aborts exactly if it does not fit |
| BulkDistributorContract.Contract.constructor | contracts/bulk-distributor/src/contract.rs:17-42 | a new distributor has no bulks |
| BulkDistributorContract.Contract.UpdatedRewardBulks | contracts/bulk-distributor/src/state.rs:35-52 | returns and stores the unfinished bulks in order |
| BulkDistributorContract.Contract.UpdateAllocation | contracts/bulk-distributor/src/contract.rs:58-104 | prunes, sends what was released since the last award, and always notifies |
| BulkDistributorContract.Contract.NewBulkReward | contracts/bulk-distributor/src/contract.rs:144-171 | settles first, then adds the bulk, so it is not paid for past blocks |
| BulkDistributorContract.Contract.QueryPendingRewards | contracts/bulk-distributor/src/contract.rs:217-229 | the query over all stored bulks |
| SecretPollContract.Instantiate | contracts/secret-poll/src/contract.rs:19-93 | the init checks, and a first state with an exact empty tally |
| SecretPollContract.Contract.RequireVoteOngoing | contracts/secret-poll/src/contract.rs:469-475 | open up to and including the end time |
| SecretPollContract.Contract.UpdateVote | contracts/secret-poll/src/contract.rs:417-454 | the slots changed in place follow the state machine |
| SecretPollContract.Contract.Vote | contracts/secret-poll/src/contract.rs:132-182 | a committed vote replaces the voter's vote and keeps the tally exact |
| SecretPollContract.Contract.UpdateVotingPower | contracts/secret-poll/src/contract.rs:184-218 | only the factory reports; a recorded voter gets the new power and the tally stays exact |
| SecretPollContract.Contract.Finalize | contracts/secret-poll/src/contract.rs:220-302 | reveal bookkeeping, and the verdict at the n-th reveal |
| SecretPollContract.TotalOf | contracts/secret-poll/src/contract.rs:283 | the checked sum of all slots |
| SecretPollContract.WinnerOf | contracts/secret-poll/src/contract.rs:288 | an element of the tally that no slot exceeds |
| PollFactoryContract.Contract.constructor | contracts/poll-factory/src/contract.rs:20-48 | a new factory has no polls and no challenge |
| PollFactoryContract.Contract.NewPoll | contracts/poll-factory/src/contract.rs:115-186 | needs the minimum stake, stores the challenge, and registers the end time the poll will have |
| PollFactoryContract.Contract.RegisterForUpdates | contracts/poll-factory/src/contract.rs:188-218 | only the outstanding challenge registers, and it is consumed |
| PollFactoryContract.Contract.GetActivePolls | contracts/poll-factory/src/contract.rs:414-428 | the polls that have not ended, in order |
| PollFactoryContract.Contract.RemoveInactivePolls | contracts/poll-factory/src/contract.rs:403-412 | stores and returns the polls that have not ended |
| PollFactoryContract.Contract.UpdateVotingPower | contracts/poll-factory/src/contract.rs:220-252 | only the pool reports; one message per poll that has not ended |
| Snip20Store.Store.PerformTransfer | contracts/gov-token/src/contract.rs:897-923 | the two balances updated one after the other follow the specification, also when they are one account |
| Snip20Store.Store.SpendAllowance | contracts/gov-token/src/contract.rs:560-587 | an expired or too small allowance aborts, otherwise it shrinks by the amount |
| Snip20Store.Store.IncreaseAllowance | contracts/gov-token/src/contract.rs:726-759 | saturating increase, expiration replaced only if given |
| Snip20Store.Store.DecreaseAllowance | contracts/gov-token/src/contract.rs:761-794 | saturating decrease, expiration replaced only if given |
| Snip20Store.Store.MintTo | contracts/gov-token/src/contract.rs:312-343 | supply and balance grow by the amount, each checked |
| Snip20Store.Store.TakeFromAccount | contracts/gov-token/src/contract.rs:863-875 | the balance shrinks by the amount, or insufficient funds |
| Snip20Store.Store.TakeFromSupply | contracts/gov-token/src/contract.rs:877-886 | the supply shrinks by the amount |
| GovTokenContract.Instantiate | contracts/gov-token/src/contract.rs:24-81 | the init loop sets every initial balance and counts them all; then name, symbol and decimals are checked |
| GovTokenContract.Contract.Transfer | contracts/gov-token/src/contract.rs:430-458 | transfer and record |
| GovTokenContract.Contract.TransferFrom | contracts/gov-token/src/contract.rs:549-605 | allowance spent, then transfer, then record |
| GovTokenContract.Contract.Mint | contracts/gov-token/src/contract.rs:298-352 | minters only |
| GovTokenContract.Contract.Burn | contracts/gov-token/src/contract.rs:855-895 | the sender's balance, then the supply |
| GovTokenContract.Contract.BurnFrom | contracts/gov-token/src/contract.rs:655-724 | allowance spent, then the owner's balance, then the supply |
| HistoryStore.Records.StoreTransfer | contracts/cashback/src/transaction_history.rs:282-319 | the new record reaches both lists of owner (if another spent), sender and receiver, in this order |
| HistoryStore.Records.RecordTransfer | contracts/gov-token/src/state.rs:81-119 | gov-token's record of a transfer, in its one list of owner (if another spent), sender and receiver |
| HistoryStore.Records.StoreMint | contracts/cashback/src/transaction_history.rs:321-341 | the new record reaches recipient (if another minted) and minter |
| HistoryStore.Records.StoreBurn | contracts/cashback/src/transaction_history.rs:343-363 | the new record reaches owner (if another burned) and burner |
| HistoryStore.Records.IncrementTxCount | contracts/cashback/src/transaction_history.rs:274-279 | the next id |
| HistoryStore.Records.AppendTx | contracts/cashback/src/transaction_history.rs:365-373 | one record at the end of one account's list |
| HistoryStore.Records.AppendTransfer | contracts/cashback/src/transaction_history.rs:375-383 | one transfer at the end of one account's second list |
| CashbackContract.Instantiate | contracts/cashback/src/contract.rs:28-83 | the init loop sets, counts and records every initial balance |
| CashbackContract.Contract.Transfer | contracts/cashback/src/contract.rs:488-519 | transfer and record |
| CashbackContract.Contract.TransferFrom | contracts/cashback/src/contract.rs:614-673 | allowance spent, transfer, record |
| CashbackContract.Contract.Mint | contracts/cashback/src/contract.rs:344-410 | minters only; supply, balance and record |
| CashbackContract.Contract.Burn | contracts/cashback/src/contract.rs:942-960 | only asks the master to report and calls itself back |
| CashbackContract.Contract.BurnFrom | contracts/cashback/src/contract.rs:726-774 | allowance spent, then as a burn |
| CashbackContract.Contract.UpdateAllocation | contracts/cashback/src/contract.rs:1114-1147 | the master is asked first, the callback comes last |
| CashbackContract.Contract.NotifyAllocation | contracts/cashback/src/contract.rs:1022-1047 | only master and admin add to the reward balance |
| CashbackContract.Contract.SelfCallback | contracts/cashback/src/contract.rs:1049-1065 | only the contract itself carries a burn out |
| CashbackContract.Contract.BurnHook | contracts/cashback/src/contract.rs:962-1020 | balance, reward at the old supply, supply and record, in this order |
| CashbackContract.Contract.TransferReward | contracts/cashback/src/contract.rs:1149-1179 | the reward leaves the reward balance and goes to the burner |

## Left out

- StakingBounds.NeverOverflows: besides the limits on allocations and on their product with the stake it asks that the stake limit itself fit 128 bits, which the other limits do not imply when nothing was allocated.
- EmissionBound.NeverOverMints: runs that change the schedule are not bounded, since past blocks are then paid at the new rates. The same holds for the exact account in EmissionAccount.
- VotingPower.VotesAreStakes: runs in which the factory's pool is replaced or the factory unsubscribed are not covered.
- Admin setters and registration: changing admins, sources, subscribers, masters, tokens and poll defaults, adding or removing single minters, and the tokens' stop switch, which only makes calls abort.
- Viewing keys, signatures, randomness, response padding, logs and serialization; storage is typed maps, and user addresses never meet the fixed keys.
- The digest in `roll_hash`: it is a parameter of a vote. It does not cover the previous digest, so no claim is made that it commits to the history of votes.
- The derivation of the poll factory's challenge, which is a fresh nonce here.
- Token callbacks: `Receive` follows a genuine transfer of the staked token; `Send` is a transfer plus such a callback.
- The reward token inside the composed reward system: sources mint and send it to the pool without failing, and a pool that lacks it aborts. It is distinct from the staked token.
- Subscribers other than a poll factory, and spies other than the pool, receive their messages without answering.
- In runs of the cashback token alone the master's report and the callback are calls like any other; `CashbackBurn` puts them together into one transaction.
- `sort_by` of Rust's library is a stable sorting function here, not an in-place algorithm.
- Paging through the lists of transfers, which is done as for the list of all transactions.
- The append store's own 32-bit length; lengths of titles and token names are counted in characters, not bytes.
- Memo, denomination, block time and height of records, and the names and aliases of a poll beyond their lengths.
- The state of a handler that aborts, which the chain discards.
- dev-fund, cashback-minter, the example receivers and the Ethereum contracts: thin or vendored code.
