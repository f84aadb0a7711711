# A verified model of the system contract

The project models the resource exchange (REX), staking, voting and rewards of the `eosio.system` contract, on top of
the core token's ledger, and proves what holds in every run of them.

The tables and singletons are one value, `Chain.State`. Every action is given twice. `Rex`, `Staking`, `Voting`,
`Rewards` and `System` say what it does as functions from a state to a `Result`, where a failed `check` is a
`Failure`. `Contract.SystemContract` is the contract itself: an object whose methods change its tables in place, with
the source's loops, and end exactly as those functions say. `Push` runs an action as the chain does: one that aborts
leaves no trace. The other modules prove properties of the functions, and through `Push` and `PushAll` of the object.

| module | what it is about |
|---|---|
| `Outcomes`, `Arithmetic`, `Sums`, `Chain` | results and aborts, floor division, sums over tables, table rows and constants |
| `Maturity`, `Pools`, `Loans`, `Token` | the maturity deque, the pool totals, a loan table, the token ledger |
| `Rex`, `Staking`, `Voting`, `Rewards`, `System` | the actions, and runs of them |
| `Contract` | the contract as an object with loops |
| `OracleChoice` | the weighted choice of oracles |
| `Ledger` | what the tables add up to, and the invariant |
| `Maintenance`, `Exchange`, `Stakes`, `VotingProofs`, `RewardProofs` | each action keeps the invariant and conserves |
| `Runs`, `Theorems` | the invariant over runs: solvency, price, emptiness, tally |
| `Impossible` | checks the source calls impossible to fail never do |
| `Liveness` | every sell order is filled in the end |
| `Ownership` | nobody else's action takes what a user owns |
| `StakeRecord`, `Drift` | the stake for voting is what backs it, and how unstaking into REX breaks that |
| `Lending`, `Savings`, `Payouts` | what becomes of a loan, of a balance, and of the rewards, action by action |
| `Settlement`, `Pricing`, `RoundTrips` | what an action brings its owner; rental pricing; what one action does another undoes |

## How to read the model

- Amounts are unbounded integers; the 2^62 bound on REX is proved, other overflows are not modelled. Divisions are
  floors, or toward zero where a negative operand is possible. Vote weights are whole numbers, because `stake2vote`
  returns the stake (contracts/eosio.system/src/voting.cpp:120-124). Shares are in votes times microseconds.
- Time is an input of every action, in microseconds, and does not go back in a run. `InEpoch` keeps it where a maturity
  date still fits `time_point_sec`.
- An account is its 64-bit name. Actions that move tokens are pushed by users, not by the accounts the contract keeps
  for others (`System.Permitted`); the proceeds of a closed auction are in `eosio.names` beyond those promised before.
- A loan table is kept in the order of its expiration index, and `queue` is the part of the order table's time index
  that holds open orders.

## Where the code does less than its comments or names say

- Pending oracle punishment is added to itself when a claim cannot settle it
  (contracts/eosio.system/src/producer_pay.cpp:238): `RewardProofs.PendingPunishmentCountedOnce` gives the exact case.
- A claim aborts while fewer than 154 units of inflation are due, because the oracles' share is then zero and a zero
  transfer is refused: `RewardProofs.InflateMoves`.
- The standby oracle is a different one (contracts/eosio.system/src/oracle.cpp:176) in every slot exactly if no two
  candidates share an account: `OracleChoice.StandbyDiffers`. The last candidate may be out of reach as standby:
  `OracleChoice.LastAsStandby` says for whom.
- `unstaketorex` discards the change of vote stake (contracts/eosio.system/src/rex.cpp:110), so the stake on record
  lacks what the holding gained (`StakeRecord.UnstakeToRexLosesGain`, `Drift.UnstakingUnbooked`) and can be too small to book a later sale:
  `Drift.UnstakingLocksIn` gives a case, `Exchange.CollectsExactly` and `Settlement.SaleAccepted` the exact condition.
- `update_rex_stake` checks nothing and can make the stake negative, and a vote with it takes from the voter's credit:
  `Drift.VoteCreditsNegative` gives a case, `RewardProofs.CreditIsSafe` the exact condition.

## Model

| member | source | states |
|---|---|---|
| `Runs.RunKeepsInv` | contracts/eosio.system/src/rex.cpp:662-1110 | one invariant over the whole state (pool ledger, share ledger, order backing, queue order, deque shape, resource weights, refunds, vote tally, reward buckets, token backing) holds in every state of every run of all actions |
| `Runs.GenesisInv` | contracts/eosio.system/src/eosio.system.cpp:11-42 | the state before anything happened keeps that invariant, so every state reached from it does |
| `Runs.ApplyEffect` | contracts/eosio.system/src/rex.cpp:12-479 | every action that succeeds keeps the invariant, changes what `eosio.rex` and `eosio.stake` hold beyond their debts by plain gifts alone, and never lowers the price of REX; voter rewards stay backed exactly when the vote is credited with stake that does not bring unpaid votes below zero |
| `Theorems.RunConserves` | contracts/eosio.system/src/rex.cpp:12-68 | over any run, tokens into `eosio.rex` minus tokens out equal the change of all funds, lendable tokens, loan balances and uncollected proceeds together (but for plain gifts), and the same of `eosio.stake`, delegations and refunds |
| `Theorems.WithdrawNeverShort` | contracts/eosio.system/src/rex.cpp:32-46 | a withdrawal within the fund always finds `eosio.rex` able to pay; it is refused exactly for a non-positive amount, a refused vote stake, or a fund that is too small |
| `Theorems.UnstakeNeverShort` | contracts/eosio.system/src/rex.cpp:83-107 | the transfer out of `eosio.stake` cannot fail once the delegation covers it |
| `Theorems.RunKeepsPrice` | contracts/eosio.system/src/rex.cpp:1096-1107 | in every run that leaves the pool non-empty, `lendable' * rex >= lendable * rex'` from start to end |
| `Theorems.HeldValueNeverFalls` | contracts/eosio.system/src/rex.cpp:817-838 | REX bought by `buyrex` or `unstaketorex` is worth at least the payment less one unit at the end of that action, maintenance included, and through any later run that keeps the pool non-empty (given that the purchase leaves at least as many shares as there were units to lend) |
| `Theorems.PurchaseThenMaintenance` | contracts/eosio.system/src/rex.cpp:53-68 | the maintenance that follows a purchase in the same action succeeds and never lowers the price the purchase was made at |
| `Theorems.RexStaysBelowLimit` | contracts/eosio.system/src/rex.cpp:1061-1068 | with a supply within 4 * 10^14 units `total_rex` stays below 2^62 in every reachable state, because lendable never exceeds the supply |
| `Theorems.EmptyPool` | contracts/eosio.system/src/rex.cpp:1084-1095 | `total_rex == 0` iff `total_lendable == 0`; then no loan runs, lent and unlent are 0 and nobody holds REX, so starting the pool over loses nothing |
| `Theorems.PurchaseNeverRefused` | contracts/eosio.system/src/rex.cpp:1094-1107 | neither "lendable REX pool is empty" nor "this should never go negative" can fail |
| `Theorems.BucketsStayFew` | contracts/eosio.system/src/rex.cpp:1003-1010 | no reachable balance has more than five maturity buckets, or any bucket behind its savings bucket; the balance is matured REX plus all buckets |
| `Theorems.TallyIsRecount` | contracts/eosio.system/src/voting.cpp:126-149 | at any time the stored triple (total, rate, time) stands for the sum over producers of stored share plus own accrual, `total_producer_vote_weight` for the sum of all votes, and each producer's votes for the sum over its voters |
| `Theorems.RunKeepsVoteRewards` | contracts/eosio.system/src/producer_pay.cpp:422-450 | the vote bucket is never overdrawn in a run in which no vote is credited below zero |
| `StakeRecord.RunBooks` | contracts/eosio.system/src/delegate_bandwidth.cpp:416-439 | over any run the stake on record moves with delegations, the recorded value of REX and filled orders, but for what unstaking into REX and erasing a balance leave out |
| `StakeRecord.StakeIsBacked` | contracts/eosio.system/src/delegate_bandwidth.cpp:236-439 | from genesis, a voter that neither unstakes into REX nor closes its account has at any time exactly its delegations plus the recorded value of its REX, less what a filled order has still to book, as stake for voting |
| `StakeRecord.ActionBooks` | contracts/eosio.system/src/rex.cpp:53-479 | every action books what it records: buying, selling, revaluing, voting, delegating and maintenance alike keep that equation, and the two exceptions miss it by a stated amount |
| `StakeRecord.UnstakeToRexLosesGain` | contracts/eosio.system/src/rex.cpp:78-114 | unstaking into REX leaves out exactly what the holding had gained since it was last valued |
| `StakeRecord.CloseErasesRecord` | contracts/eosio.system/src/rex.cpp:445-479 | closing an account leaves out the recorded value of the balance it erases |
| `StakeRecord.BuyingBooks` | contracts/eosio.system/src/rex.cpp:53-68 | `buyrex` moves the stake for voting by exactly what the balance is recorded at more, along with the change of a filled order it collects; without an order the recorded value is the current one of the whole holding |
| `Impossible.NoInternalError` | contracts/eosio.system/src/rex.cpp:404-407 | in no run does an action of the exchange or on stakes abort on "logic error", "programmer error", "should never happen", "should not occur", a negative resource total, an empty or negative pool, or divide by zero |
| `Impossible.MoveToSavingsSane` | contracts/eosio.system/src/rex.cpp:377-410 | the two internal checks of `mvtosavings` are unreachable |
| `Impossible.ChangeBandwidthSane` | contracts/eosio.system/src/delegate_bandwidth.cpp:236-347 | the checks on resource totals and on refunds cannot fail once the delegation checks pass |
| `Impossible.RunRexSane` | contracts/eosio.system/src/rex.cpp:662-767 | maintenance aborts only before there is a pool |
| `Liveness.OrderIsFilled` | contracts/eosio.system/src/rex.cpp:646-767 | every sell order is filled in the end: from 30 days after it was queued, as many `rexexec` calls with max >= 1 as there are loans left and orders ahead, plus one, fill it, whatever everyone else does meanwhile |
| `Liveness.WaitingStep` | contracts/eosio.system/src/rex.cpp:582-595 | while an order waits no action adds or prolongs a loan, and no later order gets ahead of it |
| `Liveness.ExecProgress` | contracts/eosio.system/src/rex.cpp:706-764 | each maintenance, once loans are due, closes a loan or moves the order forward; with nothing lent it fills the first order |
| `Liveness.OldestAreFilled` | contracts/eosio.system/src/rex.cpp:741-764 | once no loan is left, a maintenance fills exactly as many orders as `max` allows, the oldest ones |
| `Liveness.WaitedThroughout` | contracts/eosio.system/src/rex.cpp:124-172 | nobody but its owner takes an order away: others' actions can only fill it |
| `Ownership.OthersTakeNothing` | contracts/eosio.system/src/rex.cpp:662-767 | no action of anybody else shrinks a user's fund, tokens, delegations or refund, and its REX stays as it is unless its own order is filled for at least the value before the action |
| `Ownership.RunTakesNothing` | contracts/eosio.system/src/rex.cpp:12-479 | the same of funds, tokens, delegations and refunds over whole runs |
| `Ownership.RunKeepsWorth` | contracts/eosio.system/src/rex.cpp:817-851 | over any run of others' actions that never empties the pool, the worth of a user's REX with uncollected proceeds falls by at most one unit, and not at all if no order was filled |
| `Ownership.RunHolds` | contracts/eosio.system/src/rex.cpp:741-764 | a filled order brings at least what its REX was worth at any earlier price |
| `Maintenance.RunRexKeeps` | contracts/eosio.system/src/rex.cpp:662-767 | maintenance never aborts from a state that keeps the invariant, keeps it, conserves what the exchange owes and never lowers the price |
| `Lending.DueAreServed` | contracts/eosio.system/src/rex.cpp:706-739 | maintenance serves exactly as many due loans of each kind as `max` allows, as long as none is late by a whole term; if it may serve all, none is due afterwards |
| `Maintenance.ExpireLoanKeeps` | contracts/eosio.system/src/rex.cpp:667-696 | an expired loan is renewed or closed without aborting |
| `Maintenance.CloseLoanKeeps` | contracts/eosio.system/src/rex.cpp:684-692 | closing a loan returns its stake to unlent, refunds its balance, and takes its stake off the receiver's total |
| `Maintenance.RenewLoanKeeps` | contracts/eosio.system/src/rex.cpp:645-655 | a renewal keeps the loan table sorted and the sums over it in agreement with the pool (its terms: `Lending.ExpiredLoanSettles`) |
| `Lending.ExpiredLoanSettles` | contracts/eosio.system/src/rex.cpp:667-696 | an expired loan that covers its payment goes on at the floor price of the moment for exactly 30 days more, with all other loans as they were; if that is unfavourable or an order waits it is gone, its creator has the rest back and its receiver is without its stake |
| `Lending.RenewedStands` | contracts/eosio.system/src/rex.cpp:643-655 | after a renewal exactly one loan has that number: same creator, receiver and payment, the payment less set aside, 30 days later |
| `Lending.LoansAreServed` | contracts/eosio.system/src/rex.cpp:706-739 | over a whole maintenance every loan left is one of before, or one that was due, prolonged by whole 30-day terms each paid for; a loan whose term is not over is untouched |
| `Maintenance.FillOrderKeeps` | contracts/eosio.system/src/rex.cpp:741-764 | the owner's balance row always exists, as the comment says, and filling keeps the books |
| `Maintenance.ChannelToRexKeeps` | contracts/eosio.system/src/rex.cpp:965-978 | fees reach the lenders in full |
| `Maintenance.SweepNamebidsKeeps` | contracts/eosio.system/src/rex.cpp:698-704 | promised auction proceeds are always in `eosio.names`, and no longer promised afterwards |
| `Pools.AddPurchaseKeeps` | contracts/eosio.system/src/rex.cpp:1059-1110 | buying never fails on a sound pool, adds exactly the payment to lendable, keeps `rex <= 10000 * lendable` and never lowers the price |
| `Pools.PurchaseTerms` | contracts/eosio.system/src/rex.cpp:1059-1110 | a first purchase gets 10000 REX a unit and starts the rent connector over; any other gets the whole part of payment * rex / lendable |
| `Pools.AddLoanKeeps` | contracts/eosio.system/src/rex.cpp:603-619 | a loan keeps `lendable == lent + unlent`, raises lendable by the payment, and never lowers `rent * unlent` |
| `Pools.RemoveLoanKeeps` | contracts/eosio.system/src/rex.cpp:626-641 | ending a loan returns its stake without changing lendable or the price, and never lowers `rent * unlent` |
| `Pools.AddFeeKeeps` | contracts/eosio.system/src/rex.cpp:965-970 | a fee raises the price and never lowers `rent * unlent` |
| `Pools.SellKeeps` | contracts/eosio.system/src/rex.cpp:817-851 | a sale pays the floor of the pool price, keeps the price for those who stay, leaves `unlent >= floor(2 * lent / 10)`, always fills with nothing lent, and selling everything leaves nothing |
| `Pools.RentThenExpire` | contracts/eosio.system/src/rex.cpp:603-641 | renting and expiring with nothing between leaves lendable up by exactly the payment and the rent connector strictly higher |
| `Pools.BuyThenSellAtMost` | contracts/eosio.system/src/rex.cpp:817-838 | REX just bought never sells for more than was paid |
| `Pools.BuyThenSellAtLeast` | contracts/eosio.system/src/rex.cpp:1096-1104 | and for at most one unit less, given at least as many shares as units |
| `Pools.ValueKept` | contracts/eosio.system/src/rex.cpp:821-824 | a holding is worth no less after the price was kept |
| `Pools.RexFitsAsset` | contracts/eosio.system/src/rex.cpp:1061-1068 | a lendable amount within 4 * 10^14 units keeps shares below 2^62 |
| `Pricing.RentedIsFloor` | contracts/eosio.system/src/rex.cpp:492-504 | the tokens rented are the floor of I * T / (I + F) and never all there is |
| `Pricing.RentKeepsProduct` | contracts/eosio.system/src/rex.cpp:769-799 | renting, maintenance and all, never lowers `rent * unlent` while no order waits, and lends more than it costs |
| `Pricing.RunRexKeepsProduct` | contracts/eosio.system/src/rex.cpp:667-739 | neither do renewing, expiring and fee channeling |
| `Pricing.PurchaseKeepsProduct` | contracts/eosio.system/src/rex.cpp:1084-1107 | nor buying, even where it starts the pool over |
| `Maturity.MoveToSavingsKeeps` | contracts/eosio.system/src/rex.cpp:386-408 | the furthest maturities go first: by every date from now on the owner can sell the lesser of what was sellable and of all non-savings REX that remains; refused exactly when order, savings and amount exceed the balance |
| `Maturity.MoveFromSavingsKeeps` | contracts/eosio.system/src/rex.cpp:417-438 | refused exactly beyond the savings; the REX becomes sellable at today's maturity date and no sooner |
| `Maturity.ConsolidateKeeps` | contracts/eosio.system/src/rex.cpp:1034-1050 | the open order stays sellable, savings stay, everything else matures together; the total is conserved |
| `Maturity.AddMaturingKeeps` | contracts/eosio.system/src/rex.cpp:1142-1156 | REX bought is sellable from today's maturity date, nothing else changes its date |
| `Maturity.MatureKeeps` | contracts/eosio.system/src/rex.cpp:1017-1026 | maturing changes neither the total nor what is sellable by any date |
| `Maturity.TakeFurthestCaps` | contracts/eosio.system/src/rex.cpp:388-397 | the loop takes from the back: what is due by any date is capped, never shifted |
| `Maturity.FiveBuckets` | contracts/eosio.system/src/rex.cpp:1003-1010 | at most five maturity buckets and at most one savings bucket, at the back |
| `Maturity.MaturityWindow` | contracts/eosio.system/src/rex.cpp:1003-1010 | a new bucket's date is a day boundary in (now + 4 days, now + 5 days] |
| `Exchange.DepositKeeps` | contracts/eosio.system/src/rex.cpp:12-25 | a deposit keeps the invariant and conserves |
| `Exchange.WithdrawKeeps` | contracts/eosio.system/src/rex.cpp:32-46 | so does a withdrawal |
| `Exchange.BuyRexKeeps` | contracts/eosio.system/src/rex.cpp:53-68 | buying REX keeps the invariant and conserves (the stake it books: `StakeRecord.BuyingBooks`; when the REX matures: `Savings.BoughtRexMatures`) |
| `Exchange.UnstakeToRexKeeps` | contracts/eosio.system/src/rex.cpp:78-114 | so does buying with staked tokens: what stakes are owed falls by what REX is owed more |
| `Exchange.SellRexKeeps` | contracts/eosio.system/src/rex.cpp:124-172 | so does selling, filled or queued |
| `Exchange.CancelOrderKeeps` | contracts/eosio.system/src/rex.cpp:179-186 | so does cancelling an order |
| `Exchange.RentKeeps` | contracts/eosio.system/src/rex.cpp:769-799 | renting keeps the invariant and conserves; the receiver's total grows by the loan (whose loan it is: `Lending.LoanIsTaken`) |
| `Exchange.FundLoanKeeps` | contracts/eosio.system/src/rex.cpp:853-864 | so does funding a loan |
| `Exchange.DefundLoanKeeps` | contracts/eosio.system/src/rex.cpp:866-878 | so does defunding it |
| `Exchange.UpdateRexKeeps` | contracts/eosio.system/src/rex.cpp:297-321 | so does revaluing a holding |
| `Exchange.SetRexKeeps` | contracts/eosio.system/src/rex.cpp:328-338 | so does setting the rent connector |
| `Exchange.ConsolidateKeeps` | contracts/eosio.system/src/rex.cpp:360-369 | so does consolidating |
| `Exchange.MoveToSavingsKeeps` | contracts/eosio.system/src/rex.cpp:377-410 | moving REX to savings keeps the invariant and conserves (what is moved: `Savings.SavingsGrow`) |
| `Exchange.MoveFromSavingsKeeps` | contracts/eosio.system/src/rex.cpp:417-438 | so does moving it back |
| `Exchange.CloseRexKeeps` | contracts/eosio.system/src/rex.cpp:445-479 | closing an account erases empty rows only |
| `Exchange.RexExecKeeps` | contracts/eosio.system/src/rex.cpp:347-352 | maintenance alone succeeds and keeps the invariant |
| `Exchange.CollectsExactly` | contracts/eosio.system/src/rex.cpp:935-958 | an owner can collect exactly when there is no stake to book, or the stake on record can take the change, b1's lock included, and the vote can be recast |
| `Exchange.NewLoanKeeps` | contracts/eosio.system/src/rex.cpp:782-795 | a new loan is booked for its receiver: pool, sorted table and the receiver's total follow together |
| `Lending.LoanIsTaken` | contracts/eosio.system/src/rex.cpp:769-799 | a rental leaves exactly one new loan, with a number no loan had: created by the renter for the receiver, the payment and the sum set aside as given, the floor price as stake, 30 days from now; payment and sum have left the renter's fund, and no other loan or fund has changed |
| `Lending.RenterMayDefund` | contracts/eosio.system/src/rex.cpp:769-878 | the renter can have back at once what it set aside |
| `Lending.LoanIsFunded` | contracts/eosio.system/src/rex.cpp:853-864 | funding is refused exactly when the fund does not cover it or the creator has no such loan running; otherwise that loan alone has the payment more |
| `Lending.LoanIsDefunded` | contracts/eosio.system/src/rex.cpp:866-878 | defunding is refused exactly when the amount is not positive, the loan does not hold it, or the creator has no such loan running |
| `Savings.BoughtRexMatures` | contracts/eosio.system/src/rex.cpp:1121-1157 | a buyer without an order ends with all the REX issued for its payment, sellable from today's maturity date on, and nothing else of its balance has changed its date |
| `Savings.SavingsGrow` | contracts/eosio.system/src/rex.cpp:377-410 | `mvtosavings` is accepted if and only if the owner has a balance, the amount is positive, the account can be settled, and amount, open order and savings fit the balance; then exactly the amount is in savings, by every date the lesser of what was sellable and of what remains outside savings is, and nobody else's balance differs from maintenance |
| `Savings.SavingsShrink` | contracts/eosio.system/src/rex.cpp:417-438 | `mvfrsavings` is accepted if and only if the savings hold the positive amount and the account can be settled; exactly the amount leaves savings and is sellable from today's maturity date on |
| `Savings.BalanceIsGathered` | contracts/eosio.system/src/rex.cpp:360-369 | `consolidate` leaves the open order sellable and savings as they were; all else is sellable from today's maturity date on and not before |
| `Savings.HoldingIsRevalued` | contracts/eosio.system/src/rex.cpp:297-321 | `updaterex` is accepted if and only if there is a balance and the stake on record can take the change; the balance is recorded at the current price, the stake has moved by as much, and exactly what was due has matured |
| `Savings.AccountIsClosed` | contracts/eosio.system/src/rex.cpp:445-479 | `closerex` is accepted if and only if no REX remains and the account can be settled; it erases the balance and, unless something is in it or a loan remains, the fund, and takes nothing from anybody |
| `Settlement.AccountPays` | contracts/eosio.system/src/rex.cpp:935-957 | collecting pays the proceeds of a filled order to its owner's fund, and nothing to anybody else |
| `Settlement.SaleIsPaid` | contracts/eosio.system/src/rex.cpp:124-172 | a sale is filled exactly if its value fits what may leave the pool; then the owner's fund gets the pool price and its holding shrinks by the amount, otherwise the amount joins its open order |
| `Settlement.SaleAccepted` | contracts/eosio.system/src/rex.cpp:124-172 | a sale is accepted if and only if, after maintenance, the matured REX covers it beside the open order and either its price is not nothing or, if it must wait, the seller is not b1, and the stake on record can take the change |
| `Settlement.PurchaseIsReceived` | contracts/eosio.system/src/rex.cpp:1059-1157 | a payment reaches lendable in full and the buyer gets all the REX issued for it, nobody else any |
| `Settlement.OrderIsPaid` | contracts/eosio.system/src/rex.cpp:741-764 | maintenance fills an order exactly if its value fits what may leave the pool; then the value waits as proceeds, the balance is less the REX and recorded anew, and the order is out of the queue; else nothing changes |
| `Settlement.ProceedsAreSwept` | contracts/eosio.system/src/rex.cpp:698-704 | the promised auction proceeds reach the lenders in full, or, without REX, no one; none are promised afterwards |
| `Settlement.RamFeeIsPassedOn` | contracts/eosio.system/src/rex.cpp:965-978 | a RAM fee is paid in full by the trader and goes to the lenders if there is REX, else to the fee account |
| `Settlement.ClaimsReachOwners` | contracts/eosio.system/src/producer_pay.cpp:242-275 | everything a claim takes out of the reward buckets reaches the claimant |
| `RoundTrips.DepositThenWithdraw` | contracts/eosio.system/src/rex.cpp:12-46 | a deposit can be withdrawn at once, and every account and fund is back where it was |
| `RoundTrips.FundThenDefund` | contracts/eosio.system/src/rex.cpp:853-878 | what was added to a running loan can be taken back: the state is as before |
| `RoundTrips.SellThenCancel` | contracts/eosio.system/src/rex.cpp:124-186 | a `sellrex` that had to wait, then `cnclrexorder`: the state is what maintenance and the settling of the owner's account left, with due buckets matured |
| `RoundTrips.DelegateThenUndelegate` | contracts/eosio.system/src/delegate_bandwidth.cpp:236-472 | `delegatebw`, then `undelegatebw` of the same: every delegation, every receiver's weight and every other refund is back; the refund holds pending plus amount (to others) or the larger of both (to oneself), its term starts over, and exactly what was paid in stays in `eosio.stake` |
| `Stakes.ChangeBandwidthKeeps` | contracts/eosio.system/src/delegate_bandwidth.cpp:236-414 | a stake change conserves `eosio.stake` against delegations and refunds, for actors other than the contract's own accounts, and keeps weights in agreement (the stake it books: `StakeRecord.DelegatingBooks`) |
| `Stakes.StakeTablesKeep` | contracts/eosio.system/src/delegate_bandwidth.cpp:250-320 | delegations and totals change together: each receiver's weight stays the delegations to it plus the loans to it, and once the delegation may change so may the totals |
| `Stakes.SettleBalances` | contracts/eosio.system/src/delegate_bandwidth.cpp:322-388 | netting never fails, never leaves an empty refund row, and what refunds do not absorb is what is paid in |
| `Stakes.SettlePerResource` | contracts/eosio.system/src/delegate_bandwidth.cpp:333-388 | an own delegation draws on each resource's pending refund before any transfer; a withdrawal waits in full with its term starting over; a delegation to others leaves refunds alone |
| `Stakes.SettleStakeKeeps` | contracts/eosio.system/src/delegate_bandwidth.cpp:322-410 | the transfer is exactly what is due |
| `Stakes.DelegateKeeps` | contracts/eosio.system/src/delegate_bandwidth.cpp:441-452 | delegating keeps the invariant and conserves |
| `StakeRecord.BandwidthBooks` | contracts/eosio.system/src/delegate_bandwidth.cpp:236-439 | a stake change moves the stake for voting of its owner by both resources, on top of the current value of its REX, and nobody else's |
| `StakeRecord.DelegatingBooks` | contracts/eosio.system/src/delegate_bandwidth.cpp:413-439 | delegating adds both resources to the stake for voting of the receiver if the stake is transferred, of the source if not, on top of the current value of its REX; no other voter's row changes |
| `StakeRecord.UndelegatingBooks` | contracts/eosio.system/src/delegate_bandwidth.cpp:454-472 | undelegating takes both resources off it; with more than 100 tokens staked the account is no longer an active producer, and no other producer is activated or deactivated |
| `RoundTrips.DelegationIsMade` | contracts/eosio.system/src/delegate_bandwidth.cpp:250-410 | the delegation of the right pair and its receiver's weights alone grow by the amounts, and the source pays what is due, an own delegation drawing on its pending refund first |
| `RoundTrips.UndelegatedWaits` | contracts/eosio.system/src/delegate_bandwidth.cpp:454-472 | undelegated stake leaves delegation and weights and waits in full in the owner's refund, whose term starts over; no tokens move |
| `Stakes.UndelegateKeeps` | contracts/eosio.system/src/delegate_bandwidth.cpp:454-472 | so does undelegating |
| `Stakes.ClaimRefundKeeps` | contracts/eosio.system/src/delegate_bandwidth.cpp:474-489 | so does claiming a refund |
| `Stakes.RefundIsPaid` | contracts/eosio.system/src/delegate_bandwidth.cpp:474-489 | a refund is refused only before its time: `eosio.stake` always covers it |
| `Ledger.ChangeDelegationStakes` | contracts/eosio.system/src/delegate_bandwidth.cpp:250-273 | a delegation is refused exactly when a part would become negative; otherwise its entry changes by the amounts, every other entry stays, and total and receivers' sums follow |
| `Ledger.ChangeTotalsWeights` | contracts/eosio.system/src/delegate_bandwidth.cpp:275-318 | totals are refused exactly when one would become negative, and otherwise change for the receiver alone |
| `Ledger.UpdateResourcesWeights` | contracts/eosio.system/src/rex.cpp:513-561 | the same for changes on behalf of REX |
| `VotingProofs.UpdateVotesTallies` | contracts/eosio.system/src/voting.cpp:253-451 | after a vote every producer's votes are the sum over the voters listing it, the total weight is the sum of votes, and the share triple stands for all shares |
| `VotingProofs.UpdateVotesAccepts` | contracts/eosio.system/src/voting.cpp:253-276 | a vote is refused exactly for a list that is too long, unsorted, or names an unregistered or (when voting) inactive producer, or for an unknown voter |
| `StakeRecord.VoteIsCast` | contracts/eosio.system/src/voting.cpp:231-251 | `voteproducer` is accepted exactly from a known voter that is no producer, for a sorted list of at most 30 registered and active producers, of at least 21 if the voter holds REX; its row then has the list, the current stake, its capped weight, and that much more to be paid for, and no other row has changed |
| `VotingProofs.VoteActivates` | contracts/eosio.system/src/voting.cpp:284-289 | a first vote activates the voter's stake, and the time at which enough is activated is set once, by the vote that makes it enough |
| `VotingProofs.VoteTouches` | contracts/eosio.system/src/voting.cpp:339-378 | every producer a vote touches has its share accrued to now, or loses it after three days without a claim; no other producer is touched |
| `VotingProofs.RegisteredIsActive` | contracts/eosio.system/src/voting.cpp:30-77 | registering is open exactly to voters with more than 100,000 tokens staked; the producer is active, one that comes back keeps votes and work, a new one starts from nothing |
| `VotingProofs.DeactivateThenRegister` | contracts/eosio.system/src/voting.cpp:30-86 | deactivating and registering again gives back the same votes |
| `VotingProofs.B1Vests` | contracts/eosio.system/src/delegate_bandwidth.cpp:228-234 | what b1 must keep staked falls from all its tokens to nothing over ten years of 52 weeks, and never rises |
| `VotingProofs.DeltasAbsorbed` | contracts/eosio.system/src/voting.cpp:344-353 | no producer's votes would fall below zero: the clamp never fires |
| `VotingProofs.UpdateTotalShareRefines` | contracts/eosio.system/src/voting.cpp:126-149 | the fast form refines the recount, and neither of its clamps cuts anything off |
| `VotingProofs.ApplyDeltasBooks` | contracts/eosio.system/src/voting.cpp:339-378 | the loop books every change of votes, rate and dropped shares exactly |
| `VotingProofs.ClaimShareKeeps` | contracts/eosio.system/src/producer_pay.cpp:119-158 | a claim takes exactly the claimant's own share out of the total, and it accrues from zero again |
| `VotingProofs.UpdateVotingPowerKeeps` | contracts/eosio.system/src/delegate_bandwidth.cpp:416-439 | a stake change is refused exactly if it leaves negative stake, unlocks b1's tokens early, or recasts an unregistered list; otherwise the tally follows |
| `VotingProofs.RegisterKeeps` | contracts/eosio.system/src/voting.cpp:30-77 | registering keeps tally and shares |
| `VotingProofs.DeactivateKeeps` | contracts/eosio.system/src/voting.cpp:79-86 | deactivating keeps them, too |
| `VotingProofs.AggregateIsSum` | contracts/eosio.system/src/voting.cpp:126-149 | accrued to any later time, the triple equals the sum of all shares at that time |
| `Runs.VoteEffect` | contracts/eosio.system/src/voting.cpp:231-251 | voting keeps the invariant and credits the voter |
| `RewardProofs.InflateMoves` | contracts/eosio.system/src/producer_pay.cpp:459-548 | inflation succeeds exactly from 154 new units on (below, the oracles' share is zero and its transfer aborts) and within the maximum supply; accounts and buckets grow together, and `eosio.dpay` no less than its two buckets |
| `RewardProofs.ShareInflationKeeps` | contracts/eosio.system/src/producer_pay.cpp:459-468 | claims that share inflation abort exactly when it cannot be issued |
| `RewardProofs.SharesFit` | contracts/eosio.system/src/producer_pay.cpp:473-486 | all shares are positive from 154 units on and never exceed what was issued |
| `Payouts.RateOfInflation` | contracts/eosio.system/src/producer_pay.cpp:459-468 | new tokens are the whole part of 4.879 percent of the supply for a year of 52 weeks, in proportion to time |
| `Payouts.NoGainFromOften` | contracts/eosio.system/src/producer_pay.cpp:459-468 | sharing inflation in two steps on one supply issues no more than in one, and at most a unit less |
| `Payouts.InflationIsSpread` | contracts/eosio.system/src/producer_pay.cpp:470-548 | an issue reaches each of the eleven accounts in its stated share, rounded down, and no other |
| `Payouts.InflationIsShared` | contracts/eosio.system/src/producer_pay.cpp:459-548 | once its clock has started and moved, sharing inflation issues what is due, fills each bucket with its share and moves the clock to now; otherwise it does nothing |
| `RewardProofs.ClaimRewardsKeeps` | contracts/eosio.system/src/producer_pay.cpp:100-277 | a producer's claim keeps accounts in lockstep with buckets, buckets non-negative and counters equal to their sums, and leaves no less for each block and successful request still unpaid |
| `RewardProofs.ClaimRewardsPaid` | contracts/eosio.system/src/producer_pay.cpp:100-277 | with backed buckets it is refused exactly before activation, when inflation cannot be issued, or for a producer that is not active |
| `Payouts.ProducerIsSettled` | contracts/eosio.system/src/producer_pay.cpp:100-277 | a producer is paid exactly its part of each bucket, less what it has to answer for as an oracle, oracle pay first; its counters start over, what could not be withheld is kept, and nobody else's rows change |
| `RewardProofs.PunishConserves` | contracts/eosio.system/src/producer_pay.cpp:217-232 | what is withheld plus what stays open is the punishment, and never more than the pay is withheld |
| `RewardProofs.PendingPunishmentCountedOnce` | contracts/eosio.system/src/producer_pay.cpp:217-240 | the pending punishment after a claim is what stayed open if and only if none was pending before: the source adds the rest to the old amount |
| `RewardProofs.ClaimVoterRewardKeeps` | contracts/eosio.system/src/producer_pay.cpp:422-450 | a voter's claim keeps account and bucket in lockstep and, if nobody has less than nothing to claim, leaves no less for each vote still unpaid |
| `RewardProofs.ClaimVoterPaid` | contracts/eosio.system/src/producer_pay.cpp:422-450 | with backed buckets and no credit below zero it succeeds exactly when inflation, if due, can be issued, the voter is known, its claim period is over, and its part of the bucket is not nothing |
| `Payouts.VoterIsSettled` | contracts/eosio.system/src/producer_pay.cpp:422-450 | a voter is paid exactly the part of the bucket that its unpaid votes are of all; they are then paid, its claim dated, and no other voter has changed |
| `Payouts.DappIsSettled` | contracts/eosio.system/src/producer_pay.cpp:279-420 | a DApp's owner is paid the quoted part of one bucket, after both buckets were filled with their share of the issue |
| `RewardProofs.CreditIsSafe` | contracts/eosio.system/src/voting.cpp:243-250 | crediting a vote is safe exactly when the capped stake does not bring unpaid votes below zero, which only negative stake can |
| `Drift.UnstakingUnbooked` | contracts/eosio.system/src/rex.cpp:78-114 | `unstaketorex` leaves the stake for voting as it was while the vote stake of the balance becomes the current value of the whole holding |
| `Drift.UnstakingLocksIn` | contracts/eosio.system/src/rex.cpp:78-172 | a state that keeps the invariant, in which selling out is accepted, and refused for negative stake once the owner has unstaked its other tokens into REX and all has matured |
| `Drift.VoteCreditsNegative` | contracts/eosio.system/src/voting.cpp:231-251 | a state that keeps the invariant, in which maintenance fills an order and the owner's vote then books a stake of -1 and a credit of -1, so that voter rewards are no longer safe |
| `Drift.RunRexSkips` | contracts/eosio.system/src/rex.cpp:741-764 | maintenance leaves the balance and the order of who has none in the queue exactly as they are |
| `RewardProofs.ClaimDappRewardKeeps` | contracts/eosio.system/src/producer_pay.cpp:279-420 | a DApp's claim takes the same from one bucket and from `eosio.dpay` |
| `RewardProofs.OnBlockKeeps` | contracts/eosio.system/src/producer_pay.cpp:52-73 | a block is counted for its producer and in the total |
| `Payouts.BlockIsCounted` | contracts/eosio.system/src/producer_pay.cpp:39-73 | once the chain is activated a block counts once for its producer and in the total and starts the clocks; before, for nothing |
| `RewardProofs.ReplyKeeps` | contracts/eosio.system/src/oracle.cpp:67-103 | each reply counts one success or none, and the total with it |
| `Payouts.ReplyCounts` | contracts/eosio.system/src/oracle.cpp:44-108 | within five minutes the assigned oracle succeeds, in the next five it fails and the standby succeeds, after that both fail; the assigned one has a request less pending, and no other oracle changes |
| `Payouts.RequestIsPending` | contracts/eosio.system/src/oracle.cpp:24-30 | a request is pending with exactly one oracle, the first that answers to the chosen account |
| `Payouts.OracleIsNamed` | contracts/eosio.system/src/oracle.cpp:110-133 | a registered producer names its oracle account and keeps its record |
| `RewardProofs.PartIsFair` | contracts/eosio.system/src/producer_pay.cpp:137-145 | a part is at most the bucket, and taking it never lowers bucket per remaining unit |
| `OracleChoice.GetCurrentOracle` | contracts/eosio.system/src/oracle.cpp:141-193 | the loops compute the choice: cumulative ranges, lookup, erase, lookup |
| `OracleChoice.FirstIsProportional` | contracts/eosio.system/src/oracle.cpp:156-181 | the first lookup never fails and hits each candidate for exactly as many slots as it weighs |
| `OracleChoice.LookupsSucceed` | contracts/eosio.system/src/oracle.cpp:174-191 | "shouldn't happen" cannot, in either lookup |
| `OracleChoice.SlotChooses` | contracts/eosio.system/src/oracle.cpp:174-191 | for every candidate and every value below the remaining total there is a slot that assigns the candidate and looks that value up second: one number serves two moduli without ruling out any combination |
| `OracleChoice.WeightsGrow` | contracts/eosio.system/src/oracle.cpp:157-171 | a candidate outweighs another exactly if it has fewer requests pending |
| `OracleChoice.StandbyDiffers` | contracts/eosio.system/src/oracle.cpp:176-192 | the standby oracle is always another candidate; it is another account in every slot if and only if no two candidates share an account |
| `OracleChoice.SharedAccountChosenTwice` | contracts/eosio.system/src/oracle.cpp:176-192 | the smallest list for which the comment fails: one account for two producers is assigned and standby in every slot |
| `OracleChoice.LastAsStandby` | contracts/eosio.system/src/oracle.cpp:176-191 | some block slot chooses a given candidate first and the last one as standby if and only if the last comes next or has fewer requests pending: ranges are not rebased after the erase |
| `Token.TransferMoves` | contracts/eosio.token/src/eosio.token.cpp:108-158 | a transfer succeeds exactly when the sender covers it, moves the amount, and changes nothing else |
| `Contract.SystemContract.Push` | contracts/eosio.system/src/eosio.system.cpp:11-42 | an action ends in the state that `System.Apply` gives; one that aborts leaves every table as it was, so no step of it can be seen |
| `Contract.SystemContract.PushAll` | contracts/eosio.system/src/eosio.system.cpp:11-42 | a sequence of actions ends where `System.Run` ends and keeps the invariant, so every theorem on runs holds of the object |
| `Contract.SystemContract.RunRex` | contracts/eosio.system/src/rex.cpp:662-767 | the caller gets the maintained state of `Rex.RunRex`: auction proceeds, CPU loans, NET loans, orders, each loop no longer than `max`; refused only without a pool |
| `Contract.SystemContract.ProcessExpiredLoans` | contracts/eosio.system/src/rex.cpp:706-739 | no more than `max` loans end or are renewed, the earliest first, and the loop stops at the first whose term is not over |
| `Contract.SystemContract.ProcessExpiredLoan` | contracts/eosio.system/src/rex.cpp:667-696 | one expired loan is renewed if its balance covers the payment, the price is still favourable and no order waits, and closed with a refund otherwise, on the terms of `Lending.ExpiredLoanSettles` |
| `Contract.SystemContract.ProcessSellOrders` | contracts/eosio.system/src/rex.cpp:741-764 | no more than `max` open orders are tried, the oldest first; a filled one leaves the index without the loop skipping its successor |
| `Contract.SystemContract.FillRexOrder` | contracts/eosio.system/src/rex.cpp:817-851 | one sale against the pool: the floor of the price, the reserve for what is lent, and an untouched pool if it cannot be filled |
| `Contract.SystemContract.AddToRexPool` | contracts/eosio.system/src/rex.cpp:1059-1110 | a payment joins the pool in whichever of the three states it is, and the REX issued for it is returned |
| `Contract.SystemContract.AddToRexBalance` | contracts/eosio.system/src/rex.cpp:1121-1157 | the buyer holds the REX received in today's maturity bucket, and the caller learns by how much its vote stake changed |
| `Contract.SystemContract.AddLoanToRexPool` | contracts/eosio.system/src/rex.cpp:603-619 | the pool fields after the source's assignments are those of the specified loan, new or renewed |
| `Contract.SystemContract.RemoveLoanFromRexPool` | contracts/eosio.system/src/rex.cpp:626-641 | the pool fields after a loan's end are as specified, the division by zero included |
| `Contract.SystemContract.BancorOutput` | contracts/eosio.system/src/rex.cpp:492-504 | the caller gets the exact floor of the conversion, never negative, or the division by zero |
| `Contract.SystemContract.TransferFromFund` | contracts/eosio.system/src/rex.cpp:888-896 | the fund is debited in full or nothing happens, with the three refusals in order |
| `Contract.SystemContract.TransferToFund` | contracts/eosio.system/src/rex.cpp:904-918 | the fund is credited in full, and opened at need; a non-positive amount is refused |
| `Contract.SystemContract.UpdateRexAccount` | contracts/eosio.system/src/rex.cpp:935-958 | a filled order is erased, its proceeds are in the owner's fund and its stake is booked; the REX of an open order is reported |
| `Contract.SystemContract.ChannelToRex` | contracts/eosio.system/src/rex.cpp:965-978 | a fee is in `eosio.rex` and in the pool, or, without REX, nowhere |
| `Contract.SystemContract.ChannelNamebidToRex` | contracts/eosio.system/src/rex.cpp:986-995 | an auction's proceeds are promised to the pool, or, without REX, to no one |
| `Contract.SystemContract.ProcessRexMaturities` | contracts/eosio.system/src/rex.cpp:1017-1026 | exactly the due buckets are popped into matured REX |
| `Contract.SystemContract.ConsolidateRexBalance` | contracts/eosio.system/src/rex.cpp:1034-1050 | one bucket holds all that was not in the open order or in savings, and its date is today's |
| `Contract.SystemContract.ReadRexSavings` | contracts/eosio.system/src/rex.cpp:1168-1179 | the savings bucket, if there is one, is off the deque, and its amount returned |
| `Contract.SystemContract.PutRexSavings` | contracts/eosio.system/src/rex.cpp:1187-1198 | the savings bucket is back at the end of the deque with the given amount, or none if that is zero |
| `Contract.SystemContract.TakeFurthest` | contracts/eosio.system/src/rex.cpp:388-397 | the furthest buckets have given the amount, as far as they hold it, and the caller learns what is missing |
| `Contract.SystemContract.MoveBalanceToSavings` | contracts/eosio.system/src/rex.cpp:386-408 | the amount is in savings, taken from the furthest buckets and then from matured REX, or one of the two internal checks fails as specified |
| `Contract.SystemContract.UpdateRexStake` | contracts/eosio.system/src/rex.cpp:1205-1228 | the voter's holding is recorded at the current price and the difference is in its stake, without a check |
| `Contract.SystemContract.Deposit` | contracts/eosio.system/src/rex.cpp:12-25 | the tokens are in `eosio.rex` and the owner's fund is up by as much, or nothing happened, for the reason `Rex.Deposit` gives |
| `Contract.SystemContract.Withdraw` | contracts/eosio.system/src/rex.cpp:32-46 | a filled order has been collected first, so its proceeds can be withdrawn at once; then the fund is down and the owner paid |
| `Contract.SystemContract.BuyRex` | contracts/eosio.system/src/rex.cpp:53-68 | the payment has left the fund, the REX is in the buyer's balance before maintenance changes the pool, and the stake of `StakeRecord.BuyingBooks` is booked after it; without 21 votes nothing happens |
| `Contract.SystemContract.UnstakeToRex` | contracts/eosio.system/src/rex.cpp:78-114 | the delegation and the receiver's total are down, the tokens are in `eosio.rex`, the REX is bought, and the vote recast without the change of stake |
| `Contract.SystemContract.SellRex` | contracts/eosio.system/src/rex.cpp:124-172 | either the owner's fund holds the price and its balance less REX, or the order waits with its REX matured; every refusal in the source's order |
| `Contract.SystemContract.CancelOrder` | contracts/eosio.system/src/rex.cpp:179-186 | an open order is gone from table and index; a filled one stays to be collected, and the caller is told |
| `Contract.SystemContract.RentRex` | contracts/eosio.system/src/rex.cpp:769-799 | the payer's fund is down by payment and fund, the loan of `Lending.LoanIsTaken` is in the table with the pool's next number, and the receiver has the rented tokens |
| `Contract.SystemContract.FundRexLoan` | contracts/eosio.system/src/rex.cpp:853-864 | the creator's running loan has the payment set aside, taken from its fund; a loan that is gone, another's or over is refused |
| `Contract.SystemContract.DefundRexLoan` | contracts/eosio.system/src/rex.cpp:866-878 | the amount is back in the creator's fund, and the loan keeps the rest; more than is set aside is refused |
| `Contract.SystemContract.UpdateRex` | contracts/eosio.system/src/rex.cpp:297-321 | the holding is recorded at the current price, the stake follows, and due buckets have matured |
| `Contract.SystemContract.Consolidate` | contracts/eosio.system/src/rex.cpp:360-369 | after maintenance and settling, all REX outside savings and the open order matures on one date |
| `Contract.SystemContract.MoveToSavings` | contracts/eosio.system/src/rex.cpp:377-410 | after maintenance and settling, the amount is in savings as in `Savings.SavingsGrow` and the open order stays covered |
| `Contract.SystemContract.MoveFromSavings` | contracts/eosio.system/src/rex.cpp:417-438 | the amount has left savings for today's maturity bucket; more than savings is refused before anything is settled |
| `Contract.SystemContract.CloseRex` | contracts/eosio.system/src/rex.cpp:445-479 | the empty fund is gone unless a loan remains, and the empty balance is gone; REX that remains is refused |
| `Contract.SystemContract.UpdateResources` | contracts/eosio.system/src/rex.cpp:513-561 | the receiver's totals are changed for REX, the row erased when empty; taking from a row that is not there is refused |
| `Contract.SystemContract.ChangeDelegation` | contracts/eosio.system/src/delegate_bandwidth.cpp:250-273 | one delegation is changed, opened or, when empty, erased; a negative part is refused |
| `Contract.SystemContract.ChangeTotals` | contracts/eosio.system/src/delegate_bandwidth.cpp:275-318 | one receiver's totals are changed, opened or, when empty, erased; a negative total is refused |
| `Contract.SystemContract.SettleRefund` | contracts/eosio.system/src/delegate_bandwidth.cpp:337-388 | the refund row is netted resource by resource, and the caller learns what is still to be paid in |
| `Contract.SystemContract.ChangeBandwidth` | contracts/eosio.system/src/delegate_bandwidth.cpp:236-414 | delegation, totals, refund, tokens and the stake of `StakeRecord.BandwidthBooks` are changed together, or nothing is |
| `Contract.SystemContract.Undelegate` | contracts/eosio.system/src/delegate_bandwidth.cpp:454-472 | the stake waits in the refund; above 100 tokens of stake the account has also stepped down as producer |
| `Contract.SystemContract.ClaimRefund` | contracts/eosio.system/src/delegate_bandwidth.cpp:474-489 | the whole refund has been paid and its row is gone, no sooner than three days after the last request |
| `Contract.SystemContract.UpdateVotingPower` | contracts/eosio.system/src/delegate_bandwidth.cpp:416-439 | the voter's stake is changed and its vote recast with it; negative stake and b1's locked tokens are refused |
| `Contract.SystemContract.UpdateVotes` | contracts/eosio.system/src/voting.cpp:253-451 | the last vote is undone and the new one counted through the source's three loops, with tally and share triple as specified |
| `Contract.SystemContract.ApplyDeltas` | contracts/eosio.system/src/voting.cpp:339-378 | every changed producer has its votes and share updated once, in key order, and the totals of the loop are returned |
| `Contract.SystemContract.UpdateTotalShare` | contracts/eosio.system/src/voting.cpp:126-149 | the total share is accrued to now and changed, neither it nor its rate below zero |
| `Contract.SystemContract.VoteProducers` | contracts/eosio.system/src/voting.cpp:231-251 | the vote is cast with the stake brought up to date and credited; who holds REX and lists fewer than 21 is refused |
| `Contract.SystemContract.Register` | contracts/eosio.system/src/voting.cpp:30-77 | the producer is active; its clock starts if it never ran |
| `Contract.SystemContract.ClaimRewards` | contracts/eosio.system/src/producer_pay.cpp:100-277 | inflation is shared, the three parts have left their buckets and reached the owner, and its counters start over |
| `Contract.SystemContract.SettleOracle` | contracts/eosio.system/src/producer_pay.cpp:210-240 | the oracle's pay is its part less the punishment, the rest of the punishment is kept open, its counters start over |
| `Contract.SystemContract.ClaimVoterReward` | contracts/eosio.system/src/producer_pay.cpp:422-450 | the voter's part of the bucket is paid and its unpaid votes are gone; too early or for nothing is refused |
| `Contract.SystemContract.ClaimDappReward` | contracts/eosio.system/src/producer_pay.cpp:279-420 | new tokens are issued and the quoted part of one bucket is paid; before its clock moves nothing happens |
| `Contract.SystemContract.Inflate` | contracts/eosio.system/src/producer_pay.cpp:486-547 | the new tokens are issued, spread over all accounts and booked in the buckets, or the first refusal of a transfer is returned |
| `Contract.SystemContract.OnBlock` | contracts/eosio.system/src/producer_pay.cpp:39-73 | the block is counted and the clocks have started, once the chain is activated |
| `Contract.SystemContract.SetOracle` | contracts/eosio.system/src/oracle.cpp:110-133 | the registered producer's oracle account is set, its counters kept |
| `Contract.SystemContract.Reply` | contracts/eosio.system/src/oracle.cpp:44-108 | the age of the request decides whether the assigned oracle, the standby or neither has succeeded and who has failed, and the assigned one has a request less pending |
| `Contract.SystemContract.Transfer` | contracts/eosio.token/src/eosio.token.cpp:108-158 | the amount has moved as in `sub_balance` and `add_balance`, or their refusals apply |

## Left out

- Proxies: a weight change of at most 1 is not propagated but still recorded, so the exact tally holds only without them; the model's votes carry no proxy.
- Witness ranking and the totals of witness shares: both are inputs of a producer's claim, because no invariant ties them together in the source.
- The choice of the top 21 producers with an active oracle, and the sorting of their oracles: `OracleChoice` starts from the sorted list.
- The request table: the assigned and standby oracles and the age of a request are inputs of a reply.
- The DApp registry's quote for a reward is an input, and so are RAM fees and the winning bids of name auctions.
- The RAM market, name auctions, account creation, the producer schedule, multi-signatures, wrapping, domains and the BIOS contract.
- `issue`, `retire`, `burn`, `open` and `close` by users of the token contract; `burn` lowers the maximum supply and not the supply, so that token total and supply agree only in runs without it.
- Resource limits set on the chain, managed-resource flags, RAM payers, permissions, memos, symbols, deferred transactions and printing.
- Rounding of floating-point numbers: conversions, shares and inflation are exact floors; a DApp quote with a zero divisor aborts.
- Overflow of fixed-width integers, except for the bound on REX.
- Rows of producers registered before the vote-pay tables existed.
- Transfers by the accounts the contract keeps for others, and delegation by `eosio.stake`, which moves no tokens.
- Conservation of auction proceeds while the pool is empty: maintenance then drops the promise without moving tokens.
- RewardProofs.ClaimDappRewardKeeps: does not bound the DApp buckets from below, because the registry may quote more than the whole bucket.
- RewardProofs.ClaimRewardsKeeps: says of the witness bucket that it stays backed and non-negative, not that parts are fair, because the shares are inputs.
- Liveness.OrderIsFilled: speaks of runs of others' actions; what the owner does in between (collect, cancel, sell more) is its own affair.
- Ownership.OthersTakeNothing: does not speak of loans a user took out, which end or renew on their own.
