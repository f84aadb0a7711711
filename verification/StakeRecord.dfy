/** A voter's stake on record is what it has delegated plus what its REX was last valued at, less what a
    filled order still has to book. Every action keeps this equation but for unstaking into REX, whose
    change is discarded, and for erasing an empty balance. */
module StakeRecord {
  import opened Outcomes
  import opened Arithmetic
  import opened Sums
  import opened Chain
  import opened Ledger
  import opened Rex
  import opened System
  import opened Exchange
  import opened Runs
  import Drift
  import Liveness
  import Loans
  import Maintenance
  import Maturity
  import Pools
  import RewardProofs
  import Rewards
  import Staking
  import Token
  import opened Voting
  import VotingProofs

  // The two sides of the equation

  function StakedBy(v: Votes, n: Name): int {
    if n in v.voters then v.voters[n].staked else 0
  }

  /** What the balance was last valued at. */
  function Recorded(balances: map<Name, Balance>, n: Name): int {
    if n in balances then balances[n].voteStake else 0
  }

  /** The change of stake in a filled order that its owner has not collected. */
  function Awaiting(orders: map<Name, Order>, n: Name): int {
    if n in orders && !orders[n].open then orders[n].stakeChange else 0
  }

  ghost function DelegatedFrom(delegations: map<(Name, Name), Stake>, n: Name): map<(Name, Name), int> {
    map k | k in delegations && k.0 == n :: delegations[k].net + delegations[k].cpu
  }

  /** All that an account has delegated, to itself or to others. */
  ghost function Delegated(delegations: map<(Name, Name), Stake>, n: Name): int {
    Total(DelegatedFrom(delegations, n))
  }

  /** What the stake on record has beyond what backs it. */
  ghost function Excess(s: State, n: Name): int {
    StakedBy(s.votes, n) - (Delegated(s.delegations, n) + Recorded(s.balances, n) - Awaiting(s.orders, n))
  }

  /** Whoever holds REX is known as a voter. */
  ghost predicate HoldersVote(s: State) {
    forall n :: n in s.balances ==> n in s.votes.voters
  }

  // Votes

  /** A stake change moves the stake of one voter by the given amount and no other row. */
  ghost predicate StakeMoves(v: Votes, w: Votes, name: Name, delta: int) {
    && w.voters.Keys == v.voters.Keys + {name}
    && (forall n :: n in v.voters && n != name ==> w.voters[n] == v.voters[n])
    && StakedBy(w, name) == StakedBy(v, name) + delta
    && (name in v.voters ==>
          w.voters[name].producers == v.voters[name].producers && w.voters[name].unpaidVotes == v.voters[name].unpaidVotes
          && w.voters[name].lastClaim == v.voters[name].lastClaim)
  }

  lemma UpdateVotesRow(v: Votes, now: int, name: Name, names: seq<Name>, voting: bool)
    requires UpdateVotes(v, now, name, names, voting).Success?
    ensures name in v.voters
    ensures UpdateVotes(v, now, name, names, voting).value.voters
         == v.voters[name := v.voters[name].(producers := names, lastWeight := VoteWeight(v.voters[name].staked))]
  {
    hide ApplyDeltas, VoteDeltas, Sorted, Activate, VoteWeight;
  }

  lemma VotingPowerMoves(v: Votes, now: int, name: Name, delta: int)
    requires UpdateVotingPower(v, now, name, delta).Success?
    ensures StakeMoves(v, UpdateVotingPower(v, now, name, delta).value, name, delta)
  {
    hide UpdateVotes, B1Locked;
    var voter := if name in v.voters then v.voters[name].(staked := v.voters[name].staked + delta)
                 else Voter([], delta, 0, 0, 0);
    var staked := v.(voters := v.voters[name := voter]);
    if voter.producers != [] { UpdateVotesRow(staked, now, name, voter.producers, false); }
  }

  // Delegations

  lemma DelegatedMoves(delegations: map<(Name, Name), Stake>, from: Name, to: Name, net: int, cpu: int, n: Name)
    requires Staking.ChangeDelegation(delegations, from, to, net, cpu).Success?
    ensures Delegated(Staking.ChangeDelegation(delegations, from, to, net, cpu).value, n)
         == Delegated(delegations, n) + if n == from then net + cpu else 0
  {
    hide Total;
    var after := Staking.ChangeDelegation(delegations, from, to, net, cpu).value;
    var key := (from, to);
    var row := if key in delegations then Stake(delegations[key].net + net, delegations[key].cpu + cpu) else Stake(net, cpu);
    var view := DelegatedFrom(delegations, n);
    if n == from {
      TotalUpdate(view, key, row.net + row.cpu);
      TotalDrop(view, key);
      assert DelegatedFrom(after, n) == if row == Stake(0, 0) then view - {key} else view[key := row.net + row.cpu];
    } else {
      assert DelegatedFrom(after, n) == view;
    }
  }

  // Maintenance

  /** Filling an order takes off the recorded value what the order then has to book. */
  lemma FillOrderKeepsExcess(s: State, now: int, at: nat, n: Name)
    requires MaintInv(s, now) && s.pool.Some? && at < |s.queue|
    ensures FillOrder(s, at).Success? && Excess(FillOrder(s, at).value, n) == Excess(s, n)
  {
    hide PoolOk, BalancesOk, InTimeOrder, WeightsAgree, StakesOk, ResourcesOk, RefundsOk, Token.NoneOverdrawn, Total, Pools.Sell,
         Delegated, Maintenance.Maintained;
    Maintenance.FillOrderKeeps(s, now, at);
    var owner := s.queue[at];
    var sale := Pools.Sell(s.pool.value, s.balances[owner], s.orders[owner].requested);
    if sale.Success? && sale.value.Filled? { SaleRevalues(s.pool.value, s.balances[owner], s.orders[owner].requested); }
  }

  lemma SaleRevalues(p: Pool, b: Balance, rex: int)
    requires Pools.Sell(p, b, rex).Success? && Pools.Sell(p, b, rex).value.Filled?
    ensures Pools.Sell(p, b, rex).value.balance.voteStake == b.voteStake + Pools.Sell(p, b, rex).value.stakeChange
  {
  }

  lemma {:induction false} FillOrdersKeepExcess(s: State, now: int, at: nat, max: nat, n: Name)
    requires MaintInv(s, now) && s.pool.Some? && at <= |s.queue|
    ensures FillOrders(s, at, max).Success? && Excess(FillOrders(s, at, max).value, n) == Excess(s, n)
    decreases max
  {
    hide MaintInv, Maintenance.Untouched, RexSurplus, Pools.PriceKept, FillOrder, Excess;
    if max != 0 && at != |s.queue| {
      Maintenance.FillOrderKeeps(s, now, at);
      FillOrderKeepsExcess(s, now, at, n);
      var next := FillOrder(s, at).value;
      FillOrdersKeepExcess(next, now, if |next.queue| < |s.queue| then at else at + 1, max - 1, n);
    }
  }

  lemma RunRexKeepsExcess(s: State, now: int, max: nat, n: Name)
    requires MaintInv(s, now) && s.pool.Some?
    ensures RunRex(s, now, max).Success? && Excess(RunRex(s, now, max).value, n) == Excess(s, n)
    ensures HoldersVote(s) ==> HoldersVote(RunRex(s, now, max).value)
  {
    hide MaintInv, RexSurplus, Pools.PriceKept, SweepNamebids, ExpireLoans, FillOrders, Delegated, Total;
    Maintenance.SweepNamebidsKeeps(s, now);
    var swept := SweepNamebids(s).value;
    Maintenance.ExpireLoansKeeps(swept, now, Cpu, max);
    var cpu := ExpireLoans(swept, now, Cpu, max).value;
    Maintenance.ExpireLoansKeeps(cpu, now, Net, max);
    var net := ExpireLoans(cpu, now, Net, max).value;
    Maintenance.FillOrdersKeeps(net, now, 0, max);
    FillOrdersKeepExcess(net, now, 0, max, n);
  }

  // Steps of the actions

  /** Settling an account books the given change, and that of a filled order along with it. */
  lemma AccountBooks(s: State, now: int, owner: Name, proceeds: int, stakeChange: int, force: bool, n: Name)
    requires UpdateRexAccount(s, now, owner, proceeds, stakeChange, force).Success?
    ensures var t := UpdateRexAccount(s, now, owner, proceeds, stakeChange, force).value.0;
      && Excess(t, n) == Excess(s, n) + (if n == owner then stakeChange else 0)
      && (HoldersVote(s) ==> HoldersVote(t))
      && Awaiting(t.orders, owner) == 0
      && (forall m :: m in s.votes.voters && m != owner ==> m in t.votes.voters && t.votes.voters[m] == s.votes.voters[m])
  {
    hide UpdateVotingPower, Delegated, UpdateRexAccount;
    UpdateRexAccountSteps(s, now, owner, proceeds, stakeChange, force);
    var toStake := StakeBooked(s, owner, stakeChange);
    if force || toStake != 0 { VotingPowerMoves(s.votes, now, owner, toStake); }
  }

  /** A purchase records the holding at a new value, and reports the change. */
  lemma PurchaseChanges(s: State, now: int, owner: Name, payment: int, n: Name)
    requires MaintInv(s, now) && InEpoch(now) && 0 < payment && Purchase(s, now, owner, payment).Success?
    ensures var (t, change) := Purchase(s, now, owner, payment).value;
      && t == s.(pool := t.pool, balances := t.balances)
      && Excess(t, n) == Excess(s, n) - (if n == owner then change else 0)
      && t.balances.Keys == s.balances.Keys + {owner}
      && change == Recorded(t.balances, owner) - Recorded(s.balances, owner)
  {
    hide MaintInv, Maturity.AddMaturing, Pools.AddPurchase, Pools.ValueOf, Pools.Sound, Pools.PriceKept, BalancesOk, Maturity.Healthy,
         Shares, Total, Pools.Available, Delegated;
    Drift.PoolAndBalances(s, now);
    Pools.AddPurchaseKeeps(s.pool, payment);
    var (pool, received) := Pools.AddPurchase(s.pool, payment).value;
    var stake := if owner in s.balances then Pools.ValueOf(pool, s.balances[owner].rex + received) else payment;
    PurchasedBalance(s.balances, now, owner, received, stake);
  }

  /** What revaluing a voter's REX leaves: the holding at its current value, the stake as much more. */
  ghost predicate Revalued(s: State, t: State, voter: Name) {
    && t.votes.voters.Keys == s.votes.voters.Keys && t.balances.Keys == s.balances.Keys
    && (forall m :: m in s.votes.voters && m != voter ==> t.votes.voters[m] == s.votes.voters[m])
    && (forall m :: m in s.balances && m != voter ==> t.balances[m] == s.balances[m])
    && (voter in s.votes.voters ==> t.votes.voters[voter] == s.votes.voters[voter].(staked := t.votes.voters[voter].staked))
    && StakedBy(t.votes, voter) == StakedBy(s.votes, voter) + Recorded(t.balances, voter) - Recorded(s.balances, voter)
    && Recorded(t.balances, voter)
       == (if voter in s.balances && Pools.Available(s.pool) then Pools.ValueOf(s.pool.value, s.balances[voter].rex)
           else Recorded(s.balances, voter))
  }

  lemma RexStakeRevalues(s: State, voter: Name)
    requires voter in s.balances ==> voter in s.votes.voters
    ensures Revalued(s, Staking.UpdateRexStake(s, voter), voter)
  {
    hide Pools.ValueOf, Staking.UpdateRexStake;
    if voter in s.balances && Pools.Available(s.pool) {
      RexStakeRows(s, voter);
    } else {
      RexStakeStays(s, voter);
    }
  }

  lemma RexStakeStays(s: State, voter: Name)
    requires !(voter in s.balances && Pools.Available(s.pool))
    ensures Staking.UpdateRexStake(s, voter) == s
  {
  }

  lemma RexStakeRows(s: State, voter: Name)
    requires voter in s.balances && voter in s.votes.voters && Pools.Available(s.pool)
    ensures var t := Staking.UpdateRexStake(s, voter);
      var stake := Pools.ValueOf(s.pool.value, s.balances[voter].rex);
      var row := s.votes.voters[voter];
      && t.balances == s.balances[voter := s.balances[voter].(voteStake := stake)]
      && t.votes.voters == s.votes.voters[voter := row.(staked := row.staked + stake - s.balances[voter].voteStake)]
  {
    hide Pools.ValueOf;
    var row := s.votes.voters[voter];
    assert s.votes.voters[voter := row] == s.votes.voters;
  }

  lemma RevaluedKeepsExcess(s: State, t: State, voter: Name, n: Name)
    requires HoldersVote(s) && t == s.(balances := t.balances, votes := t.votes) && Revalued(s, t, voter)
    ensures Excess(t, n) == Excess(s, n) && HoldersVote(t)
  {
    hide Delegated, Pools.ValueOf;
  }

  // Actions that buy and sell

  /** What a purchase with staked tokens does not book: all that the holding had gained since it was last
      valued. */
  function Gained(s: State, owner: Name, payment: int): int {
    var r := Pools.AddPurchase(s.pool, payment);
    var held := if owner in s.balances then s.balances[owner].rex else 0;
    if r.Success? then
      Drift.RecordedValue(s, owner, payment, held + r.value.1) - payment - Recorded(s.balances, owner)
    else 0
  }

  lemma ExcessOf(s: State, t: State, n: Name)
    requires t.balances == s.balances && t.orders == s.orders
    requires t.delegations == s.delegations && StakedBy(t.votes, n) == StakedBy(s.votes, n)
    ensures Excess(t, n) == Excess(s, n)
  {
  }

  lemma BuyKeepsExcess(s: State, now: int, from: Name, amount: int, n: Name)
    requires Whole(s, now) && InEpoch(now) && HoldersVote(s) && Rex.BuyRex(s, now, from, amount).Success?
    ensures var t := Rex.BuyRex(s, now, from, amount).value;
      Excess(t, n) == Excess(s, n) && HoldersVote(t) && Awaiting(t.orders, from) == 0 && t.delegations == s.delegations
  {
    hide MaintInv, VotingProofs.VoteInv, UpdateRexAccount, RunRex, Purchase, PriceHeld, Excess, TransferFromFund, RexSurplus,
         Pools.Available;
    FromFundKeeps(s, now, from, amount);
    var paid := TransferFromFund(s, from, amount).value;
    ExcessOf(s, paid, n);
    PurchaseKeeps(paid, now, from, amount);
    PurchaseChanges(paid, now, from, amount, n);
    var (bought, change) := Purchase(paid, now, from, amount).value;
    RunRexKeepsExcess(bought, now, MAINTENANCE, n);
    var m := RunRex(bought, now, MAINTENANCE).value;
    AccountBooks(m, now, from, 0, change, false, n);
  }

  lemma UnstakeMoves(s: State, owner: Name, receiver: Name, net: int, cpu: int, n: Name)
    requires Unstake(s, owner, receiver, net, cpu).Success?
    ensures var t := Unstake(s, owner, receiver, net, cpu).value;
      && Excess(t, n) == Excess(s, n) + (if n == owner then net + cpu else 0)
      && owner in s.votes.voters
  {
    hide Staking.ChangeDelegation, Staking.UpdateResources, Token.Transfer, Delegated;
    DelegatedMoves(s.delegations, owner, receiver, -net, -cpu, n);
  }

  lemma PurchaseGains(s: State, now: int, owner: Name, payment: int)
    requires MaintInv(s, now) && InEpoch(now) && 0 < payment
    ensures Purchase(s, now, owner, payment).Success?
    ensures Purchase(s, now, owner, payment).value.1 == Gained(s, owner, payment) + payment
  {
    hide MaintInv, Maturity.AddMaturing, Pools.AddPurchase, Pools.ValueOf, Pools.Sound, Pools.PriceKept, BalancesOk, Maturity.Healthy,
         Shares, Total, Pools.Available;
    Drift.PoolAndBalances(s, now);
    Pools.AddPurchaseKeeps(s.pool, payment);
  }

  lemma SameGained(s: State, t: State, owner: Name, payment: int)
    requires t.pool == s.pool && t.balances == s.balances
    ensures Gained(t, owner, payment) == Gained(s, owner, payment)
  {
  }

  /** Unstaking into REX lowers the excess by exactly what the holding had gained. */
  lemma UnstakeToRexLosesGain(s: State, now: int, owner: Name, receiver: Name, net: int, cpu: int, n: Name)
    requires Whole(s, now) && InEpoch(now) && HoldersVote(s) && Rex.UnstakeToRex(s, now, owner, receiver, net, cpu).Success?
    ensures var t := Rex.UnstakeToRex(s, now, owner, receiver, net, cpu).value;
      Excess(t, n) == Excess(s, n) - (if n == owner then Gained(s, owner, net + cpu) else 0) && HoldersVote(t)
  {
    hide MaintInv, VotingProofs.VoteInv, UpdateRexAccount, RunRex, Purchase, PriceHeld, Excess, Unstake, RexSurplus, Pools.Available,
         Gained;
    UnstakeKeeps(s, now, owner, receiver, net, cpu);
    UnstakeMoves(s, owner, receiver, net, cpu, n);
    var unstaked := Unstake(s, owner, receiver, net, cpu).value;
    PurchaseGains(unstaked, now, owner, net + cpu);
    SameGained(s, unstaked, owner, net + cpu);
    PurchaseKeeps(unstaked, now, owner, net + cpu);
    PurchaseChanges(unstaked, now, owner, net + cpu, n);
    var bought := Purchase(unstaked, now, owner, net + cpu).value.0;
    RunRexKeepsExcess(bought, now, MAINTENANCE, n);
    AccountBooks(RunRex(bought, now, MAINTENANCE).value, now, owner, 0, 0, true, n);
  }

  lemma SaleKeepsExcess(s: State, now: int, from: Name, rex: int, n: Name)
    requires Whole(s, now) && InEpoch(now) && HoldersVote(s) && Rex.SellRex(s, now, from, rex).Success?
    ensures var t := Rex.SellRex(s, now, from, rex).value;
      Excess(t, n) == Excess(s, n) && HoldersVote(t)
  {
    hide MaintInv, VotingProofs.VoteInv, UpdateRexAccount, RunRex, Pools.Sell, Maturity.Mature, Excess, Rex.SellRex, QueueOrder,
         Maintenance.Untouched, RexSurplus, Pools.PriceKept, Liveness.Sold, HoldersVote;
    Liveness.SaleBalances(s, now, from, rex);
    RunRexKeepsExcess(s, now, MAINTENANCE, n);
    var m := RunRex(s, now, MAINTENANCE).value;
    Maintenance.RunRexKeeps(s, now, MAINTENANCE);
    var b := Maturity.Mature(m.balances[from], Seconds(now));
    OwnerRow(m, now, from);
    Maturity.MatureHealthy(m.balances[from], now);
    if Pools.Sell(m.pool.value, b, rex).value.Filled? {
      var sale := Pools.Sell(m.pool.value, b, rex).value;
      Liveness.SaleFilled(s, m, now, from, rex, b);
      SoldExcess(m, from, b, rex, n);
      AccountBooks(Liveness.Sold(m, from, b, rex), now, from, sale.proceeds, sale.stakeChange, false, n);
    } else {
      Liveness.SaleQueued(s, m, now, from, rex, b);
      var unsold := m.(balances := m.balances[from := b]);
      SameRecord(m, unsold, n);
      AccountBooks(unsold, now, from, 0, 0, false, n);
      QueuedExcess(UpdateRexAccount(unsold, now, from, 0, 0, false).value.0, now, from, rex, n);
    }
  }

  lemma SoldExcess(m: State, seller: Name, b: Balance, rex: int, n: Name)
    requires seller in m.balances && b.voteStake == m.balances[seller].voteStake
    requires m.pool.Some? && Pools.Sell(m.pool.value, b, rex).Success? && Pools.Sell(m.pool.value, b, rex).value.Filled?
    ensures var sold := Liveness.Sold(m, seller, b, rex);
      && Excess(sold, n) == Excess(m, n) - (if n == seller then Pools.Sell(m.pool.value, b, rex).value.stakeChange else 0)
      && (HoldersVote(m) ==> HoldersVote(sold))
  {
    hide Delegated, Pools.Sell;
    SaleRevalues(m.pool.value, b, rex);
  }

  /** A changed balance row with the same recorded value. */
  lemma SameRecord(s: State, t: State, n: Name)
    requires t == s.(balances := t.balances) && t.balances.Keys == s.balances.Keys
    requires forall m :: m in s.balances ==> t.balances[m].voteStake == s.balances[m].voteStake
    ensures Excess(t, n) == Excess(s, n) && (HoldersVote(s) ==> HoldersVote(t))
  {
    hide Delegated;
  }

  lemma QueuedExcess(u: State, now: int, owner: Name, rex: int, n: Name)
    requires Awaiting(u.orders, owner) == 0
    ensures var t := QueueOrder(u, now, owner, rex);
      Excess(t, n) == Excess(u, n) && (HoldersVote(u) ==> HoldersVote(t))
  {
    hide Delegated, Enqueue;
  }

  // Other actions of the exchange

  lemma WithdrawKeepsExcess(s: State, now: int, owner: Name, amount: int, n: Name)
    requires HoldersVote(s) && Rex.Withdraw(s, now, owner, amount).Success?
    ensures var t := Rex.Withdraw(s, now, owner, amount).value;
      Excess(t, n) == Excess(s, n) && HoldersVote(t)
  {
    hide UpdateRexAccount, TransferFromFund, Token.Transfer, Excess;
    AccountBooks(s, now, owner, 0, 0, false, n);
    var updated := UpdateRexAccount(s, now, owner, 0, 0, false).value.0;
    ExcessOf(updated, Rex.Withdraw(s, now, owner, amount).value, n);
  }

  /** The steps of an action on one balance: maintenance, settling, and a row with the recorded value and
      the change that goes with it. */
  lemma RowChanges(s: State, m: State, now: int, owner: Name, b: Balance, proceeds: int, force: bool, n: Name)
    requires HoldersVote(m) && owner in m.balances && Excess(m, n) == Excess(s, n)
    requires var row := m.(balances := m.balances[owner := b]);
      UpdateRexAccount(row, now, owner, proceeds, b.voteStake - m.balances[owner].voteStake, force).Success?
    ensures var row := m.(balances := m.balances[owner := b]);
      var t := UpdateRexAccount(row, now, owner, proceeds, b.voteStake - m.balances[owner].voteStake, force).value.0;
      Excess(t, n) == Excess(s, n) && HoldersVote(t)
  {
    hide UpdateRexAccount, Delegated;
    var row := m.(balances := m.balances[owner := b]);
    AccountBooks(row, now, owner, proceeds, b.voteStake - m.balances[owner].voteStake, force, n);
  }

  /** Revaluing books the difference, whatever it is. */
  lemma UpdateKeepsExcess(s: State, now: int, owner: Name, n: Name)
    requires Whole(s, now) && InEpoch(now) && HoldersVote(s) && Rex.UpdateRex(s, now, owner).Success?
    ensures var t := Rex.UpdateRex(s, now, owner).value;
      Excess(t, n) == Excess(s, n) && HoldersVote(t)
  {
    hide MaintInv, VotingProofs.VoteInv, UpdateRexAccount, RunRex, Maturity.Mature, Excess, Maintenance.Untouched, RexSurplus,
         Pools.PriceKept, HoldersVote, Pools.ValueOf;
    RunRexKeepsExcess(s, now, MAINTENANCE, n);
    var m := RunRex(s, now, MAINTENANCE).value;
    Maintenance.RunRexKeeps(s, now, MAINTENANCE);
    var b := m.balances[owner];
    var stake := if 0 < m.pool.value.rex then Pools.ValueOf(m.pool.value, b.rex) else 0;
    var valued := b.(voteStake := stake);
    RowChanges(s, m, now, owner, valued, 0, true, n);
    OwnerRow(m, now, owner);
    RestakedHealthy(b, now, stake);
    Maturity.MatureHealthy(valued, now);
    var updated := UpdateRexAccount(m.(balances := m.balances[owner := valued]), now, owner, 0, stake - b.voteStake, true).value.0;
    SameRecord(updated, Rex.UpdateRex(s, now, owner).value, n);
  }

  lemma ConsolidateKeepsExcess(s: State, now: int, owner: Name, n: Name)
    requires Whole(s, now) && InEpoch(now) && HoldersVote(s) && Rex.Consolidate(s, now, owner).Success?
    ensures var t := Rex.Consolidate(s, now, owner).value;
      Excess(t, n) == Excess(s, n) && HoldersVote(t)
  {
    hide MaintInv, VotingProofs.VoteInv, UpdateRexAccount, RunRex, Maturity.Consolidate, Excess, Maintenance.Untouched, RexSurplus,
         Pools.PriceKept, HoldersVote;
    RunRexKeepsExcess(s, now, MAINTENANCE, n);
    var m := RunRex(s, now, MAINTENANCE).value;
    AccountBooks(m, now, owner, 0, 0, false, n);
    var updated := UpdateRexAccount(m, now, owner, 0, 0, false).value.0;
    Consolidated(m.balances[owner], now, UpdateRexAccount(m, now, owner, 0, 0, false).value.1);
    SameRecord(updated, Rex.Consolidate(s, now, owner).value, n);
  }

  lemma Consolidated(b: Balance, now: int, inOrder: int)
    ensures Maturity.Consolidate(b, now, inOrder).voteStake == b.voteStake
  {
  }

  lemma {:induction false} Matured(b: Balance, seconds: int)
    ensures Maturity.Mature(b, seconds).voteStake == b.voteStake
    decreases |b.buckets|
  {
    if b.buckets != [] && b.buckets[0].date <= seconds {
      Matured(b.(matured := b.matured + b.buckets[0].amount, buckets := b.buckets[1..]), seconds);
    }
  }

  lemma Saved(b: Balance, now: int, rex: int, inOrder: int)
    ensures Maturity.MoveToSavings(b, now, rex, inOrder).Success? ==>
      Maturity.MoveToSavings(b, now, rex, inOrder).value.voteStake == b.voteStake
    ensures Maturity.MoveFromSavings(b, now, rex).Success? ==>
      Maturity.MoveFromSavings(b, now, rex).value.voteStake == b.voteStake
  {
    hide Maturity.TakeFurthest, Maturity.Mature;
    Matured(Maturity.WithoutSavings(b), Seconds(now));
  }

  lemma MoveToKeepsExcess(s: State, now: int, owner: Name, rex: int, n: Name)
    requires Whole(s, now) && InEpoch(now) && HoldersVote(s) && Rex.MoveToSavings(s, now, owner, rex).Success?
    ensures var t := Rex.MoveToSavings(s, now, owner, rex).value;
      Excess(t, n) == Excess(s, n) && HoldersVote(t)
  {
    hide MaintInv, VotingProofs.VoteInv, UpdateRexAccount, RunRex, Maturity.MoveToSavings, Excess, Maintenance.Untouched, RexSurplus,
         Pools.PriceKept, HoldersVote;
    RunRexKeepsExcess(s, now, MAINTENANCE, n);
    var m := RunRex(s, now, MAINTENANCE).value;
    AccountBooks(m, now, owner, 0, 0, false, n);
    var (updated, inOrder) := UpdateRexAccount(m, now, owner, 0, 0, false).value;
    Saved(m.balances[owner], now, rex, inOrder);
    SameRecord(updated, Rex.MoveToSavings(s, now, owner, rex).value, n);
  }

  lemma MoveFromKeepsExcess(s: State, now: int, owner: Name, rex: int, n: Name)
    requires Whole(s, now) && InEpoch(now) && HoldersVote(s) && Rex.MoveFromSavings(s, now, owner, rex).Success?
    ensures var t := Rex.MoveFromSavings(s, now, owner, rex).value;
      Excess(t, n) == Excess(s, n) && HoldersVote(t)
  {
    hide MaintInv, VotingProofs.VoteInv, UpdateRexAccount, RunRex, Maturity.MoveFromSavings, Excess, Maintenance.Untouched, RexSurplus,
         Pools.PriceKept, HoldersVote;
    RunRexKeepsExcess(s, now, MAINTENANCE, n);
    var m := RunRex(s, now, MAINTENANCE).value;
    Saved(m.balances[owner], now, rex, 0);
    RowChanges(s, m, now, owner, Maturity.MoveFromSavings(m.balances[owner], now, rex).value, 0, false, n);
  }

  /** The recorded value of the balance that closing an account erases. */
  function Erased(s: State, now: int, owner: Name): int {
    var m := if s.pool.Some? then RunRex(s, now, MAINTENANCE) else Success(s);
    if m.Success? then Recorded(m.value.balances, owner) else 0
  }

  lemma CloseErasesRecord(s: State, now: int, owner: Name, n: Name)
    requires Whole(s, now) && HoldersVote(s) && Rex.CloseRex(s, now, owner).Success?
    ensures var t := Rex.CloseRex(s, now, owner).value;
      Excess(t, n) == Excess(s, n) + (if n == owner then Erased(s, now, owner) else 0) && HoldersVote(t)
  {
    hide MaintInv, VotingProofs.VoteInv, UpdateRexAccount, RunRex, Maintenance.Untouched, RexSurplus, Pools.PriceKept, HoldersVote,
         Loans.HasOwner, Excess, Rex.CloseRex;
    if s.pool.Some? { RunRexKeepsExcess(s, now, MAINTENANCE, n); }
    var m := if s.pool.Some? then RunRex(s, now, MAINTENANCE).value else s;
    CloseParts(s, m, now, owner);
    AccountBooks(m, now, owner, 0, 0, false, n);
    var updated := UpdateRexAccount(m, now, owner, 0, 0, false).value.0;
    RowErased(updated, Rex.CloseRex(s, now, owner).value, owner, n);
  }

  lemma CloseParts(s: State, m: State, now: int, owner: Name)
    requires Rex.CloseRex(s, now, owner).Success?
    requires if s.pool.Some? then RunRex(s, now, MAINTENANCE) == Success(m) else m == s
    ensures UpdateRexAccount(m, now, owner, 0, 0, false).Success?
    ensures var u := UpdateRexAccount(m, now, owner, 0, 0, false).value.0;
      var t := Rex.CloseRex(s, now, owner).value;
      && u.balances == m.balances
      && (owner in u.balances ==> u.balances[owner].rex == 0)
      && t == u.(balances := u.balances - {owner}, funds := t.funds)
      && (t.funds == u.funds || (At(u.funds, owner) == 0 && t.funds == u.funds - {owner}))
      && (owner in t.funds <==>
            owner in u.funds && (u.funds[owner] != 0 || Loans.HasOwner(u.cpuLoans, owner) || Loans.HasOwner(u.netLoans, owner)))
  {
    hide UpdateRexAccount, RunRex, Loans.HasOwner;
    var u := UpdateRexAccount(m, now, owner, 0, 0, false).value.0;
    assert owner !in u.balances ==> u.balances - {owner} == u.balances;
  }

  lemma RowErased(u: State, t: State, owner: Name, n: Name)
    requires t == u.(balances := u.balances - {owner}, funds := t.funds)
    ensures Excess(t, n) == Excess(u, n) + (if n == owner then Recorded(u.balances, owner) else 0)
    ensures HoldersVote(u) ==> HoldersVote(t)
  {
    hide Delegated;
  }

  lemma CancelKeepsExcess(s: State, owner: Name, n: Name)
    requires Rex.CancelOrder(s, owner).Success?
    ensures Excess(Rex.CancelOrder(s, owner).value, n) == Excess(s, n)
    ensures HoldersVote(s) ==> HoldersVote(Rex.CancelOrder(s, owner).value)
  {
    hide Delegated, Dequeue;
  }

  lemma RentKeepsExcess(s: State, now: int, kind: LoanKind, from: Name, receiver: Name, payment: int, fund: int, n: Name)
    requires Whole(s, now) && HoldersVote(s) && Rex.Rent(s, now, kind, from, receiver, payment, fund).Success?
    ensures var t := Rex.Rent(s, now, kind, from, receiver, payment, fund).value;
      Excess(t, n) == Excess(s, n) && HoldersVote(t)
  {
    hide MaintInv, VotingProofs.VoteInv, RunRex, StakeTo, Pools.BancorOutput, Loans.Insert, Excess, TransferFromFund, Maintenance.Untouched,
         RexSurplus, Pools.PriceKept, Pools.AddLoan;
    SaneMaintenance(s, now, kind, from, receiver, payment, fund);
    RunRexKeepsExcess(s, now, MAINTENANCE, n);
    ExcessOf(RunRex(s, now, MAINTENANCE).value, Rex.Rent(s, now, kind, from, receiver, payment, fund).value, n);
  }

  lemma SaneMaintenance(s: State, now: int, kind: LoanKind, from: Name, receiver: Name, payment: int, fund: int)
    requires Rex.Rent(s, now, kind, from, receiver, payment, fund).Success?
    ensures s.pool.Some?
  {
    hide StakeTo, Pools.BancorOutput, Loans.Insert, TransferFromFund, Pools.AddLoan, SweepNamebids, ExpireLoans, FillOrders;
  }

  // Delegations and votes

  /** The stake for voting after a voter's REX was valued anew; an account that is no voter yet has none. */
  function CurrentStake(s: State, voter: Name): int {
    if voter in s.votes.voters && voter in s.balances && Pools.Available(s.pool) then
      s.votes.voters[voter].staked + Pools.ValueOf(s.pool.value, s.balances[voter].rex) - s.balances[voter].voteStake
    else StakedBy(s.votes, voter)
  }

  /** A voter's stake is what is given, and no other voter's row is touched. */
  ghost predicate StakeBecomes(s: State, t: State, voter: Name, staked: int) {
    && voter in t.votes.voters && t.votes.voters[voter].staked == staked
    && (forall m :: m in s.votes.voters && m != voter ==> m in t.votes.voters && t.votes.voters[m] == s.votes.voters[m])
    && t.votes.voters.Keys == s.votes.voters.Keys + {voter}
    && (voter in s.votes.voters ==>
          && t.votes.voters[voter].producers == s.votes.voters[voter].producers
          && t.votes.voters[voter].unpaidVotes == s.votes.voters[voter].unpaidVotes)
  }

  lemma RevaluedStake(s: State, voter: Name)
    ensures var v := Staking.UpdateRexStake(s, voter).votes;
      && v.voters.Keys == s.votes.voters.Keys
      && StakedBy(v, voter) == CurrentStake(s, voter)
      && (forall m :: m in s.votes.voters && m != voter ==> v.voters[m] == s.votes.voters[m])
      && (voter in s.votes.voters ==> v.voters[voter] == s.votes.voters[voter].(staked := CurrentStake(s, voter)))
  {
    hide Pools.ValueOf, Staking.UpdateRexStake;
    if voter in s.balances && Pools.Available(s.pool) {
      if voter in s.votes.voters { RexStakeRows(s, voter); } else { NonVoterStays(s, voter); }
    } else {
      RexStakeStays(s, voter);
    }
  }

  lemma NonVoterStays(s: State, voter: Name)
    requires voter !in s.votes.voters
    ensures Staking.UpdateRexStake(s, voter).votes == s.votes
  {
  }

  /** The last steps of a stake change: the holding is valued anew and the voter's stake changed. */
  lemma BandwidthVotes(s: State, t: State, now: int, source: Name, receiver: Name, net: int, cpu: int, transfer: bool)
    requires Staking.ChangeBandwidth(s, now, source, receiver, net, cpu, transfer) == Success(t)
    ensures var from := if transfer then receiver else source;
      && Staking.ChangeDelegation(s.delegations, from, receiver, net, cpu) == Success(t.delegations)
      && (exists u: State ::
            && u == s.(delegations := t.delegations, resources := t.resources, refunds := t.refunds, tokens := t.tokens)
            && t.balances == Staking.UpdateRexStake(u, from).balances
            && UpdateVotingPower(Staking.UpdateRexStake(u, from).votes, now, from, net + cpu) == Success(t.votes))
  {
    hide Staking.ChangeDelegation, Staking.ChangeTotals, Staking.SettleStake, Staking.UpdateRexStake, UpdateVotingPower;
    var u := s.(delegations := t.delegations, resources := t.resources, refunds := t.refunds, tokens := t.tokens);
    assert t.balances == Staking.UpdateRexStake(u, if transfer then receiver else source).balances;
  }

  /** A stake change moves the stake for voting of the account whose stake it is by both resources, on top
      of the current value of its REX, and nobody else's. */
  lemma BandwidthBooks(s: State, t: State, now: int, source: Name, receiver: Name, net: int, cpu: int, transfer: bool)
    requires Staking.ChangeBandwidth(s, now, source, receiver, net, cpu, transfer) == Success(t)
    ensures var d := if transfer then receiver else source;
      StakeBecomes(s, t, d, CurrentStake(s, d) + net + cpu)
  {
    hide Staking.ChangeBandwidth, Staking.UpdateRexStake, UpdateVotingPower, Staking.ChangeDelegation, CurrentStake;
    var d := if transfer then receiver else source;
    BandwidthVotes(s, t, now, source, receiver, net, cpu, transfer);
    var u: State :| u == s.(delegations := t.delegations, resources := t.resources, refunds := t.refunds, tokens := t.tokens)
                    && UpdateVotingPower(Staking.UpdateRexStake(u, d).votes, now, d, net + cpu) == Success(t.votes);
    RevaluedStake(u, d);
    SameStake(s, u, d);
    VotingPowerMoves(Staking.UpdateRexStake(u, d).votes, now, d, net + cpu);
  }

  lemma SameStake(s: State, u: State, d: Name)
    requires u.votes == s.votes && u.balances == s.balances && u.pool == s.pool
    ensures CurrentStake(u, d) == CurrentStake(s, d)
  {
  }

  /** Delegating adds both resources to the stake for voting of whoever the stake belongs to: the receiver
      if it is transferred, the source if not. */
  lemma DelegatingBooks(s: State, t: State, now: int, from: Name, receiver: Name, net: int, cpu: int, transfer: bool)
    requires Staking.Delegate(s, now, from, receiver, net, cpu, transfer) == Success(t)
    ensures var d := if transfer then receiver else from;
      StakeBecomes(s, t, d, CurrentStake(s, d) + net + cpu)
  {
    hide Staking.ChangeBandwidth, CurrentStake, StakeBecomes;
    BandwidthBooks(s, t, now, from, receiver, net, cpu, transfer);
  }

  /** Undelegating takes both resources off the stake for voting; an account with more than 100 tokens
      staked has also ceased to be an active producer. */
  lemma UndelegatingBooks(s: State, t: State, now: int, from: Name, receiver: Name, net: int, cpu: int)
    requires Staking.Undelegate(s, now, from, receiver, net, cpu) == Success(t)
    ensures from in s.votes.voters && MIN_ACTIVATED_STAKE <= s.votes.activatedStake
    ensures StakeBecomes(s, t, from, CurrentStake(s, from) - net - cpu)
    ensures t.votes.producers.Keys == s.votes.producers.Keys
    ensures 1000000 < s.votes.voters[from].staked ==> from in s.votes.producers && !t.votes.producers[from].active
    ensures forall p :: p in s.votes.producers && (p != from || s.votes.voters[from].staked <= 1000000) ==>
      t.votes.producers[p].active == s.votes.producers[p].active
  {
    hide Staking.ChangeBandwidth, StakeBecomes;
    var deactivated := 1000000 < s.votes.voters[from].staked;
    var votes := if deactivated then Deactivate(s.votes, from).value else s.votes;
    var d := s.(votes := votes);
    BandwidthBooks(d, t, now, from, receiver, -net, -cpu, false);
    BandwidthActive(d, t, now, from, receiver, -net, -cpu);
    SameVoters(s, d, t, from, CurrentStake(s, from) - net - cpu);
  }

  /** Recounting votes neither activates nor deactivates a producer. */
  ghost predicate SameActive(before: map<Name, Producer>, after: map<Name, Producer>) {
    after.Keys == before.Keys && forall p :: p in before ==> after[p].active == before[p].active
  }

  lemma {:induction false} DeltasKeepActive(t: Tally, deltas: Deltas, now: int, voting: bool)
    requires ApplyDeltas(t, deltas, now, voting).Success?
    ensures SameActive(t.producers, ApplyDeltas(t, deltas, now, voting).value.producers)
    decreases |deltas|
  {
    hide Crossed, Live, Accrued;
    if deltas != map[] {
      var name := Least(deltas.Keys);
      var next := if name in t.producers then ApplyDelta(t, name, deltas[name], now) else t;
      DeltasKeepActive(next, deltas - {name}, now, voting);
    }
  }

  lemma VotingPowerActive(v: Votes, now: int, name: Name, delta: int)
    requires UpdateVotingPower(v, now, name, delta).Success?
    ensures SameActive(v.producers, UpdateVotingPower(v, now, name, delta).value.producers)
  {
    hide ApplyDeltas, VoteDeltas, Sorted, VoteWeight, B1Locked;
    var voter := if name in v.voters then v.voters[name].(staked := v.voters[name].staked + delta)
                 else Voter([], delta, 0, 0, 0);
    if voter.producers != [] {
      DeltasKeepActive(Tally(v.producers, v.totalWeight, 0, 0),
                       VoteDeltas(voter, voter.producers, VoteWeight(voter.staked)), now, false);
    }
  }

  lemma BandwidthActive(s: State, t: State, now: int, source: Name, receiver: Name, net: int, cpu: int)
    requires Staking.ChangeBandwidth(s, now, source, receiver, net, cpu, false) == Success(t)
    ensures SameActive(s.votes.producers, t.votes.producers)
  {
    hide Staking.ChangeDelegation, Staking.ChangeTotals, Staking.SettleStake, UpdateVotingPower, Pools.ValueOf;
    var u := s.(delegations := t.delegations, resources := t.resources, refunds := t.refunds, tokens := t.tokens);
    VotingPowerActive(Staking.UpdateRexStake(u, source).votes, now, source, net + cpu);
  }

  lemma SameVoters(s: State, d: State, t: State, voter: Name, staked: int)
    requires d == s.(votes := d.votes) && d.votes.voters == s.votes.voters && StakeBecomes(d, t, voter, staked)
    ensures StakeBecomes(s, t, voter, staked)
  {
  }

  lemma BandwidthKeepsExcess(s: State, t: State, now: int, source: Name, receiver: Name, net: int, cpu: int, transfer: bool, n: Name)
    requires HoldersVote(s) && Staking.ChangeBandwidth(s, now, source, receiver, net, cpu, transfer) == Success(t)
    ensures Excess(t, n) == Excess(s, n) && HoldersVote(t)
  {
    hide Staking.ChangeBandwidth, Staking.UpdateRexStake, UpdateVotingPower, Staking.ChangeDelegation, Delegated, Pools.ValueOf;
    var d := if transfer then receiver else source;
    BandwidthVotes(s, t, now, source, receiver, net, cpu, transfer);
    var u: State :| u == s.(delegations := t.delegations, resources := t.resources, refunds := t.refunds, tokens := t.tokens)
                    && t.balances == Staking.UpdateRexStake(u, d).balances
                    && UpdateVotingPower(Staking.UpdateRexStake(u, d).votes, now, d, net + cpu) == Success(t.votes);
    DelegatedMoves(s.delegations, d, receiver, net, cpu, n);
    RexStakeRevalues(u, d);
    var v := Staking.UpdateRexStake(u, d);
    RevaluedKeepsExcess(u, v, d, n);
    VotingPowerMoves(v.votes, now, d, net + cpu);
  }

  lemma UndelegateKeepsExcess(s: State, now: int, from: Name, receiver: Name, net: int, cpu: int, n: Name)
    requires HoldersVote(s) && Staking.Undelegate(s, now, from, receiver, net, cpu).Success?
    ensures var t := Staking.Undelegate(s, now, from, receiver, net, cpu).value;
      Excess(t, n) == Excess(s, n) && HoldersVote(t)
  {
    hide Staking.ChangeBandwidth, Excess;
    var votes := if 1000000 < s.votes.voters[from].staked then Deactivate(s.votes, from).value else s.votes;
    var d := s.(votes := votes);
    ExcessOf(s, d, n);
    BandwidthKeepsExcess(d, Staking.Undelegate(s, now, from, receiver, net, cpu).value, now, from, receiver, -net, -cpu, false, n);
  }

  /** A vote is accepted exactly from a known voter that is no producer, for a sorted list of at most 30
      registered and active producers (a list that nothing is behind is not looked up), of at least 21 if
      the voter holds REX. The voter's row then has the list, the current stake as the weight of the vote,
      and that much more to be paid for; no other row has changed. */
  lemma VoteIsCast(s: State, now: int, voter: Name, names: seq<Name>)
    requires VotingProofs.VoteInv(s.votes, now)
    ensures CastVote(s, now, voter, names).Success? <==>
      && voter !in s.votes.producers && voter in s.votes.voters
      && |names| <= MAX_PRODUCERS && Sorted(names)
      && (0 <= CurrentStake(s, voter) ==> VotingProofs.Votable(s.votes, names, true))
      && (voter in s.balances && 0 < s.balances[voter].rex ==> 21 <= |names|)
    ensures CastVote(s, now, voter, names).Success? ==>
      var t := CastVote(s, now, voter, names).value;
      var row := s.votes.voters[voter];
      var weight := VoteWeight(CurrentStake(s, voter));
      t.votes.voters == s.votes.voters[voter := Voter(names, CurrentStake(s, voter), row.unpaidVotes + weight, row.lastClaim, weight)]
  {
    hide VotingProofs.VoteInv, UpdateVotes, Staking.UpdateRexStake, VotingProofs.Votable, CurrentStake, Sorted, VoteWeight;
    RevaluedStake(s, voter);
    var r := Staking.UpdateRexStake(s, voter);
    RevaluedVotes(s, now, voter);
    VotingProofs.UpdateVotesAccepts(r.votes, now, voter, names, true);
    SameVotable(s.votes, r.votes, names);
    if UpdateVotes(r.votes, now, voter, names, true).Success? {
      UpdateVotesRow(r.votes, now, voter, names, true);
    }
  }

  lemma SameVotable(v: Votes, w: Votes, names: seq<Name>)
    requires w.producers == v.producers
    ensures VotingProofs.Votable(w, names, true) == VotingProofs.Votable(v, names, true)
  {
  }

  lemma RevaluedVotes(s: State, now: int, voter: Name)
    requires VotingProofs.VoteInv(s.votes, now)
    ensures var r := Staking.UpdateRexStake(s, voter);
      && VotingProofs.VoteInv(r.votes, now) && r.votes.producers == s.votes.producers
      && r.balances.Keys == s.balances.Keys && forall n :: n in s.balances ==> r.balances[n].rex == s.balances[n].rex
  {
    hide VotingProofs.VoteInv, Pools.ValueOf;
    if voter in s.balances && Pools.Available(s.pool) && voter in s.votes.voters {
      var row := s.votes.voters[voter];
      var row' := row.(staked := row.staked + Pools.ValueOf(s.pool.value, s.balances[voter].rex) - s.balances[voter].voteStake);
      VotingProofs.VoterRowKeeps(s.votes, now, voter, row');
      assert s.votes.(voters := s.votes.voters[voter := row'])
          == s.votes.(voters := s.votes.voters[voter := row'], unpaidVotes := s.votes.unpaidVotes + 0);
    }
  }

  lemma CastKeepsExcess(s: State, now: int, voter: Name, names: seq<Name>, n: Name)
    requires HoldersVote(s) && CastVote(s, now, voter, names).Success?
    ensures var t := CastVote(s, now, voter, names).value;
      Excess(t, n) == Excess(s, n) && HoldersVote(t)
  {
    hide UpdateVotes, Staking.UpdateRexStake, Delegated, Pools.ValueOf;
    RexStakeRevalues(s, voter);
    var r := Staking.UpdateRexStake(s, voter);
    RevaluedKeepsExcess(s, r, voter, n);
    UpdateVotesRow(r.votes, now, voter, names, true);
  }

  // Any action

  /** What an action leaves out of the stake on record: the gain of a holding that grows by unstaking into
      REX; less the recorded value of a balance that is erased. */
  function Unbooked(s: State, now: int, a: Action, n: Name): int {
    if a.UnstakeToRex? && a.owner == n then Gained(s, n, a.net + a.cpu)
    else if a.CloseRex? && a.owner == n then -Erased(s, now, n)
    else 0
  }

  lemma BalanceActionBooks(s: State, now: int, a: Action, n: Name)
    requires Whole(s, now) && InEpoch(now) && HoldersVote(s) && OnBalance(a) && Apply(s, now, a).Success?
    ensures var t := Apply(s, now, a).value;
      Excess(t, n) == Excess(s, n) - Unbooked(s, now, a, n) && HoldersVote(t)
  {
    hide Whole, Excess, HoldersVote, Gained, Erased, Rex.Rent, Rex.UpdateRex, Rex.Consolidate, Rex.MoveToSavings, Rex.MoveFromSavings,
         Rex.CloseRex, Rex.FundLoan, Rex.DefundLoan;
    if a.FundLoan? || a.DefundLoan? {
      FundsAlone(s, now, a, n);
    } else if a.Rent? {
      RentKeepsExcess(s, now, a.kind, a.owner, a.receiver, a.payment, a.fund, n);
    } else if a.UpdateRex? {
      UpdateKeepsExcess(s, now, a.owner, n);
    } else if a.Consolidate? {
      ConsolidateKeepsExcess(s, now, a.owner, n);
    } else if a.MoveToSavings? {
      MoveToKeepsExcess(s, now, a.owner, a.rex, n);
    } else if a.MoveFromSavings? {
      MoveFromKeepsExcess(s, now, a.owner, a.rex, n);
    } else {
      CloseErasesRecord(s, now, a.owner, n);
    }
  }

  lemma TradeActionBooks(s: State, now: int, a: Action, n: Name)
    requires Whole(s, now) && InEpoch(now) && HoldersVote(s) && OnRex(a) && !OnBalance(a) && Apply(s, now, a).Success?
    ensures var t := Apply(s, now, a).value;
      Excess(t, n) == Excess(s, n) - Unbooked(s, now, a, n) && HoldersVote(t)
  {
    hide Whole, Excess, HoldersVote, Gained, Erased, Rex.Withdraw, Rex.BuyRex, Rex.UnstakeToRex, Rex.SellRex, Rex.CancelOrder, Rex.RunRex,
         Rex.Deposit, Rex.SetRex;
    if a.Deposit? || a.SetRex? {
      FundsAlone(s, now, a, n);
    } else if a.Withdraw? {
      WithdrawKeepsExcess(s, now, a.owner, a.amount, n);
    } else if a.BuyRex? {
      BuyKeepsExcess(s, now, a.owner, a.amount, n);
    } else if a.UnstakeToRex? {
      UnstakeToRexLosesGain(s, now, a.owner, a.receiver, a.net, a.cpu, n);
    } else if a.SellRex? {
      SaleKeepsExcess(s, now, a.owner, a.rex, n);
    } else if a.CancelOrder? {
      CancelKeepsExcess(s, a.owner, n);
    } else {
      ExecKeepsExcess(s, now, a.max, n);
    }
  }

  lemma ExecKeepsExcess(s: State, now: int, max: nat, n: Name)
    requires Whole(s, now) && HoldersVote(s) && Rex.RunRex(s, now, max).Success?
    ensures Excess(Rex.RunRex(s, now, max).value, n) == Excess(s, n) && HoldersVote(Rex.RunRex(s, now, max).value)
  {
    hide MaintInv, VotingProofs.VoteInv, Rex.RunRex, Excess, HoldersVote;
    RunRexKeepsExcess(s, now, max, n);
  }

  lemma FundsAlone(s: State, now: int, a: Action, n: Name)
    requires (a.Deposit? || a.FundLoan? || a.DefundLoan? || a.SetRex?) && Apply(s, now, a).Success? && HoldersVote(s)
    ensures Excess(Apply(s, now, a).value, n) == Excess(s, n) && HoldersVote(Apply(s, now, a).value)
  {
    hide Rex.Deposit, Rex.FundLoan, Rex.DefundLoan, Excess;
    ExcessOf(s, Apply(s, now, a).value, n);
  }

  lemma SameRows(s: State, t: State, n: Name)
    requires HoldersVote(s) && t.balances == s.balances && t.orders == s.orders && t.delegations == s.delegations
    requires t.votes.voters == s.votes.voters
    ensures Excess(t, n) == Excess(s, n) && HoldersVote(t)
  {
  }

  lemma ListingVoters(v: Votes, now: int, name: Name)
    ensures Voting.Register(v, now, name).Success? ==> Voting.Register(v, now, name).value.voters == v.voters
    ensures Deactivate(v, name).Success? ==> Deactivate(v, name).value.voters == v.voters
  {
  }

  lemma DelegateKeepsExcess(s: State, now: int, from: Name, receiver: Name, net: int, cpu: int, transfer: bool, n: Name)
    requires HoldersVote(s) && Staking.Delegate(s, now, from, receiver, net, cpu, transfer).Success?
    ensures var t := Staking.Delegate(s, now, from, receiver, net, cpu, transfer).value;
      Excess(t, n) == Excess(s, n) && HoldersVote(t)
  {
    hide Staking.ChangeBandwidth, Excess, HoldersVote;
    BandwidthKeepsExcess(s, Staking.Delegate(s, now, from, receiver, net, cpu, transfer).value, now, from, receiver, net, cpu, transfer, n);
  }

  /** Actions that move stake for voting, or revalue it. */
  lemma VoteActionBooks(s: State, now: int, a: Action, n: Name)
    requires HoldersVote(s) && (a.Delegate? || a.Undelegate? || a.VoteProducers?) && Apply(s, now, a).Success?
    ensures var t := Apply(s, now, a).value; Excess(t, n) == Excess(s, n) && HoldersVote(t)
  {
    hide Excess, HoldersVote, Staking.Delegate, Staking.Undelegate, CastVote;
    if a.Delegate? {
      DelegateKeepsExcess(s, now, a.owner, a.receiver, a.net, a.cpu, a.transfer, n);
    } else if a.Undelegate? {
      UndelegateKeepsExcess(s, now, a.owner, a.receiver, a.net, a.cpu, n);
    } else {
      CastKeepsExcess(s, now, a.owner, a.producers, n);
    }
  }

  lemma ListActionBooks(s: State, now: int, a: Action, n: Name)
    requires HoldersVote(s) && (a.ClaimRefund? || a.ChangeRam? || a.Register? || a.Unregister?) && Apply(s, now, a).Success?
    ensures var t := Apply(s, now, a).value; Excess(t, n) == Excess(s, n) && HoldersVote(t)
  {
    hide Excess, HoldersVote, Staking.ClaimRefund, Staking.ChangeRam, Voting.Register, Voting.Deactivate;
    if a.Register? || a.Unregister? { ListingVoters(s.votes, now, a.owner); }
    SameRows(s, Apply(s, now, a).value, n);
  }

  lemma RewardActionBooks(s: State, now: int, a: Action, n: Name)
    requires HoldersVote(s) && !OnRex(a) && !OnStakes(a) && Apply(s, now, a).Success?
    ensures var t := Apply(s, now, a).value; Excess(t, n) == Excess(s, n) && HoldersVote(t)
  {
    hide Excess, Rewards.ClaimRewards, Rewards.ClaimVoterReward, Rewards.ClaimDappReward, Rewards.SetOracle, PayRamFee, SendTokens;
    var t := Apply(s, now, a).value;
    if a.ClaimRewards? {
      ProducerClaimVoters(s, now, a.owner, a.share, a.total);
    } else if a.ClaimVoterReward? {
      VoterClaimVoters(s, now, a.owner);
    } else if a.Send? {
      SendTables(s, a.owner, a.to, a.amount);
    }
    ExcessOf(s, t, n);
  }

  lemma SendTables(s: State, from: Name, to: Name, amount: int)
    requires SendTokens(s, from, to, amount).Success?
    ensures SendTokens(s, from, to, amount).value == s.(tokens := SendTokens(s, from, to, amount).value.tokens)
  {
    hide Token.Transfer;
  }

  lemma ProducerClaimVoters(s: State, now: int, owner: Name, share: int, total: int)
    requires Rewards.ClaimRewards(s, now, owner, share, total).Success?
    ensures Rewards.ClaimRewards(s, now, owner, share, total).value.votes.voters == s.votes.voters
  {
    hide Rewards.ShareInflation, Rewards.SettleOracle, Rewards.PayProducer, Rewards.PartOf, Rewards.WitnessPart, Accrued;
  }

  lemma VoterClaimVoters(s: State, now: int, owner: Name)
    requires Rewards.ClaimVoterReward(s, now, owner).Success?
    ensures var voters := Rewards.ClaimVoterReward(s, now, owner).value.votes.voters;
      && voters.Keys == s.votes.voters.Keys && forall n :: n in voters ==> voters[n].staked == s.votes.voters[n].staked
  {
    hide Rewards.ShareInflation, Rewards.Divide, Token.Transfer;
  }

  /** Every action that succeeds books what it records: the excess of a voter's stake over delegations,
      recorded value and filled orders changes only by what unstaking into REX or erasing a balance
      leaves out. */
  lemma ActionBooks(s: State, now: int, a: Action, n: Name)
    requires Inv(s, now) && InEpoch(now) && HoldersVote(s) && Apply(s, now, a).Success?
    ensures var t := Apply(s, now, a).value;
      Excess(t, n) == Excess(s, n) - Unbooked(s, now, a, n) && HoldersVote(t)
  {
    hide Whole, RewardProofs.PayInv, Excess, HoldersVote, Gained, Erased, Apply, RexSurplus, StakeSurplus, Total, RewardProofs.Backed;
    if OnBalance(a) {
      BalanceActionBooks(s, now, a, n);
    } else if OnRex(a) {
      TradeActionBooks(s, now, a, n);
    } else if a.Delegate? || a.Undelegate? || a.VoteProducers? {
      VoteActionBooks(s, now, a, n);
    } else if OnStakes(a) {
      ListActionBooks(s, now, a, n);
    } else {
      RewardActionBooks(s, now, a, n);
    }
  }

  // Runs

  /** All that a run leaves out of a voter's stake. */
  function UnbookedIn(s: State, events: seq<Event>, n: Name): int
    decreases |events|
  {
    if events == [] then 0
    else
      (if Apply(s, events[0].now, events[0].action).Success? then Unbooked(s, events[0].now, events[0].action, n) else 0)
      + UnbookedIn(Step(s, events[0].now, events[0].action), events[1..], n)
  }

  lemma StepBooks(s: State, start: int, at: int, a: Action, n: Name)
    requires Inv(s, start) && 0 <= start <= at && InEpoch(at) && HoldersVote(s)
    ensures HoldersVote(Step(s, at, a))
    ensures Excess(Step(s, at, a), n) == Excess(s, n) - if Apply(s, at, a).Success? then Unbooked(s, at, a, n) else 0
  {
    hide Inv, Excess, HoldersVote, Apply, Unbooked;
    InvLater(s, start, at);
    if Apply(s, at, a).Success? { ActionBooks(s, at, a, n); }
  }

  /** Over any run a voter's stake on record follows its delegations, the recorded value of its REX and its
      filled orders, but for what was left out on the way. */
  lemma {:induction false} RunBooks(s: State, start: int, events: seq<Event>, n: Name)
    requires Inv(s, start) && HoldersVote(s) && Chronological(start, events) && AllPermitted(s, events)
    ensures Excess(Run(s, events), n) == Excess(s, n) - UnbookedIn(s, events, n)
    ensures HoldersVote(Run(s, events))
    decreases |events|
  {
    hide Inv, Step, Permitted, Excess, HoldersVote, Apply, Unbooked;
    if events != [] {
      var e := events[0];
      ChronologicalTail(start, events);
      StepKeepsInv(s, start, e.now, e.action);
      StepBooks(s, start, e.now, e.action, n);
      RunBooks(Step(s, e.now, e.action), e.now, events[1..], n);
    }
  }

  /** Nothing of the kind in a run. */
  ghost predicate BooksAll(events: seq<Event>, n: Name) {
    forall i :: 0 <= i < |events| ==>
      var a := events[i].action; !(a.UnstakeToRex? && a.owner == n) && !(a.CloseRex? && a.owner == n)
  }

  lemma {:induction false} NothingUnbooked(s: State, events: seq<Event>, n: Name)
    requires BooksAll(events, n)
    ensures UnbookedIn(s, events, n) == 0
    decreases |events|
  {
    hide Apply, Step;
    if events != [] { NothingUnbooked(Step(s, events[0].now, events[0].action), events[1..], n); }
  }

  /** From the state before anything happened a voter's stake is at any time exactly what it has delegated
      plus what its REX was last valued at, less what a filled order still has to book, as long as it
      neither unstakes into REX nor closes its account. */
  lemma StakeIsBacked(s: State, start: int, events: seq<Event>, n: Name)
    requires Genesis(s) && s.supply == Total(s.tokens) && Chronological(start, events) && AllPermitted(s, events)
    requires BooksAll(events, n)
    ensures var t := Run(s, events);
      StakedBy(t.votes, n) == Delegated(t.delegations, n) + Recorded(t.balances, n) - Awaiting(t.orders, n)
  {
    hide Inv, Apply, AllPermitted, Delegated, Chronological;
    GenesisInv(s, start) by { assert InEpoch(start) by { ChronologicalStart(start, events); } }
    assert Delegated(s.delegations, n) == 0 by { NothingDelegated(n); }
    RunBooks(s, start, events, n);
    NothingUnbooked(s, events, n);
  }

  lemma ChronologicalStart(start: int, events: seq<Event>)
    requires Chronological(start, events)
    ensures InEpoch(start)
  {
  }

  lemma NothingDelegated(n: Name)
    ensures Delegated(map[], n) == 0
  {
    assert DelegatedFrom(map[], n) == map[];
  }

  // What follows for single actions

  /** Buying REX books exactly what the buyer's balance is valued at more, along with the change of a
      filled order it collects. */
  lemma BuyingBooks(s: State, t: State, now: int, from: Name, amount: int)
    requires Inv(s, now) && InEpoch(now) && HoldersVote(s) && Apply(s, now, Action.BuyRex(from, amount)) == Success(t)
    ensures from in s.votes.voters && from in t.votes.voters
    ensures t.votes.voters[from].staked - s.votes.voters[from].staked
         == Recorded(t.balances, from) - Recorded(s.balances, from) + Awaiting(s.orders, from)
    ensures from !in s.orders ==>
      from in t.balances && t.balances[from].voteStake == Drift.RecordedValue(s, from, amount, t.balances[from].rex)
  {
    hide Whole, RewardProofs.PayInv, Rex.BuyRex, RexSurplus, StakeSurplus, Total, RewardProofs.Backed, Delegated, Drift.RecordedValue;
    BuyKeepsExcess(s, now, from, amount, from);
    BuyersVote(s, now, from, amount);
    if from !in s.orders { BuyingRecords(s, t, now, from, amount); }
  }

  lemma BuyersVote(s: State, now: int, from: Name, amount: int)
    requires Rex.BuyRex(s, now, from, amount).Success?
    ensures from in s.votes.voters && from in Rex.BuyRex(s, now, from, amount).value.votes.voters
  {
    hide RunRex, Purchase, UpdateRexAccount, TransferFromFund;
    var paid := TransferFromFund(s, from, amount).value;
    var (bought, change) := Purchase(paid, now, from, amount).value;
    var m := RunRex(bought, now, MAINTENANCE).value;
    PurchaseVotes(paid, now, from, amount);
    AccountBooks(m, now, from, 0, change, false, from);
    AccountVoters(m, now, from, 0, change, false);
  }

  lemma PurchaseVotes(s: State, now: int, owner: Name, payment: int)
    requires Purchase(s, now, owner, payment).Success?
    ensures Purchase(s, now, owner, payment).value.0.votes == s.votes
  {
    hide Pools.AddPurchase, Maturity.AddMaturing, Pools.ValueOf;
  }

  lemma AccountVoters(s: State, now: int, owner: Name, proceeds: int, stakeChange: int, force: bool)
    requires UpdateRexAccount(s, now, owner, proceeds, stakeChange, force).Success?
    ensures s.votes.voters.Keys <= UpdateRexAccount(s, now, owner, proceeds, stakeChange, force).value.0.votes.voters.Keys
  {
    hide UpdateVotingPower, UpdateRexAccount;
    UpdateRexAccountSteps(s, now, owner, proceeds, stakeChange, force);
    var toStake := StakeBooked(s, owner, stakeChange);
    if force || toStake != 0 { VotingPowerMoves(s.votes, now, owner, toStake); }
  }

  lemma BuyingRecords(s: State, t: State, now: int, from: Name, amount: int)
    requires Whole(s, now) && InEpoch(now) && from !in s.orders && Rex.BuyRex(s, now, from, amount) == Success(t)
    ensures from in t.balances && t.balances[from].voteStake == Drift.RecordedValue(s, from, amount, t.balances[from].rex)
  {
    hide MaintInv, VotingProofs.VoteInv, UpdateRexAccount, RunRex, Purchase, Drift.RecordedValue, PriceHeld, RexSurplus, TransferFromFund,
         Pools.Available;
    FromFundKeeps(s, now, from, amount);
    var paid := TransferFromFund(s, from, amount).value;
    PurchaseKeeps(paid, now, from, amount);
    Drift.PurchaseRecords(paid, now, from, amount);
    var (bought, change) := Purchase(paid, now, from, amount).value;
    Drift.PoolAndBalances(s, now);
    Drift.RunRexSkips(bought, now, MAINTENANCE, from);
    Drift.SameRecord(s, paid, from, amount, t.balances[from].rex);
  }
}
