/** Sell orders are filled in the end: while one is open loans only run out, and once none is left
    each maintenance fills the first order of the queue. */
module Liveness {
  import opened Outcomes
  import opened Chain
  import opened Loans
  import opened Ledger
  import opened Rex
  import opened System
  import opened Runs
  import Exchange
  import Maintenance
  import Maturity
  import Pools
  import Staking
  import Token
  import Voting

  // Loans run out

  /** A table lost loans, or none; and if its loans all ended by a time, they still do. */
  ghost predicate Shrinks(before: seq<Loan>, after: seq<Loan>, time: int) {
    |after| <= |before| && (EndBy(before, time) ==> EndBy(after, time))
  }

  ghost predicate LoansShrink(s: State, t: State, time: int) {
    Shrinks(s.cpuLoans, t.cpuLoans, time) && Shrinks(s.netLoans, t.netLoans, time)
  }

  function Remaining(s: State): nat {
    |s.cpuLoans| + |s.netLoans|
  }

  lemma CloseLoanTables(s: State, kind: LoanKind, closed: Pool)
    requires LoansOf(s, kind) != [] && CloseLoan(s, kind, closed).Success?
    ensures var t := CloseLoan(s, kind, closed).value;
      t.queue == s.queue && LoansOf(t, kind) == LoansOf(s, kind)[1..]
      && (if kind == Cpu then t.netLoans == s.netLoans else t.cpuLoans == s.cpuLoans)
  {
    hide StakeTo, TransferToFund;
  }

  /** While an order waits no loan is renewed: every expired loan is closed. */
  lemma ExpireLoanCloses(s: State, kind: LoanKind)
    requires s.pool.Some? && LoansOf(s, kind) != [] && s.queue != []
    requires ExpireLoan(s, kind).Success?
    ensures var t := ExpireLoan(s, kind).value;
      t.queue == s.queue && LoansOf(t, kind) == LoansOf(s, kind)[1..]
      && (if kind == Cpu then t.netLoans == s.netLoans else t.cpuLoans == s.cpuLoans)
  {
    hide CloseLoan, RenewLoan, Pools.RemoveLoan, Pools.BancorOutput;
    CloseLoanTables(s, kind, Pools.RemoveLoan(s.pool.value, LoansOf(s, kind)[0].staked).value);
  }

  lemma {:induction false} ExpireLoansClose(s: State, now: int, kind: LoanKind, max: nat, time: int)
    requires s.pool.Some? && s.queue != [] && ExpireLoans(s, now, kind, max).Success?
    ensures var t := ExpireLoans(s, now, kind, max).value;
      && t.queue == s.queue && LoansShrink(s, t, time)
      && (if kind == Cpu then t.netLoans == s.netLoans else t.cpuLoans == s.cpuLoans)
      && (0 < max && LoansOf(s, kind) != [] && LoansOf(s, kind)[0].expiration <= now ==>
            |LoansOf(t, kind)| < |LoansOf(s, kind)|)
      && (LoansOf(s, kind) == [] ==> t == s)
    decreases max
  {
    hide ExpireLoan;
    if max != 0 && LoansOf(s, kind) != [] && LoansOf(s, kind)[0].expiration <= now {
      ExpireLoanCloses(s, kind);
      ExpireLoansClose(ExpireLoan(s, kind).value, now, kind, max - 1, time);
    }
  }

  // Places in the queue

  ghost predicate Distinct(queue: seq<Name>) {
    forall i, j :: 0 <= i < j < |queue| ==> queue[i] != queue[j]
  }

  /** How many orders are ahead of an owner's. */
  function Ahead(queue: seq<Name>, owner: Name): nat {
    if queue == [] || queue[0] == owner then 0 else 1 + Ahead(queue[1..], owner)
  }

  /** The owner, if still in the queue, was there before and no order got ahead of its own. */
  ghost predicate KeepsPlace(before: seq<Name>, after: seq<Name>, owner: Name) {
    owner in after ==> owner in before && Ahead(after, owner) <= Ahead(before, owner)
  }

  lemma {:induction false} AheadWithout(queue: seq<Name>, at: nat, owner: Name)
    requires at < |queue| && queue[at] != owner
    ensures Ahead(queue[..at] + queue[at + 1..], owner) <= Ahead(queue, owner)
  {
    var rest := queue[..at] + queue[at + 1..];
    if at == 0 {
      assert rest == queue[1..];
    } else if queue[0] != owner {
      AheadWithout(queue[1..], at - 1, owner);
      assert rest[1..] == queue[1..][..at - 1] + queue[1..][at..];
    }
  }

  lemma FilledKeepsPlace(queue: seq<Name>, at: nat, owner: Name)
    requires Distinct(queue) && at < |queue|
    ensures var rest := queue[..at] + queue[at + 1..];
      Distinct(rest) && KeepsPlace(queue, rest, owner)
  {
    var rest := queue[..at] + queue[at + 1..];
    assert forall i :: 0 <= i < |rest| ==> rest[i] == if i < at then queue[i] else queue[i + 1];
    if owner in rest { AheadWithout(queue, at, owner); }
  }

  lemma {:induction false} FillOrdersKeepPlace(s: State, at: nat, max: nat, owner: Name)
    requires s.pool.Some? && at <= |s.queue| && Distinct(s.queue) && FillOrders(s, at, max).Success?
    ensures var t := FillOrders(s, at, max).value;
      && KeepsPlace(s.queue, t.queue, owner)
      && t.cpuLoans == s.cpuLoans && t.netLoans == s.netLoans
    decreases max
  {
    hide Distinct, Ahead;
    if max != 0 && at != |s.queue| {
      var next := FillOrder(s, at).value;
      FillOrderLoans(s, at);
      FilledKeepsPlace(s.queue, at, owner);
      var to := if |next.queue| < |s.queue| then at else at + 1;
      FillOrdersKeepPlace(next, to, max - 1, owner);
    }
  }

  lemma FillOrderLoans(s: State, at: nat)
    requires s.pool.Some? && at < |s.queue| && FillOrder(s, at).Success?
    ensures FillOrder(s, at).value.cpuLoans == s.cpuLoans && FillOrder(s, at).value.netLoans == s.netLoans
  {
  }

  lemma QueueDistinct(orders: map<Name, Order>, queue: seq<Name>)
    requires InTimeOrder(orders, queue)
    ensures Distinct(queue)
  {
    forall i, j | 0 <= i < j < |queue| ensures queue[i] != queue[j] {
      assert Earlier(TimeOf(orders, queue[i]), queue[i], TimeOf(orders, queue[j]), queue[j]);
    }
  }

  /** An order opened now goes behind every order opened before. */
  lemma {:induction false} EnqueueKeepsPlace(queue: seq<Name>, orders: map<Name, Order>, now: int, other: Name, owner: Name)
    requires InTimeOrder(orders, queue) && owner in queue && TimeOf(orders, owner) < now
    ensures Ahead(Enqueue(queue, orders, now, other), owner) <= Ahead(queue, owner)
    decreases |queue|
  {
    var at :| 0 <= at < |queue| && queue[at] == owner;
    if at != 0 { assert Earlier(TimeOf(orders, queue[0]), queue[0], TimeOf(orders, queue[at]), queue[at]); }
    if queue[0] != owner {
      assert queue[1..][at - 1] == owner;
      EnqueueKeepsPlace(queue[1..], orders, now, other, owner);
    }
  }

  lemma {:induction false} DequeueKeepsPlace(queue: seq<Name>, other: Name, owner: Name)
    requires owner != other
    ensures Ahead(Dequeue(queue, other), owner) <= Ahead(queue, owner)
    decreases |queue|
  {
    if queue != [] && queue[0] != other && queue[0] != owner {
      DequeueKeepsPlace(queue[1..], other, owner);
      assert Dequeue(queue, other)[1..] == Dequeue(queue[1..], other);
    }
  }

  // Maintenance

  /** With an order waiting, maintenance only closes loans and fills orders. */
  lemma RunRexSettles(s: State, now: int, max: nat, owner: Name, time: int)
    requires RunRex(s, now, max).Success? && s.queue != [] && Distinct(s.queue)
    ensures var t := RunRex(s, now, max).value;
      && LoansShrink(s, t, time) && KeepsPlace(s.queue, t.queue, owner)
      && (0 < max && EndBy(s.cpuLoans, now) && EndBy(s.netLoans, now) && 0 < Remaining(s) ==> Remaining(t) < Remaining(s))
  {
    hide ExpireLoans, FillOrders, Distinct, Ahead, ChannelToRex;
    var swept := SweepNamebids(s).value;
    SweepTables(s);
    ExpireLoansClose(swept, now, Cpu, max, time);
    var cpu := ExpireLoans(swept, now, Cpu, max).value;
    ExpireLoansClose(cpu, now, Net, max, time);
    var net := ExpireLoans(cpu, now, Net, max).value;
    FillOrdersKeepPlace(net, 0, max, owner);
  }

  lemma SweepTables(s: State)
    requires s.pool.Some? && SweepNamebids(s).Success?
    ensures var t := SweepNamebids(s).value;
      t.cpuLoans == s.cpuLoans && t.netLoans == s.netLoans && t.queue == s.queue
  {
  }

  lemma MaintDistinct(s: State, now: int)
    requires MaintInv(s, now)
    ensures Distinct(s.queue)
  {
    QueueDistinct(s.orders, s.queue);
  }

  lemma FirstGone(queue: seq<Name>)
    requires Distinct(queue) && queue != []
    ensures queue[0] !in queue[1..]
  {
  }

  lemma NothingLent(s: State, now: int)
    requires MaintInv(s, now) && s.pool.Some? && Remaining(s) == 0
    ensures s.pool.value.lent == 0
  {
  }

  /** With nothing lent, any order can be filled. */
  lemma FillsFirst(s: State, now: int)
    requires MaintInv(s, now) && s.pool.Some? && s.queue != [] && s.pool.value.lent == 0
    ensures FillOrder(s, 0).Success? && FillOrder(s, 0).value.queue == s.queue[..0] + s.queue[0 + 1..]
  {
    hide WeightsAgree, StakesOk, ResourcesOk, RefundsOk, Token.NoneOverdrawn, LoansOk, InTimeOrder, Pools.Sell,
         Maturity.Shape;
    var owner := s.queue[0];
    ShareAtMost(s.balances, now, owner);
    Pools.SellKeeps(s.pool.value, s.balances[owner], s.orders[owner].requested);
  }

  /** Once no loan is left, maintenance fills the first order. */
  lemma RunRexFillsFirst(s: State, now: int, max: nat, owner: Name)
    requires MaintInv(s, now) && s.pool.Some? && s.queue != [] && 0 < max && Remaining(s) == 0
    ensures RunRex(s, now, max).Success?
    ensures var t := RunRex(s, now, max).value;
      && Remaining(t) == 0 && (s.queue[0] == owner ==> owner !in t.queue)
      && (owner in t.queue ==> Ahead(t.queue, owner) < Ahead(s.queue, owner))
  {
    hide MaintInv, Distinct, ChannelToRex, FillOrder, Maintenance.Untouched, RexSurplus, Pools.PriceKept, SweepNamebids;
    Maintenance.SweepNamebidsKeeps(s, now);
    var swept := SweepNamebids(s).value;
    assert ExpireLoans(swept, now, Cpu, max) == Success(swept) && ExpireLoans(swept, now, Net, max) == Success(swept);
    NothingLent(swept, now);
    FillsFirst(swept, now);
    Maintenance.FillOrderKeeps(swept, now, 0);
    var next := FillOrder(swept, 0).value;
    Maintenance.FillOrdersKeeps(next, now, 0, max - 1);
    assert Distinct(swept.queue) by { MaintDistinct(swept, now); }
    FilledKeepsPlace(swept.queue, 0, owner);
    assert swept.queue[..0] + swept.queue[0 + 1..] == swept.queue[1..];
    FillOrdersKeepPlace(next, 0, max - 1, owner);
    FirstGone(swept.queue);
  }

  lemma {:induction false} FillsAll(s: State, now: int, max: nat)
    requires MaintInv(s, now) && s.pool.Some? && Remaining(s) == 0
    ensures FillOrders(s, 0, max).Success?
    ensures FillOrders(s, 0, max).value.queue == if max < |s.queue| then s.queue[max..] else []
    decreases max
  {
    hide MaintInv, FillOrder, Maintenance.Untouched, RexSurplus, Pools.PriceKept;
    if max != 0 && s.queue != [] {
      NothingLent(s, now);
      FillsFirst(s, now);
      Maintenance.FillOrderKeeps(s, now, 0);
      var next := FillOrder(s, 0).value;
      assert next.queue == s.queue[1..];
      FillsAll(next, now, max - 1);
    }
  }

  /** Once no loan is left, a maintenance fills exactly as many orders as it may, the oldest ones. */
  lemma OldestAreFilled(s: State, now: int, max: nat)
    requires MaintInv(s, now) && s.pool.Some? && Remaining(s) == 0
    ensures RunRex(s, now, max).Success?
    ensures RunRex(s, now, max).value.queue == if max < |s.queue| then s.queue[max..] else []
  {
    hide MaintInv, FillOrders, Maintenance.Untouched, RexSurplus, Pools.PriceKept, SweepNamebids;
    Maintenance.SweepNamebidsKeeps(s, now);
    var swept := SweepNamebids(s).value;
    assert ExpireLoans(swept, now, Cpu, max) == Success(swept) && ExpireLoans(swept, now, Net, max) == Success(swept);
    FillsAll(swept, now, max);
  }

  // Actions

  ghost predicate SameTables(s: State, t: State) {
    t.cpuLoans == s.cpuLoans && t.netLoans == s.netLoans && t.queue == s.queue
  }

  /** No order but the owner's was touched. */
  ghost predicate OthersKept(before: map<Name, Order>, after: map<Name, Order>, owner: Name) {
    forall n :: n in before && n != owner ==> n in after && after[n] == before[n]
  }

  lemma AccountTables(s: State, now: int, owner: Name, proceeds: int, stakeChange: int, force: bool)
    requires UpdateRexAccount(s, now, owner, proceeds, stakeChange, force).Success?
    ensures var t := UpdateRexAccount(s, now, owner, proceeds, stakeChange, force).value.0;
      SameTables(s, t) && OthersKept(s.orders, t.orders, owner)
  {
    hide Voting.UpdateVotingPower;
  }

  predicate IsReward(a: Action) {
    a.ClaimRewards? || a.ClaimVoterReward? || a.ClaimDappReward? || a.SetClaimPeriod? || a.OnBlock? || a.SetOracle?
    || a.AddRequest? || a.Reply?
  }

  /** Actions that run the maintenance and leave loans and queue as it leaves them. */
  predicate Maintains(a: Action) {
    a.BuyRex? || a.UnstakeToRex? || a.RexExec? || a.UpdateRex? || a.Consolidate? || a.MoveToSavings? || a.MoveFromSavings?
  }

  /** Actions that touch neither loans nor queue. */
  predicate Aside(a: Action) {
    !Maintains(a) && !a.SellRex? && !a.CancelOrder? && !a.Rent? && !a.FundLoan? && !a.DefundLoan? && !a.CloseRex?
  }

  lemma AsideStakeTables(s: State, now: int, a: Action)
    requires OnStakes(a) && ApplyToStakes(s, now, a).Success?
    ensures var t := ApplyToStakes(s, now, a).value; SameTables(s, t) && t.orders == s.orders
  {
    hide Staking.Delegate, Staking.Undelegate, Staking.ClaimRefund, Staking.ChangeRam, CastVote, Voting.Register,
         Voting.Deactivate;
    if a.Delegate? {
      DelegateTables(s, now, a.owner, a.receiver, a.net, a.cpu, a.transfer);
    } else if a.Undelegate? {
      UndelegateTables(s, now, a.owner, a.receiver, a.net, a.cpu);
    }
  }

  lemma DelegateTables(s: State, now: int, from: Name, receiver: Name, net: int, cpu: int, transfer: bool)
    requires Staking.Delegate(s, now, from, receiver, net, cpu, transfer).Success?
    ensures var t := Staking.Delegate(s, now, from, receiver, net, cpu, transfer).value; SameTables(s, t) && t.orders == s.orders
  {
    hide Staking.ChangeBandwidth;
  }

  lemma UndelegateTables(s: State, now: int, from: Name, receiver: Name, net: int, cpu: int)
    requires Staking.Undelegate(s, now, from, receiver, net, cpu).Success?
    ensures var t := Staking.Undelegate(s, now, from, receiver, net, cpu).value; SameTables(s, t) && t.orders == s.orders
  {
    hide Staking.ChangeBandwidth, Voting.Deactivate;
  }

  lemma WithdrawTables(s: State, now: int, owner: Name, amount: int)
    requires Rex.Withdraw(s, now, owner, amount).Success?
    ensures var t := Rex.Withdraw(s, now, owner, amount).value; SameTables(s, t) && OthersKept(s.orders, t.orders, owner)
  {
    hide UpdateRexAccount, TransferFromFund, Token.Transfer;
    AccountTables(s, now, owner, 0, 0, false);
  }

  lemma AsideTables(s: State, now: int, a: Action)
    requires Inv(s, now) && InEpoch(now) && Permitted(s, a) && Apply(s, now, a).Success? && Aside(a)
    ensures var t := Apply(s, now, a).value;
      SameTables(s, t) && (if a.Withdraw? then OthersKept(s.orders, t.orders, a.owner) else t.orders == s.orders)
  {
    hide Inv, Rex.Deposit, Rex.Withdraw, PayRamFee, PromiseProceeds, Token.Transfer, ApplyToStakes, ApplyToRewards, OthersKept,
         Exchange.Whole;
    if IsReward(a) {
      RewardActionKeeps(s, now, a);
    } else if OnStakes(a) {
      AsideStakeTables(s, now, a);
    } else if a.Withdraw? {
      WithdrawTables(s, now, a.owner, a.amount);
    } else if !OnRex(a) {
      TokenTables(s, now, a);
    }
  }

  lemma TokenTables(s: State, now: int, a: Action)
    requires (a.Send? || a.RamFee? || a.CloseAuction?) && ApplyToRewards(s, now, a).Success?
    ensures var t := ApplyToRewards(s, now, a).value; SameTables(s, t) && t.orders == s.orders
  {
    hide PayRamFee, PromiseProceeds, Token.Transfer;
  }

  lemma PurchaseTables(s: State, now: int, owner: Name, payment: int)
    requires Purchase(s, now, owner, payment).Success?
    ensures var t := Purchase(s, now, owner, payment).value.0;
      SameTables(s, t) && t.orders == s.orders
  {
    hide Pools.AddPurchase, Maturity.AddMaturing, Pools.ValueOf;
  }

  /** The state such an action hands to the maintenance. */
  lemma MaintainsTables(s: State, now: int, a: Action) returns (entry: State, max: nat)
    requires Apply(s, now, a).Success? && Maintains(a)
    ensures SameTables(s, entry) && entry.orders == s.orders && RunRex(entry, now, max).Success?
    ensures var m := RunRex(entry, now, max).value;
      var t := Apply(s, now, a).value;
      SameTables(m, t) && (if a.RexExec? then t.orders == m.orders else OthersKept(m.orders, t.orders, a.owner))
  {
    hide UpdateRexAccount, RunRex, Purchase, Maturity.Mature, Maturity.Consolidate, Maturity.MoveToSavings, Maturity.MoveFromSavings,
         Unstake, Pools.ValueOf;
    entry, max := s, if a.RexExec? then a.max else MAINTENANCE;
    if a.BuyRex? {
      var paid := TransferFromFund(s, a.owner, a.amount).value;
      PurchaseTables(paid, now, a.owner, a.amount);
      var (bought, stakeChange) := Purchase(paid, now, a.owner, a.amount).value;
      entry := bought;
      AccountTables(RunRex(bought, now, max).value, now, a.owner, 0, stakeChange, false);
    } else if a.UnstakeToRex? {
      var unstaked := Unstake(s, a.owner, a.receiver, a.net, a.cpu).value;
      PurchaseTables(unstaked, now, a.owner, a.net + a.cpu);
      entry := Purchase(unstaked, now, a.owner, a.net + a.cpu).value.0;
      AccountTables(RunRex(entry, now, max).value, now, a.owner, 0, 0, true);
    } else if a.UpdateRex? {
      var m := RunRex(s, now, max).value;
      var b := m.balances[a.owner];
      var stake := if 0 < m.pool.value.rex then Pools.ValueOf(m.pool.value, b.rex) else 0;
      AccountTables(m.(balances := m.balances[a.owner := b.(voteStake := stake)]), now, a.owner, 0, stake - b.voteStake, true);
    } else if a.MoveFromSavings? {
      var m := RunRex(s, now, max).value;
      var b := Maturity.MoveFromSavings(m.balances[a.owner], now, a.rex).value;
      AccountTables(m.(balances := m.balances[a.owner := b]), now, a.owner, 0, 0, false);
    } else if a.Consolidate? || a.MoveToSavings? {
      AccountTables(RunRex(s, now, max).value, now, a.owner, 0, 0, false);
    }
  }

  lemma CloseTables(s: State, now: int, owner: Name)
    requires Rex.CloseRex(s, now, owner).Success? && s.pool.Some?
    ensures RunRex(s, now, MAINTENANCE).Success?
    ensures var m := RunRex(s, now, MAINTENANCE).value;
      var t := Rex.CloseRex(s, now, owner).value;
      SameTables(m, t) && OthersKept(m.orders, t.orders, owner)
  {
    hide UpdateRexAccount, RunRex, HasOwner;
    AccountTables(RunRex(s, now, MAINTENANCE).value, now, owner, 0, 0, false);
  }

  lemma BalanceShrinks(loans: seq<Loan>, at: nat, balance: int, time: int)
    requires at < |loans|
    ensures Shrinks(loans, loans[at := loans[at].(balance := balance)], time)
  {
  }

  /** Funding or defunding a loan leaves the terms alone. */
  lemma FundTables(s: State, now: int, kind: LoanKind, from: Name, num: nat, payment: int, time: int)
    requires Rex.FundLoan(s, now, kind, from, num, payment).Success?
    ensures LoansShrink(s, Rex.FundLoan(s, now, kind, from, num, payment).value, time)
  {
    hide FindLoan, TransferFromFund, EndBy;
    var paid := TransferFromFund(s, from, payment).value;
    var at := FindLoan(paid, now, kind, from, num).value;
    BalanceShrinks(LoansOf(paid, kind), at, LoansOf(paid, kind)[at].balance + payment, time);
  }

  lemma DefundTables(s: State, now: int, kind: LoanKind, from: Name, num: nat, amount: int, time: int)
    requires Rex.DefundLoan(s, now, kind, from, num, amount).Success?
    ensures LoansShrink(s, Rex.DefundLoan(s, now, kind, from, num, amount).value, time)
  {
    hide FindLoan, TransferToFund, EndBy;
    var at := FindLoan(s, now, kind, from, num).value;
    BalanceShrinks(LoansOf(s, kind), at, LoansOf(s, kind)[at].balance - amount, time);
  }

  lemma LoanFundTables(s: State, now: int, a: Action, time: int)
    requires Apply(s, now, a).Success? && (a.FundLoan? || a.DefundLoan?)
    ensures LoansShrink(s, Apply(s, now, a).value, time) && Apply(s, now, a).value.queue == s.queue
  {
    hide Rex.FundLoan, Rex.DefundLoan, LoansShrink;
    if a.FundLoan? {
      FundTables(s, now, a.kind, a.owner, a.num, a.amount, time);
    } else {
      DefundTables(s, now, a.kind, a.owner, a.num, a.amount, time);
    }
  }

  /** A new order goes to the back; an order that has been waiting keeps its place. */
  lemma QueueOrderPlace(u: State, now: int, seller: Name, rex: int, owner: Name)
    requires MaintInv(u, now)
    requires var t := QueueOrder(u, now, seller, rex); owner in t.queue && TimeOf(t.orders, owner) < now
    ensures var t := QueueOrder(u, now, seller, rex);
      && t.cpuLoans == u.cpuLoans && t.netLoans == u.netLoans && KeepsPlace(u.queue, t.queue, owner)
  {
    hide PoolOk, BalancesOk, FundsOk, OrdersOk, StakeInv, Token.NoneOverdrawn, Enqueue;
    if seller !in u.orders {
      var t := QueueOrder(u, now, seller, rex);
      assert seller !in u.queue by { QueuedOrders(u, now); }
      Exchange.EnqueueKeeps(u.queue, u.orders, t.orders, now, seller);
      EnqueueKeepsPlace(u.queue, u.orders, now, seller, owner);
    }
  }

  lemma QueuedOrders(s: State, now: int)
    requires MaintInv(s, now)
    ensures forall n :: n in s.queue ==> n in s.orders && s.orders[n].open
    ensures s.queue != [] ==> s.pool.Some?
  {
    if s.queue != [] { assert s.queue[0] in s.queue; }
  }

  lemma QueueOrderTables(u: State, now: int, seller: Name, rex: int)
    ensures var t := QueueOrder(u, now, seller, rex);
      t.cpuLoans == u.cpuLoans && t.netLoans == u.netLoans
  {
    hide Enqueue;
  }

  /** The state in which a filled sale has left the pool and the seller's balance. */
  function Sold(m: State, seller: Name, b: Balance, rex: int): State
    requires m.pool.Some? && Pools.Sell(m.pool.value, b, rex).Success? && Pools.Sell(m.pool.value, b, rex).value.Filled?
  {
    var sale := Pools.Sell(m.pool.value, b, rex).value;
    m.(pool := Some(sale.pool), balances := m.balances[seller := sale.balance])
  }

  lemma SaleFilled(s: State, m: State, now: int, seller: Name, rex: int, b: Balance)
    requires RunRex(s, now, MAINTENANCE) == Success(m) && Rex.SellRex(s, now, seller, rex).Success?
    requires seller in m.balances && b == Maturity.Mature(m.balances[seller], Seconds(now))
    requires m.pool.Some? && Pools.Sell(m.pool.value, b, rex).Success? && Pools.Sell(m.pool.value, b, rex).value.Filled?
    ensures var sale := Pools.Sell(m.pool.value, b, rex).value;
      var r := UpdateRexAccount(Sold(m, seller, b, rex), now, seller, sale.proceeds, sale.stakeChange, false);
      r.Success? && Rex.SellRex(s, now, seller, rex).value == r.value.0 && SameTables(m, r.value.0)
  {
    hide UpdateRexAccount, RunRex, Pools.Sell, Maturity.Mature;
  }

  lemma SaleQueued(s: State, m: State, now: int, seller: Name, rex: int, b: Balance)
    requires RunRex(s, now, MAINTENANCE) == Success(m) && Rex.SellRex(s, now, seller, rex).Success?
    requires seller in m.balances && b == Maturity.Mature(m.balances[seller], Seconds(now))
    requires m.pool.Some? && Pools.Sell(m.pool.value, b, rex) == Success(Pools.Unfilled)
    ensures var unsold := m.(balances := m.balances[seller := b]);
      var r := UpdateRexAccount(unsold, now, seller, 0, 0, false);
      r.Success? && Rex.SellRex(s, now, seller, rex).value == QueueOrder(r.value.0, now, seller, rex)
  {
    hide UpdateRexAccount, RunRex, Pools.Sell, Maturity.Mature, QueueOrder;
  }

  /** The seller's account after a sale that has to wait. */
  lemma UnsoldKeeps(m: State, now: int, seller: Name)
    requires Exchange.Whole(m, now) && InEpoch(now) && seller in m.balances
    requires var unsold := m.(balances := m.balances[seller := Maturity.Mature(m.balances[seller], Seconds(now))]);
      UpdateRexAccount(unsold, now, seller, 0, 0, false).Success?
    ensures var unsold := m.(balances := m.balances[seller := Maturity.Mature(m.balances[seller], Seconds(now))]);
      var u := UpdateRexAccount(unsold, now, seller, 0, 0, false).value.0;
      MaintInv(u, now) && SameTables(m, u)
  {
    hide UpdateRexAccount, Maturity.Mature, Exchange.Whole, MaintInv, Maturity.Healthy;
    var unsold := m.(balances := m.balances[seller := Maturity.Mature(m.balances[seller], Seconds(now))]);
    assert MaintInv(m, now) by { WholeParts(m, now); }
    Exchange.MaturedRowKeeps(m, now, seller);
    assert Exchange.Whole(unsold, now) by { SameVotesWhole(m, unsold, now); }
    Exchange.UpdateRexAccountKeeps(unsold, now, seller, 0, 0, false);
    var u := UpdateRexAccount(unsold, now, seller, 0, 0, false).value.0;
    assert MaintInv(u, now) by { WholeParts(u, now); }
  }

  lemma SaleBalances(s: State, now: int, seller: Name, rex: int)
    requires Rex.SellRex(s, now, seller, rex).Success?
    ensures RunRex(s, now, MAINTENANCE).Success? && RunRex(s, now, MAINTENANCE).value.pool.Some?
    ensures seller in RunRex(s, now, MAINTENANCE).value.balances
    ensures var m := RunRex(s, now, MAINTENANCE).value;
      0 < rex <= Maturity.Mature(m.balances[seller], Seconds(now)).matured
      && Pools.Sell(m.pool.value, Maturity.Mature(m.balances[seller], Seconds(now)), rex).Success?
  {
    hide UpdateRexAccount, RunRex, Pools.Sell, Maturity.Mature, QueueOrder;
  }

  /** Selling: maintenance, and then perhaps a new order. */
  lemma SellSettles(s: State, now: int, seller: Name, rex: int, owner: Name, time: int)
    requires Exchange.Whole(s, now) && InEpoch(now) && Rex.SellRex(s, now, seller, rex).Success? && owner in s.queue
    ensures var t := Rex.SellRex(s, now, seller, rex).value;
      && LoansShrink(s, t, time)
      && (owner in t.queue && TimeOf(t.orders, owner) < now ==> Ahead(t.queue, owner) <= Ahead(s.queue, owner))
  {
    hide Rex.SellRex, UpdateRexAccount, RunRex, Pools.Sell, Maturity.Mature, Exchange.Whole, QueueOrder, Ahead,
         EndBy, Distinct, MaintInv;
    assert Distinct(s.queue) && MaintInv(s, now) by { WholeParts(s, now); }
    SaleBalances(s, now, seller, rex);
    RunRexSettles(s, now, MAINTENANCE, owner, time);
    Maintenance.RunRexKeeps(s, now, MAINTENANCE);
    var m := RunRex(s, now, MAINTENANCE).value;
    Exchange.MaintainedWhole(s, m, now);
    var b := Maturity.Mature(m.balances[seller], Seconds(now));
    if Pools.Sell(m.pool.value, b, rex).value.Filled? {
      SaleFilled(s, m, now, seller, rex, b);
    } else {
      SaleQueued(s, m, now, seller, rex, b);
      UnsoldKeeps(m, now, seller);
      var u := UpdateRexAccount(m.(balances := m.balances[seller := b]), now, seller, 0, 0, false).value.0;
      QueueOrderTables(u, now, seller, rex);
      var t := QueueOrder(u, now, seller, rex);
      if owner in t.queue && TimeOf(t.orders, owner) < now {
        QueueOrderPlace(u, now, seller, rex, owner);
      }
    }
  }

  lemma WholeParts(s: State, now: int)
    requires Exchange.Whole(s, now)
    ensures MaintInv(s, now) && Distinct(s.queue)
  {
    MaintDistinct(s, now);
  }

  lemma SameVotesWhole(s: State, t: State, now: int)
    requires Exchange.Whole(s, now) && MaintInv(t, now) && t.votes == s.votes
    ensures Exchange.Whole(t, now)
  {
  }

  /** The owner's order, opened at a time, is still waiting. */
  predicate Waiting(s: State, owner: Name, since: int) {
    owner in s.queue && TimeOf(s.orders, owner) == since
  }

  /** No loan was added or prolonged, and no later order got ahead. */
  ghost predicate Settles(s: State, t: State, owner: Name, time: int) {
    LoansShrink(s, t, time) && Ahead(t.queue, owner) <= Ahead(s.queue, owner)
  }

  lemma AlikeSettles(s: State, entry: State, m: State, t: State, owner: Name, time: int)
    requires SameTables(s, entry) && SameTables(m, t)
    requires LoansShrink(entry, m, time) && KeepsPlace(entry.queue, m.queue, owner) && owner in t.queue
    ensures Settles(s, t, owner, time)
  {
  }

  /** Renting leaves no order waiting. */
  lemma RentNeedsNoOrders(s: State, now: int, a: Action)
    requires a.Rent? && Apply(s, now, a).Success?
    ensures Apply(s, now, a).value.queue == []
  {
    hide RunRex, StakeTo, Pools.BancorOutput, Pools.AddLoan, Insert, TransferFromFund;
  }

  /** As long as an order waits, no action adds or prolongs a loan, and from the moment after it was
      queued no other order gets ahead of it. */
  lemma WaitingStep(s: State, now: int, a: Action, owner: Name, since: int, time: int)
    requires Inv(s, now) && InEpoch(now) && Permitted(s, a) && Apply(s, now, a).Success?
    requires Waiting(s, owner, since) && Waiting(Apply(s, now, a).value, owner, since)
    ensures var t := Apply(s, now, a).value;
      LoansShrink(s, t, time) && (since < now ==> Settles(s, t, owner, time))
  {
    hide Inv, Apply, RunRex, KeepsPlace, Ahead, LoansShrink, Exchange.Whole, RunRex;
    var t := Apply(s, now, a).value;
    assert Exchange.Whole(s, now) by { InvParts(s, now); }
    assert Distinct(s.queue) && MaintInv(s, now) by { WholeParts(s, now); }
    QueuedOrders(s, now);
    if Aside(a) {
      AsideTables(s, now, a);
      SameSettles(s, t, owner, time);
    } else if Maintains(a) {
      var entry, max := MaintainsTables(s, now, a);
      RunRexSettles(entry, now, max, owner, time);
      AlikeSettles(s, entry, RunRex(entry, now, max).value, t, owner, time);
    } else if a.FundLoan? || a.DefundLoan? {
      LoanFundTables(s, now, a, time);
    } else if a.Rent? {
      RentNeedsNoOrders(s, now, a);
    } else {
      QueueStep(s, now, a, owner, since, time);
    }
  }

  lemma InvParts(s: State, now: int)
    requires Inv(s, now)
    ensures Exchange.Whole(s, now)
  {
  }

  lemma SameSettles(s: State, t: State, owner: Name, time: int)
    requires SameTables(s, t)
    ensures Settles(s, t, owner, time)
  {
  }

  lemma QueueStep(s: State, now: int, a: Action, owner: Name, since: int, time: int)
    requires Exchange.Whole(s, now) && InEpoch(now) && Apply(s, now, a).Success? && s.pool.Some?
    requires Waiting(s, owner, since) && Waiting(Apply(s, now, a).value, owner, since)
    requires a.SellRex? || a.CancelOrder? || a.CloseRex?
    ensures var t := Apply(s, now, a).value;
      LoansShrink(s, t, time) && (since < now ==> Settles(s, t, owner, time))
  {
    hide RunRex, Ahead, Exchange.Whole, Rex.SellRex, Rex.CloseRex, Rex.CancelOrder, LoansShrink;
    match a
    case SellRex(seller, rex) => SellSettles(s, now, seller, rex, owner, time);
    case CloseRex(closer) => CloseSettles(s, now, closer, owner, time);
    case CancelOrder(other) => CancelSettles(s, now, other, owner, time);
  }

  lemma CloseSettles(s: State, now: int, closer: Name, owner: Name, time: int)
    requires Exchange.Whole(s, now) && Rex.CloseRex(s, now, closer).Success? && s.pool.Some? && owner in s.queue
    requires owner in Rex.CloseRex(s, now, closer).value.queue
    ensures Settles(s, Rex.CloseRex(s, now, closer).value, owner, time)
  {
    hide RunRex, Ahead, Exchange.Whole, Rex.CloseRex, Distinct, LoansShrink;
    assert Distinct(s.queue) by { WholeParts(s, now); }
    CloseTables(s, now, closer);
    RunRexSettles(s, now, MAINTENANCE, owner, time);
    AlikeSettles(s, s, RunRex(s, now, MAINTENANCE).value, Rex.CloseRex(s, now, closer).value, owner, time);
  }

  lemma CancelSettles(s: State, now: int, other: Name, owner: Name, time: int)
    requires Exchange.Whole(s, now) && Rex.CancelOrder(s, other).Success?
    requires owner in Rex.CancelOrder(s, other).value.queue
    ensures Settles(s, Rex.CancelOrder(s, other).value, owner, time)
  {
    hide Ahead, Exchange.Whole, Distinct, Dequeue, EndBy;
    assert Distinct(s.queue) by { WholeParts(s, now); }
    if other == owner { DequeuedGone(s.queue, owner); }
    DequeueKeepsPlace(s.queue, other, owner);
  }

  lemma {:induction false} DequeuedGone(queue: seq<Name>, owner: Name)
    requires Distinct(queue)
    ensures owner !in Dequeue(queue, owner)
    decreases |queue|
  {
    if queue != [] {
      assert queue == [queue[0]] + queue[1..];
      if queue[0] != owner { DequeuedGone(queue[1..], owner); }
    }
  }

  // Progress

  /** Each maintenance, once the loans of the time are due, gets an order closer to the front. */
  lemma ExecProgress(s: State, now: int, max: nat, owner: Name)
    requires MaintInv(s, now) && 0 < max && owner in s.queue
    requires EndBy(s.cpuLoans, now) && EndBy(s.netLoans, now)
    ensures RunRex(s, now, max).Success?
    ensures var t := RunRex(s, now, max).value;
      owner in t.queue ==> Remaining(t) + Ahead(t.queue, owner) < Remaining(s) + Ahead(s.queue, owner)
  {
    hide MaintInv, RunRex, Ahead, Maintenance.Maintained;
    QueuedOrders(s, now);
    MaintDistinct(s, now);
    Maintenance.RunRexKeeps(s, now, max);
    RunRexSettles(s, now, max, owner, now);
    if Remaining(s) == 0 { RunRexFillsFirst(s, now, max, owner); }
  }

  /** The order waits in every state of the run. */
  ghost predicate WaitsThroughout(s: State, events: seq<Event>, owner: Name, since: int)
    decreases |events|
  {
    Waiting(s, owner, since) &&
    (events == [] || WaitsThroughout(Step(s, events[0].now, events[0].action), events[1..], owner, since))
  }

  /** The number of maintenance calls in a run. */
  function Execs(events: seq<Event>): nat {
    if events == [] then 0
    else (if events[0].action.RexExec? && 0 < events[0].action.max then 1 else 0) + Execs(events[1..])
  }

  ghost predicate LoansEndBy(s: State, time: int) {
    EndBy(s.cpuLoans, time) && EndBy(s.netLoans, time)
  }

  lemma StepWaits(s: State, start: int, at: int, a: Action, owner: Name, since: int, time: int)
    requires Inv(s, start) && 0 <= start <= at && InEpoch(at) && Permitted(s, a)
    requires Waiting(s, owner, since) && Waiting(Step(s, at, a), owner, since)
    ensures LoansShrink(s, Step(s, at, a), time) && (since < at ==> Settles(s, Step(s, at, a), owner, time))
  {
    hide Inv, Apply, Ahead, EndBy;
    InvLater(s, start, at);
    if Apply(s, at, a).Success? { WaitingStep(s, at, a, owner, since, time); }
  }

  /** Loans that end by a time keep doing so while the order waits. */
  lemma {:induction false} WaitingRunEndBy(s: State, start: int, events: seq<Event>, owner: Name, since: int, time: int)
    requires Inv(s, start) && Chronological(start, events) && AllPermitted(s, events)
    requires WaitsThroughout(s, events, owner, since) && LoansEndBy(s, time)
    ensures LoansEndBy(Run(s, events), time)
    decreases |events|
  {
    hide Inv, Step, Permitted, Waiting, EndBy, Settles;
    if events != [] {
      var e := events[0];
      var next := Step(s, e.now, e.action);
      ChronologicalTail(start, events);
      StepKeepsInv(s, start, e.now, e.action);
      StepWaits(s, start, e.now, e.action, owner, since, time);
      WaitingRunEndBy(next, e.now, events[1..], owner, since, time);
    }
  }

  lemma EndByLater(s: State, time: int, later: int)
    requires LoansEndBy(s, time) && time <= later
    ensures LoansEndBy(s, later)
  {
  }

  lemma StepExec(s: State, start: int, e: Event, owner: Name, since: int, time: int)
    requires Inv(s, start) && 0 <= start <= e.now && InEpoch(e.now) && Permitted(s, e.action)
    requires Waiting(s, owner, since) && Waiting(Step(s, e.now, e.action), owner, since)
    requires LoansEndBy(s, time) && time <= e.now && since < e.now
    ensures var t := Step(s, e.now, e.action);
      var exec := if e.action.RexExec? && 0 < e.action.max then 1 else 0;
      && LoansEndBy(t, time)
      && exec + Remaining(t) + Ahead(t.queue, owner) <= Remaining(s) + Ahead(s.queue, owner)
  {
    hide Inv, RunRex, Ahead, EndBy, Apply, Permitted;
    StepWaits(s, start, e.now, e.action, owner, since, time);
    if e.action.RexExec? && 0 < e.action.max {
      InvLater(s, start, e.now);
      assert MaintInv(s, e.now) by { InvParts(s, e.now); WholeParts(s, e.now); }
      EndByLater(s, time, e.now);
      ExecProgress(s, e.now, e.action.max, owner);
      ExecTable(s, e.now, e.action);
    }
  }

  lemma ExecTable(s: State, now: int, a: Action)
    requires a.RexExec?
    ensures Apply(s, now, a) == RunRex(s, now, a.max)
  {
  }

  /** An order cannot wait through more maintenance calls than there are loans and orders ahead. */
  lemma {:induction false} WaitingRunExecs(s: State, start: int, events: seq<Event>, owner: Name, since: int, time: int)
    requires Inv(s, start) && Chronological(start, events) && AllPermitted(s, events)
    requires WaitsThroughout(s, events, owner, since) && LoansEndBy(s, time)
    requires forall i :: 0 <= i < |events| ==> time <= events[i].now && since < events[i].now
    ensures Execs(events) <= Remaining(s) + Ahead(s.queue, owner)
    decreases |events|
  {
    hide Inv, Step, Permitted, Waiting, LoansEndBy, Ahead, Chronological;
    if events != [] {
      var e := events[0];
      var next := Step(s, e.now, e.action);
      assert 0 <= start <= e.now && InEpoch(e.now) by { ChronologicalHead(start, events); }
      ChronologicalTail(start, events);
      StepKeepsInv(s, start, e.now, e.action);
      StepExec(s, start, e, owner, since, time);
      WaitingRunExecs(next, e.now, events[1..], owner, since, time);
    }
  }

  lemma ChronologicalHead(start: int, events: seq<Event>)
    requires Chronological(start, events) && events != []
    ensures 0 <= start <= events[0].now && InEpoch(events[0].now)
  {
  }

  // What becomes of an order

  /** The order is still there, unchanged or closed since. */
  ghost predicate Follows(before: map<Name, Order>, after: map<Name, Order>, owner: Name) {
    owner in before ==>
      && owner in after
      && after[owner].requested == before[owner].requested && after[owner].time == before[owner].time
      && (after[owner].open ==> before[owner].open)
  }

  lemma FollowsTransitive(a: map<Name, Order>, b: map<Name, Order>, c: map<Name, Order>, owner: Name)
    requires Follows(a, b, owner) && Follows(b, c, owner)
    ensures Follows(a, c, owner)
  {
  }

  lemma {:induction false} FillOrdersFollow(s: State, at: nat, max: nat, owner: Name)
    requires s.pool.Some? && at <= |s.queue| && FillOrders(s, at, max).Success?
    ensures Follows(s.orders, FillOrders(s, at, max).value.orders, owner)
    decreases max
  {
    hide Follows, Pools.Sell;
    if max == 0 || at == |s.queue| {
      FollowsSame(s.orders, owner);
    } else {
      var next := FillOrder(s, at).value;
      FillOrderFollows(s, at, owner);
      var to := if |next.queue| < |s.queue| then at else at + 1;
      FillOrdersFollow(next, to, max - 1, owner);
      FollowsTransitive(s.orders, next.orders, FillOrders(next, to, max - 1).value.orders, owner);
    }
  }

  lemma FollowsSame(orders: map<Name, Order>, owner: Name)
    ensures Follows(orders, orders, owner)
  {
  }

  lemma FillOrderFollows(s: State, at: nat, owner: Name)
    requires s.pool.Some? && at < |s.queue| && FillOrder(s, at).Success?
    ensures Follows(s.orders, FillOrder(s, at).value.orders, owner)
  {
    hide Pools.Sell;
  }

  lemma {:induction false} ExpireLoansOrders(s: State, now: int, kind: LoanKind, max: nat)
    requires s.pool.Some? && ExpireLoans(s, now, kind, max).Success?
    ensures ExpireLoans(s, now, kind, max).value.orders == s.orders
    decreases max
  {
    hide ExpireLoan;
    if max != 0 && LoansOf(s, kind) != [] && LoansOf(s, kind)[0].expiration <= now {
      ExpireLoanOrders(s, kind);
      ExpireLoansOrders(ExpireLoan(s, kind).value, now, kind, max - 1);
    }
  }

  lemma ExpireLoanOrders(s: State, kind: LoanKind)
    requires s.pool.Some? && LoansOf(s, kind) != [] && ExpireLoan(s, kind).Success?
    ensures ExpireLoan(s, kind).value.orders == s.orders
  {
    hide StakeTo, Pools.RemoveLoan, Pools.BancorOutput, Insert;
  }

  lemma RunRexFollows(s: State, now: int, max: nat, owner: Name)
    requires RunRex(s, now, max).Success?
    ensures Follows(s.orders, RunRex(s, now, max).value.orders, owner)
  {
    hide ExpireLoans, FillOrders, ChannelToRex, Follows;
    var swept := SweepNamebids(s).value;
    SweepOrders(s);
    ExpireLoansOrders(swept, now, Cpu, max);
    var cpu := ExpireLoans(swept, now, Cpu, max).value;
    ExpireLoansOrders(cpu, now, Net, max);
    FillOrdersFollow(ExpireLoans(cpu, now, Net, max).value, 0, max, owner);
  }

  lemma SweepOrders(s: State)
    requires s.pool.Some? && SweepNamebids(s).Success?
    ensures SweepNamebids(s).value.orders == s.orders
  {
  }

  /** Who acts, if it is an owner acting for itself. */
  predicate By(a: Action, owner: Name) {
    !(a.SetRex? || a.RexExec? || a.SetClaimPeriod? || a.OnBlock? || a.AddRequest? || a.Reply? || a.ChangeRam? || a.CloseAuction?)
    && a.owner == owner
  }

  lemma KeptFollows(before: map<Name, Order>, after: map<Name, Order>, other: Name, owner: Name)
    requires OthersKept(before, after, other) && owner != other
    ensures Follows(before, after, owner)
  {
  }

  /** Nobody but its owner takes an order away: others' actions can only fill it. */
  lemma OthersFollow(s: State, now: int, a: Action, owner: Name)
    requires Inv(s, now) && InEpoch(now) && Permitted(s, a) && Apply(s, now, a).Success? && !By(a, owner)
    ensures Follows(s.orders, Apply(s, now, a).value.orders, owner)
  {
    hide Inv, Apply, RunRex, Follows, OthersKept, SameTables;
    var t := Apply(s, now, a).value;
    FollowsSame(s.orders, owner);
    if Aside(a) {
      AsideTables(s, now, a);
      if a.Withdraw? { KeptFollows(s.orders, t.orders, a.owner, owner); }
    } else if Maintains(a) {
      var entry, max := MaintainsTables(s, now, a);
      RunRexFollows(entry, now, max, owner);
      var m := RunRex(entry, now, max).value;
      if !a.RexExec? {
        KeptFollows(m.orders, t.orders, a.owner, owner);
        FollowsTransitive(s.orders, m.orders, t.orders, owner);
      }
    } else {
      QueueFollows(s, now, a, owner);
    }
  }

  lemma QueueFollows(s: State, now: int, a: Action, owner: Name)
    requires Apply(s, now, a).Success? && !By(a, owner)
    requires a.SellRex? || a.CancelOrder? || a.CloseRex? || a.Rent? || a.FundLoan? || a.DefundLoan?
    ensures Follows(s.orders, Apply(s, now, a).value.orders, owner)
  {
    hide Rex.SellRex, Rex.CancelOrder, Rex.CloseRex, Rex.Rent, Rex.FundLoan, Rex.DefundLoan, Dequeue;
    match a
    case SellRex(seller, rex) => SellFollows(s, now, seller, rex, owner);
    case CloseRex(closer) => CloseFollows(s, now, closer, owner);
    case Rent(kind, from, receiver, payment, fund) => RentFollows(s, now, kind, from, receiver, payment, fund, owner);
    case CancelOrder(other) =>
    case FundLoan(kind, from, num, amount) =>
    case DefundLoan(kind, from, num, amount) =>
  }

  lemma CloseFollows(s: State, now: int, closer: Name, owner: Name)
    requires Rex.CloseRex(s, now, closer).Success? && closer != owner
    ensures Follows(s.orders, Rex.CloseRex(s, now, closer).value.orders, owner)
  {
    hide RunRex, UpdateRexAccount, HasOwner, Follows, OthersKept;
    if s.pool.Some? { RunRexFollows(s, now, MAINTENANCE, owner); } else { FollowsSame(s.orders, owner); }
    var m := if s.pool.Some? then RunRex(s, now, MAINTENANCE).value else s;
    AccountTables(m, now, closer, 0, 0, false);
    var updated := UpdateRexAccount(m, now, closer, 0, 0, false).value.0;
    KeptFollows(m.orders, updated.orders, closer, owner);
    FollowsTransitive(s.orders, m.orders, updated.orders, owner);
  }

  lemma RentFollows(s: State, now: int, kind: LoanKind, from: Name, receiver: Name, payment: int, fund: int, owner: Name)
    requires Rex.Rent(s, now, kind, from, receiver, payment, fund).Success?
    ensures Follows(s.orders, Rex.Rent(s, now, kind, from, receiver, payment, fund).value.orders, owner)
  {
    hide RunRex, TransferFromFund, StakeTo, Pools.BancorOutput, Pools.AddLoan, Insert, Follows;
    RunRexFollows(s, now, MAINTENANCE, owner);
  }

  lemma SellFollows(s: State, now: int, seller: Name, rex: int, owner: Name)
    requires Rex.SellRex(s, now, seller, rex).Success? && seller != owner
    ensures Follows(s.orders, Rex.SellRex(s, now, seller, rex).value.orders, owner)
  {
    hide RunRex, UpdateRexAccount, Pools.Sell, Maturity.Mature, Enqueue;
    RunRexFollows(s, now, MAINTENANCE, owner);
    var m := RunRex(s, now, MAINTENANCE).value;
    var b := Maturity.Mature(m.balances[seller], Seconds(now));
    match Pools.Sell(m.pool.value, b, rex).value
    case Filled(pool, left, proceeds, stakeChange) =>
      AccountTables(m.(pool := Some(pool), balances := m.balances[seller := left]), now, seller, proceeds, stakeChange, false);
    case Unfilled =>
      AccountTables(m.(balances := m.balances[seller := b]), now, seller, 0, 0, false);
  }

  /** None of the run's actions is the owner's own. */
  predicate LeavesAlone(events: seq<Event>, owner: Name) {
    forall i :: 0 <= i < |events| ==> !By(events[i].action, owner)
  }

  /** If an order still waits at the end of a run of others' actions, it waited all along. */
  lemma {:induction false} WaitedThroughout(s: State, start: int, events: seq<Event>, owner: Name, since: int)
    requires Inv(s, start) && Chronological(start, events) && AllPermitted(s, events) && LeavesAlone(events, owner)
    requires Waiting(s, owner, since)
    ensures var t := Run(s, events);
      && owner in t.orders && t.orders[owner].requested == s.orders[owner].requested && t.orders[owner].time == since
      && (t.orders[owner].open ==> WaitsThroughout(s, events, owner, since))
    decreases |events|
  {
    hide Inv, Step, Permitted, Chronological;
    assert owner in s.orders && s.orders[owner].open by { InvQueued(s, start); }
    if events != [] {
      var e := events[0];
      var next := Step(s, e.now, e.action);
      assert 0 <= start <= e.now && InEpoch(e.now) by { ChronologicalHead(start, events); }
      ChronologicalTail(start, events);
      StepKeepsInv(s, start, e.now, e.action);
      StepFollows(s, start, e.now, e.action, owner);
      if next.orders[owner].open {
        InvQueued(next, e.now);
        WaitedThroughout(next, e.now, events[1..], owner, since);
      } else {
        ClosedStays(next, e.now, events[1..], owner);
      }
    }
  }

  lemma InvQueued(s: State, now: int)
    requires Inv(s, now)
    ensures forall n :: n in s.queue <==> n in s.orders && s.orders[n].open
  {
  }

  lemma StepFollows(s: State, start: int, at: int, a: Action, owner: Name)
    requires Inv(s, start) && 0 <= start <= at && InEpoch(at) && Permitted(s, a) && !By(a, owner)
    ensures Follows(s.orders, Step(s, at, a).orders, owner)
  {
    hide Inv, Apply;
    InvLater(s, start, at);
    if Apply(s, at, a).Success? { OthersFollow(s, at, a, owner); }
  }

  /** A filled order stays until its owner collects it. */
  lemma {:induction false} ClosedStays(s: State, start: int, events: seq<Event>, owner: Name)
    requires Inv(s, start) && Chronological(start, events) && AllPermitted(s, events) && LeavesAlone(events, owner)
    requires owner in s.orders && !s.orders[owner].open
    ensures var t := Run(s, events);
      && owner in t.orders && !t.orders[owner].open
      && t.orders[owner].requested == s.orders[owner].requested && t.orders[owner].time == s.orders[owner].time
    decreases |events|
  {
    hide Inv, Step, Permitted, Chronological;
    if events != [] {
      var e := events[0];
      assert 0 <= start <= e.now && InEpoch(e.now) by { ChronologicalHead(start, events); }
      ChronologicalTail(start, events);
      StepKeepsInv(s, start, e.now, e.action);
      StepFollows(s, start, e.now, e.action, owner);
      ClosedStays(Step(s, e.now, e.action), e.now, events[1..], owner);
    }
  }

  // The theorem

  lemma {:induction false} RunSplits(s: State, first: seq<Event>, later: seq<Event>, owner: Name, since: int)
    ensures Run(s, first + later) == Run(Run(s, first), later)
    ensures AllPermitted(s, first + later) ==> AllPermitted(s, first) && AllPermitted(Run(s, first), later)
    ensures WaitsThroughout(s, first + later, owner, since) ==>
      WaitsThroughout(s, first, owner, since) && WaitsThroughout(Run(s, first), later, owner, since)
    decreases |first|
  {
    hide Step, Permitted, Waiting;
    if first == [] {
      assert first + later == later;
    } else {
      assert (first + later)[1..] == first[1..] + later;
      RunSplits(Step(s, first[0].now, first[0].action), first[1..], later, owner, since);
    }
  }

  lemma ChronologySplits(start: int, first: seq<Event>, later: seq<Event>)
    requires Chronological(start, first + later)
    ensures Chronological(start, first) && Chronological(EndTime(start, first), later)
  {
    var all := first + later;
    forall i | 0 <= i < |first| ensures first[i] == all[i] {
    }
    forall i | 0 <= i < |later| ensures later[i] == all[|first| + i] {
    }
  }

  lemma LoansEndInTime(s: State, now: int)
    requires Inv(s, now)
    ensures LoansEndBy(s, now + LOAN_TERM)
  {
  }

  /** Every sell order is filled in the end, whatever everyone else does: 30 days after it was queued
      no more maintenance calls are needed than there are loans left and orders ahead, plus one. */
  lemma OrderIsFilled(s: State, since: int, owner: Name, first: seq<Event>, later: seq<Event>)
    requires Inv(s, since) && Waiting(s, owner, since)
    requires Chronological(since, first + later) && AllPermitted(s, first + later) && LeavesAlone(first + later, owner)
    requires forall i :: 0 <= i < |later| ==> since + LOAN_TERM <= later[i].now
    requires var due := Run(s, first); Remaining(due) + Ahead(due.queue, owner) + 1 <= Execs(later)
    ensures var t := Run(s, first + later);
      && owner in t.orders && !t.orders[owner].open
      && t.orders[owner].requested == s.orders[owner].requested && t.orders[owner].time == since
  {
    hide Inv, Run, AllPermitted, LoansEndBy, Ahead, Chronological, WaitsThroughout, LeavesAlone, Remaining;
    WaitedThroughout(s, since, first + later, owner, since);
    if Run(s, first + later).orders[owner].open {
      RunSplits(s, first, later, owner, since);
      ChronologySplits(since, first, later);
      LoansEndInTime(s, since);
      WaitingRunEndBy(s, since, first, owner, since, since + LOAN_TERM);
      RunKeepsInv(s, since, first);
      WaitingRunExecs(Run(s, first), EndTime(since, first), later, owner, since, since + LOAN_TERM);
    }
  }
}
