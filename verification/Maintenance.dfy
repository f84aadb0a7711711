/** The maintenance never aborts, keeps the invariant, and moves no value in or out. */
module Maintenance {
  import opened Outcomes
  import opened Arithmetic
  import opened Sums
  import opened Chain
  import opened Loans
  import opened Rex
  import opened Ledger
  import Token
  import Maturity
  import Pools
  import Staking

  /** The tables the maintenance leaves alone. */
  ghost predicate Untouched(s: State, t: State) {
    && t.delegations == s.delegations && t.refunds == s.refunds && t.votes == s.votes && t.pay == s.pay
    && t.supply == s.supply && t.maxSupply == s.maxSupply
    && t.balances.Keys == s.balances.Keys
    && Total(t.tokens) == Total(s.tokens)
    && (forall a :: a != REX && a != NAMES ==> At(t.tokens, a) == At(s.tokens, a))
  }

  /** `t` follows from `s` by maintenance. */
  ghost predicate Maintained(s: State, t: State, now: int) {
    && MaintInv(t, now)
    && RexSurplus(t) == RexSurplus(s)
    && Untouched(s, t)
    && s.pool.Some? && t.pool.Some?
    && Pools.PriceKept(s.pool.value, t.pool.value)
  }

  lemma MaintainedTransitive(s: State, t: State, u: State, now: int)
    requires MaintInv(s, now) && Maintained(s, t, now) && Maintained(t, u, now)
    ensures Maintained(s, u, now)
  {
    hide WeightsAgree, StakesOk, ResourcesOk, RefundsOk, OrdersOk, BalancesOk, InTimeOrder, LoansOk, RexSurplus,
         Token.NoneOverdrawn, Total;
    Pools.PriceKeptTransitive(s.pool.value, t.pool.value, u.pool.value);
  }

  // Expired loans

  /** Replacing the first loan of a table by nothing or by a renewal, with the pool and the resource
      totals following, keeps the books. */
  lemma HeadLoanParts(s: State, now: int, kind: LoanKind)
    requires MaintInv(s, now) && s.pool.Some? && LoansOf(s, kind) != []
    ensures var loans := LoansOf(s, kind);
      && Fair(loans[0], now) && loans[0].staked <= s.pool.value.lent
      && LoansOk(loans[1..], now, s.pool.value.loanNum)
      && loans[0].num <= s.pool.value.loanNum
      && (forall i :: 0 <= i < |loans[1..]| ==> loans[1..][i].num != loans[0].num)
      && loans[0].staked <= Weight(s.resources, kind, loans[0].receiver)
      && 0 <= Weight(s.resources, Net, loans[0].receiver) && 0 <= Weight(s.resources, Cpu, loans[0].receiver)
      && 0 < s.pool.value.rex
      && Staked(loans) == loans[0].staked + Staked(loans[1..])
      && Escrow(loans) == loans[0].balance + Escrow(loans[1..])
      && (forall a :: StakedTo(loans, a) == StakedTo(loans[1..], a) + if a == loans[0].receiver then loans[0].staked else 0)
  {
    hide Staking.UpdateResources, Maturity.Healthy, Token.NoneOverdrawn, OrdersOk, InTimeOrder;
    var loans := LoansOf(s, kind);
    var receiver := loans[0].receiver;
    StakedNonneg(s.cpuLoans, now, receiver);
    StakedNonneg(s.netLoans, now, receiver);
    StakedNonneg(loans[1..], now, receiver);
    InboundNonneg(s.delegations, Cpu, receiver);
    InboundNonneg(s.delegations, Net, receiver);
  }

  /** The part of the invariant that speaks of loans, after the first loan of a table was replaced. */
  lemma LoanTablesKeep(s: State, now: int, kind: LoanKind, loans: seq<Loan>, p: Pool, delta: int)
    requires MaintInv(s, now) && s.pool.Some? && LoansOf(s, kind) != []
    requires LoansOk(loans, now, p.loanNum) && p.loanNum == s.pool.value.loanNum
    requires Pools.Sound(p) && p.rex == s.pool.value.rex && p.namebid == s.pool.value.namebid
    requires p.lent == s.pool.value.lent + delta
    requires Staked(loans) == Staked(LoansOf(s, kind)) + delta
    requires var receiver := LoansOf(s, kind)[0].receiver;
      && 0 <= Weight(s.resources, kind, receiver) + delta
      && forall a :: StakedTo(loans, a) == StakedTo(LoansOf(s, kind), a) + if a == receiver then delta else 0
    ensures var receiver := LoansOf(s, kind)[0].receiver;
      var changed := WithLoans(s.(pool := Some(p)), kind, loans);
      var r := StakeTo(changed, kind, receiver, delta);
      && r.Success?
      && MaintInv(r.value, now) && Untouched(s, r.value)
      && r.value == changed.(resources := r.value.resources)
  {
    hide BalancesOk, FundsOk, Token.NoneOverdrawn, OrdersOk, InTimeOrder, Inbound, Total, LoansOk, Shares, StakesOk, RefundsOk, Weight,
         Staking.UpdateResources;
    var receiver := LoansOf(s, kind)[0].receiver;
    var net := if kind == Net then delta else 0;
    var cpu := if kind == Cpu then delta else 0;
    UpdateResourcesWeights(s.resources, receiver, net, cpu);
    HeadLoanParts(s, now, kind);
    var changed := WithLoans(s.(pool := Some(p)), kind, loans);
    assert changed.resources == s.resources;
  }

  /** A payment into a fund adds to what the exchange owes, and to nothing else. */
  lemma ToFundKeeps(s: State, now: int, owner: Name, amount: int)
    requires MaintInv(s, now) && 0 < amount
    ensures TransferToFund(s, owner, amount).Success?
    ensures var t := TransferToFund(s, owner, amount).value;
      MaintInv(t, now) && t == s.(funds := t.funds) && Total(t.funds) == Total(s.funds) + amount
  {
    hide PoolOk, BalancesOk, OrdersOk, InTimeOrder, WeightsAgree, StakesOk, ResourcesOk, RefundsOk,
         Token.NoneOverdrawn, Total;
    TotalUpdate(s.funds, owner, At(s.funds, owner) + amount);
  }

  /** The funds after a closed loan was refunded. */
  function Refunded(funds: map<Name, int>, loan: Loan): map<Name, int> {
    if 0 < loan.balance then funds[loan.from := At(funds, loan.from) + loan.balance] else funds
  }

  lemma RefundKeeps(s: State, now: int, loan: Loan)
    requires MaintInv(s, now) && 0 <= loan.balance
    ensures MaintInv(s.(funds := Refunded(s.funds, loan)), now)
    ensures Total(Refunded(s.funds, loan)) == Total(s.funds) + loan.balance
  {
    hide MaintInv, Total, RexSurplus;
    if 0 < loan.balance { ToFundKeeps(s, now, loan.from, loan.balance); }
  }

  lemma CloseLoanSteps(s: State, kind: LoanKind, closed: Pool)
    requires LoansOf(s, kind) != []
    ensures var loan := LoansOf(s, kind)[0];
      CloseLoan(s, kind, closed)
        == StakeTo(WithLoans(s.(funds := Refunded(s.funds, loan), pool := Some(closed)), kind, LoansOf(s, kind)[1..]),
                   kind, loan.receiver, -loan.staked)
  {
  }

  lemma CloseLoanKeeps(s: State, now: int, kind: LoanKind, closed: Pool)
    requires MaintInv(s, now) && s.pool.Some? && LoansOf(s, kind) != []
    requires Pools.RemoveLoan(s.pool.value, LoansOf(s, kind)[0].staked) == Success(closed)
    ensures var r := CloseLoan(s, kind, closed);
      r.Success? && Maintained(s, r.value, now) && LoansOf(r.value, kind) == LoansOf(s, kind)[1..]
  {
    hide MaintInv, Total, Pools.RemoveLoan, StakeTo, LoansOk, Staked, StakedTo, Escrow, Weight, Proceeds, CloseLoan,
         Refunded;
    var loan := LoansOf(s, kind)[0];
    PoolIsSound(s, now);
    HeadLoanParts(s, now, kind);
    Pools.RemoveLoanKeeps(s.pool.value, loan.staked);
    RefundKeeps(s, now, loan);
    CloseLoanSteps(s, kind, closed);
    LoanTablesKeep(s.(funds := Refunded(s.funds, loan)), now, kind, LoansOf(s, kind)[1..], closed, -loan.staked);
  }

  lemma PoolIsSound(s: State, now: int)
    requires MaintInv(s, now) && s.pool.Some?
    ensures Pools.Sound(s.pool.value)
  {
  }

  lemma RenewLoanKeeps(s: State, now: int, kind: LoanKind, closed: Pool, rented: int)
    requires MaintInv(s, now) && s.pool.Some? && LoansOf(s, kind) != []
    requires LoansOf(s, kind)[0].expiration <= now
    requires LoansOf(s, kind)[0].payment <= LoansOf(s, kind)[0].balance && LoansOf(s, kind)[0].payment < rented
    requires Pools.RemoveLoan(s.pool.value, LoansOf(s, kind)[0].staked) == Success(closed)
    requires Pools.BancorOutput(closed.rent, closed.unlent, LoansOf(s, kind)[0].payment) == Success(rented)
    ensures var r := RenewLoan(s, kind, closed, rented);
      r.Success? && Maintained(s, r.value, now)
  {
    hide WeightsAgree, StakesOk, ResourcesOk, RefundsOk, Token.NoneOverdrawn, OrdersOk, InTimeOrder, BalancesOk, FundsOk, Total,
         Shares, Proceeds, Staked, StakedTo, Weight, Indexed, Pools.RemoveLoan, Pools.BancorOutput, StakeTo;
    var loan := LoansOf(s, kind)[0];
    var rest := LoansOf(s, kind)[1..];
    HeadLoanParts(s, now, kind);
    Pools.RemoveLoanKeeps(s.pool.value, loan.staked);
    Pools.AddLoanKeeps(closed, loan.payment, false);
    var p := Pools.AddLoan(closed, loan.payment, rented, false);
    Pools.PriceKeptTransitive(s.pool.value, closed, p);
    var renewed := loan.(staked := rented, expiration := loan.expiration + LOAN_TERM, balance := loan.balance - loan.payment);
    var loans := Insert(rest, renewed);
    InsertIndexed(rest, renewed, p.loanNum);
    InsertFair(rest, renewed, now);
    forall a ensures StakedTo(loans, a) == StakedTo(LoansOf(s, kind), a) + if a == loan.receiver then rented - loan.staked else 0 {
      InsertSums(rest, renewed, a);
    }
    InsertSums(rest, renewed, loan.receiver);
    LoanTablesKeep(s, now, kind, loans, p, rented - loan.staked);
  }

  /** An expired loan is renewed or closed without aborting, whatever it did to the price. */
  lemma ExpireLoanKeeps(s: State, now: int, kind: LoanKind)
    requires MaintInv(s, now) && s.pool.Some? && LoansOf(s, kind) != []
    requires LoansOf(s, kind)[0].expiration <= now
    ensures ExpireLoan(s, kind).Success? && Maintained(s, ExpireLoan(s, kind).value, now)
  {
    hide WeightsAgree, StakesOk, ResourcesOk, RefundsOk, Token.NoneOverdrawn, OrdersOk, InTimeOrder, BalancesOk, Total,
         Pools.RemoveLoan, Pools.BancorOutput, StakeTo, Indexed, CloseLoan, RenewLoan, Maintained;
    var loan := LoansOf(s, kind)[0];
    HeadLoanParts(s, now, kind);
    Pools.RemoveLoanKeeps(s.pool.value, loan.staked);
    var closed := Pools.RemoveLoan(s.pool.value, loan.staked).value;
    CloseLoanKeeps(s, now, kind, closed);
    Pools.AddLoanKeeps(closed, loan.payment, false);
    var rented := Pools.BancorOutput(closed.rent, closed.unlent, loan.payment).value;
    if Renews(s.(pool := Some(closed)), loan, rented) {
      RenewLoanKeeps(s, now, kind, closed, rented);
    }
  }

  lemma MaintainedRefl(s: State, now: int)
    requires MaintInv(s, now) && s.pool.Some?
    ensures Maintained(s, s, now)
  {
  }

  lemma {:induction false} ExpireLoansKeeps(s: State, now: int, kind: LoanKind, max: nat)
    requires MaintInv(s, now) && s.pool.Some?
    ensures ExpireLoans(s, now, kind, max).Success? && Maintained(s, ExpireLoans(s, now, kind, max).value, now)
    decreases max
  {
    hide MaintInv, Untouched, RexSurplus, Pools.PriceKept, ExpireLoan;
    if max == 0 || LoansOf(s, kind) == [] || now < LoansOf(s, kind)[0].expiration {
      MaintainedRefl(s, now);
    } else {
      ExpireLoanKeeps(s, now, kind);
      var next := ExpireLoan(s, kind).value;
      ExpireLoansKeeps(next, now, kind, max - 1);
      MaintainedTransitive(s, next, ExpireLoans(next, now, kind, max - 1).value, now);
    }
  }

  // Sell orders

  /** The order tables after an order was filled. */
  lemma FilledTablesKeep(s: State, now: int, at: nat, b: Balance, order: Order)
    requires RexInv(s, now) && at < |s.queue| && s.queue[at] in s.orders && s.queue[at] in s.balances
    requires Maturity.Healthy(b, now) && !order.open && 0 <= order.proceeds && order.time == s.orders[s.queue[at]].time
    ensures var owner := s.queue[at];
      var balances := s.balances[owner := b];
      var orders := s.orders[owner := order];
      var queue := s.queue[..at] + s.queue[at + 1..];
      && BalancesOk(balances, now) && OrdersOk(orders, queue, balances, now) && InTimeOrder(orders, queue)
      && Shares(balances) == Shares(s.balances) - s.balances[owner].rex + b.rex
      && Proceeds(orders) == Proceeds(s.orders) - Uncollected(s.orders[owner]) + order.proceeds
  {
    hide Maturity.Healthy, PoolOk, InTimeOrder, Total;
    var owner := s.queue[at];
    SharesUpdate(s.balances, owner, b);
    ProceedsUpdate(s.orders, owner, order);
    QueueWithout(s.orders, s.orders[owner := order], s.queue, at);
  }

  /** An open order is sold at the pool price or left alone; its owner's balance is there, as the
      comment claims. */
  lemma FillOrderKeeps(s: State, now: int, at: nat)
    requires MaintInv(s, now) && s.pool.Some? && at < |s.queue|
    ensures s.queue[at] in s.orders && s.queue[at] in s.balances
    ensures FillOrder(s, at).Success? && Maintained(s, FillOrder(s, at).value, now)
    ensures FillOrder(s, at).value.cpuLoans == s.cpuLoans && FillOrder(s, at).value.netLoans == s.netLoans
  {
    hide WeightsAgree, StakesOk, ResourcesOk, RefundsOk, Token.NoneOverdrawn, LoansOk, InTimeOrder, Total, Pools.Sell,
         Maturity.Shape, Shares, Proceeds;
    var owner := s.queue[at];
    var order := s.orders[owner];
    var b := s.balances[owner];
    ShareAtMost(s.balances, now, owner);
    Pools.SellKeeps(s.pool.value, b, order.requested);
    var sale := Pools.Sell(s.pool.value, b, order.requested).value;
    if sale.Filled? {
      var closed := order.(proceeds := sale.proceeds, stakeChange := sale.stakeChange, open := false);
      FilledTablesKeep(s, now, at, sale.balance, closed);
    } else {
      MaintainedRefl(s, now);
    }
  }

  lemma QueueWithout(orders: map<Name, Order>, after: map<Name, Order>, queue: seq<Name>, at: nat)
    requires InTimeOrder(orders, queue) && at < |queue|
    requires forall n :: n in orders && n != queue[at] ==> n in after && after[n].time == orders[n].time
    requires forall n :: n in queue ==> n in orders
    ensures var rest := queue[..at] + queue[at + 1..];
      && InTimeOrder(after, rest) && queue[at] !in rest
      && forall n :: n in rest <==> n in queue && n != queue[at]
  {
    var rest := queue[..at] + queue[at + 1..];
    forall i | 0 <= i < |queue| && queue[i] == queue[at] ensures i == at {
    }
    forall n | n in queue && n != queue[at] ensures n in rest {
      var i :| 0 <= i < |queue| && queue[i] == n;
      assert if i < at then rest[i] == n else rest[i - 1] == n;
    }
    forall i | 0 <= i < |rest| ensures rest[i] in queue && rest[i] != queue[at] {
      assert rest[i] == if i < at then queue[i] else queue[i + 1];
    }
  }

  lemma {:induction false} FillOrdersKeeps(s: State, now: int, at: nat, max: nat)
    requires MaintInv(s, now) && s.pool.Some? && at <= |s.queue|
    ensures FillOrders(s, at, max).Success? && Maintained(s, FillOrders(s, at, max).value, now)
    decreases max
  {
    hide MaintInv, Untouched, RexSurplus, Pools.PriceKept;
    if max == 0 || at == |s.queue| {
      MaintainedRefl(s, now);
    } else {
      FillOrderKeeps(s, now, at);
      var next := FillOrder(s, at).value;
      var to := if |next.queue| < |s.queue| then at else at + 1;
      FillOrdersKeeps(next, now, to, max - 1);
      MaintainedTransitive(s, next, FillOrders(next, to, max - 1).value, now);
    }
  }

  // Fees, and the whole

  /** Fees go to the lenders in full: what the exchange owes grows by what it receives. */
  lemma ChannelToRexKeeps(s: State, now: int, from: Name, amount: int)
    requires MaintInv(s, now) && 0 < amount <= At(s.tokens, from) && from != REX
    requires from == NAMES && s.pool.Some? ==> amount <= s.pool.value.namebid
    ensures ChannelToRex(s, from, amount).Success?
    ensures var t := ChannelToRex(s, from, amount).value;
      && t == s.(pool := t.pool, tokens := t.tokens)
      && RexInv(t, now) && StakeInv(t) && Token.NoneOverdrawn(t.tokens)
      && RexSurplus(t) == RexSurplus(s)
      && Total(t.tokens) == Total(s.tokens)
      && (forall a :: a != REX && a != from ==> At(t.tokens, a) == At(s.tokens, a))
      && t.pool.Some? == s.pool.Some?
      && (s.pool.Some? ==>
            && Pools.PriceKept(s.pool.value, t.pool.value)
            && t.pool.value.namebid == s.pool.value.namebid
            && s.pool.value.rent * s.pool.value.unlent <= t.pool.value.rent * t.pool.value.unlent
            && At(t.tokens, NAMES) == At(s.tokens, NAMES)
                 - if from == NAMES && Pools.Available(s.pool) then amount else 0)
  {
    hide Total, LoansOk, OrdersOk, InTimeOrder, BalancesOk;
    Token.TransferMoves(s.tokens, from, REX, amount);
    if Pools.Available(s.pool) {
      Pools.AddFeeKeeps(s.pool.value, amount);
    }
  }

  lemma SweepNamebidsKeeps(s: State, now: int)
    requires MaintInv(s, now) && s.pool.Some?
    ensures SweepNamebids(s).Success? && Maintained(s, SweepNamebids(s).value, now)
    ensures var t := SweepNamebids(s).value;
      && t.cpuLoans == s.cpuLoans && t.netLoans == s.netLoans && t.queue == s.queue && t.orders == s.orders
      && t.balances == s.balances && t.pool.value.namebid == 0
      && s.pool.value.rent * s.pool.value.unlent <= t.pool.value.rent * t.pool.value.unlent
  {
    hide Total, LoansOk, OrdersOk, InTimeOrder, BalancesOk, ChannelToRex;
    if 0 < s.pool.value.namebid {
      ChannelToRexKeeps(s, now, NAMES, s.pool.value.namebid);
    }
  }

  /** From every state that keeps the invariant the maintenance succeeds: no check in it can fail,
      nothing is divided by zero. It keeps the invariant, changes no one's claim on the exchange
      beyond what tokens moved, and never lowers the price of REX. */
  lemma RunRexKeeps(s: State, now: int, max: nat)
    requires MaintInv(s, now) && s.pool.Some?
    ensures RunRex(s, now, max).Success? && Maintained(s, RunRex(s, now, max).value, now)
  {
    hide MaintInv, Untouched, RexSurplus, Pools.PriceKept, SweepNamebids, ExpireLoans, FillOrders;
    SweepNamebidsKeeps(s, now);
    var swept := SweepNamebids(s).value;
    ExpireLoansKeeps(swept, now, Cpu, max);
    var cpu := ExpireLoans(swept, now, Cpu, max).value;
    ExpireLoansKeeps(cpu, now, Net, max);
    var net := ExpireLoans(cpu, now, Net, max).value;
    FillOrdersKeeps(net, now, 0, max);
    MaintainedTransitive(s, swept, cpu, now);
    MaintainedTransitive(s, cpu, net, now);
    MaintainedTransitive(s, net, FillOrders(net, 0, max).value, now);
  }
}
