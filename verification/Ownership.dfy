/** What a user owns is safe from everybody else's actions. */
module Ownership {
  import opened Outcomes
  import opened Arithmetic
  import opened Sums
  import opened Chain
  import opened Loans
  import opened Ledger
  import opened Rex
  import opened System
  import opened Exchange
  import opened Runs
  import Liveness
  import Maintenance
  import Maturity
  import Pools
  import RewardProofs
  import Rewards
  import Staking
  import Theorems
  import Token
  import Voting
  import opened VotingProofs

  // What is safe

  /** No fund shrank but, perhaps, one. */
  ghost predicate FundsSafe(before: map<Name, int>, after: map<Name, int>, but: Option<Name>) {
    forall n: Name :: but != Some(n) ==> At(before, n) <= At(after, n)
  }

  /** A holding and an order of its owner. */
  datatype Holding = Holding(balance: Balance, order: Option<Order>)

  function HoldingOf(balances: map<Name, Balance>, orders: map<Name, Order>, n: Name): Holding
    requires n in balances
  {
    Holding(balances[n], if n in orders then Some(orders[n]) else None)
  }

  /** Nothing changed but the recorded value of the holding. */
  predicate Untouched(h: Holding, k: Holding) {
    k.balance == h.balance.(voteStake := k.balance.voteStake) && k.order == h.order
  }

  /** The open order was filled, for at least its value in the given pool. */
  predicate FilledFor(h: Holding, k: Holding, base: Pool)
    requires base.rex != 0
  {
    h.order.Some? && k.order.Some? &&
    var o, p := h.order.value, k.order.value;
    && o.open && !p.open && p.requested == o.requested && Pools.ValueOf(base, o.requested) <= p.proceeds
    && k.balance == h.balance.(voteStake := k.balance.voteStake, rex := h.balance.rex - o.requested,
                               matured := h.balance.matured - o.requested)
  }

  /** The owner's holding is untouched, or an open order of it was filled for at least its value. */
  ghost predicate Held(b: map<Name, Balance>, o: map<Name, Order>, c: map<Name, Balance>, p: map<Name, Order>, n: Name, base: Pool)
    requires base.rex != 0
  {
    n in b ==>
      n in c && (Untouched(HoldingOf(b, o, n), HoldingOf(c, p, n)) || FilledFor(HoldingOf(b, o, n), HoldingOf(c, p, n), base))
  }

  lemma HeldSame(b: map<Name, Balance>, o: map<Name, Order>, n: Name, base: Pool)
    requires base.rex != 0
    ensures Held(b, o, b, o, n, base)
  {
  }

  // Maintenance

  lemma CloseLoanFunds(s: State, kind: LoanKind, closed: Pool)
    requires LoansOf(s, kind) != [] && CloseLoan(s, kind, closed).Success?
    ensures FundsSafe(s.funds, CloseLoan(s, kind, closed).value.funds, None)
  {
    hide StakeTo;
  }

  lemma ExpireLoanFunds(s: State, kind: LoanKind)
    requires s.pool.Some? && LoansOf(s, kind) != [] && ExpireLoan(s, kind).Success?
    ensures FundsSafe(s.funds, ExpireLoan(s, kind).value.funds, None)
  {
    hide CloseLoan, RenewLoan, Pools.RemoveLoan, Pools.BancorOutput;
    var closed := Pools.RemoveLoan(s.pool.value, LoansOf(s, kind)[0].staked).value;
    if CloseLoan(s, kind, closed).Success? { CloseLoanFunds(s, kind, closed); }
  }

  lemma {:induction false} ExpireLoansFunds(s: State, now: int, kind: LoanKind, max: nat)
    requires s.pool.Some? && ExpireLoans(s, now, kind, max).Success?
    ensures FundsSafe(s.funds, ExpireLoans(s, now, kind, max).value.funds, None)
    decreases max
  {
    hide ExpireLoan;
    if max != 0 && LoansOf(s, kind) != [] && LoansOf(s, kind)[0].expiration <= now {
      ExpireLoanFunds(s, kind);
      ExpireLoansFunds(ExpireLoan(s, kind).value, now, kind, max - 1);
    }
  }

  /** A filled order brings at least what its REX was worth at any price from which the price was kept. */
  lemma FillOrderHolds(s: State, now: int, at: nat, n: Name, base: Pool)
    requires MaintInv(s, now) && s.pool.Some? && at < |s.queue|
    requires base.rex > 0 && Pools.PriceKept(base, s.pool.value)
    ensures FillOrder(s, at).Success?
    ensures var t := FillOrder(s, at).value;
      Held(s.balances, s.orders, t.balances, t.orders, n, base)
  {
    hide WeightsAgree, StakesOk, ResourcesOk, RefundsOk, Token.NoneOverdrawn, LoansOk, InTimeOrder, Total, Pools.Sell,
         Maturity.Shape, Shares, Proceeds, Pools.PriceKept, Pools.ValueOf;
    var owner := s.queue[at];
    Maintenance.FillOrderKeeps(s, now, at);
    var order := s.orders[owner];
    ShareAtMost(s.balances, now, owner);
    Pools.SellKeeps(s.pool.value, s.balances[owner], order.requested);
    Pools.ValueKept(base, s.pool.value, order.requested);
  }

  lemma HeldSteps(s: State, t: State, u: State, n: Name, base: Pool)
    requires base.rex != 0
    requires Held(s.balances, s.orders, t.balances, t.orders, n, base)
    requires Held(t.balances, t.orders, u.balances, u.orders, n, base)
    ensures Held(s.balances, s.orders, u.balances, u.orders, n, base)
  {
    hide Pools.ValueOf;
  }

  lemma {:induction false} FillOrdersHold(s: State, now: int, at: nat, max: nat, n: Name, base: Pool)
    requires MaintInv(s, now) && s.pool.Some? && at <= |s.queue|
    requires base.rex > 0 && Pools.Sound(base) && Pools.PriceKept(base, s.pool.value)
    ensures FillOrders(s, at, max).Success?
    ensures var t := FillOrders(s, at, max).value;
      Held(s.balances, s.orders, t.balances, t.orders, n, base)
    decreases max
  {
    hide MaintInv, FillOrder, Held, Maintenance.Untouched, RexSurplus, Pools.PriceKept, Pools.Sound;
    if max == 0 || at == |s.queue| {
      HeldSame(s.balances, s.orders, n, base);
    } else {
      Maintenance.FillOrderKeeps(s, now, at);
      FillOrderHolds(s, now, at, n, base);
      var next := FillOrder(s, at).value;
      var to := if |next.queue| < |s.queue| then at else at + 1;
      Maintenance.PoolIsSound(s, now);
      Maintenance.PoolIsSound(next, now);
      SoundPriceTransitive(base, s.pool.value, next.pool.value);
      FillOrdersHold(next, now, to, max - 1, n, base);
      HeldSteps(s, next, FillOrders(next, to, max - 1).value, n, base);
    }
  }

  lemma SoundPriceTransitive(p: Pool, q: Pool, r: Pool)
    requires Pools.PriceKept(p, q) && Pools.PriceKept(q, r) && Pools.Sound(p) && Pools.Sound(q) && Pools.Sound(r)
    ensures Pools.PriceKept(p, r)
  {
    Pools.PriceKeptTransitive(p, q, r);
  }

  /** In maintenance a holding changes only by a filled order. */
  lemma RunRexHolds(s: State, now: int, max: nat, n: Name, base: Pool)
    requires MaintInv(s, now) && s.pool.Some?
    requires base.rex > 0 && Pools.Sound(base) && Pools.PriceKept(base, s.pool.value)
    ensures RunRex(s, now, max).Success?
    ensures var t := RunRex(s, now, max).value;
      Held(s.balances, s.orders, t.balances, t.orders, n, base)
  {
    hide MaintInv, Held, SweepNamebids, ExpireLoans, FillOrders, Maintenance.Untouched, RexSurplus, Pools.PriceKept,
         Pools.Sound;
    Maintenance.SweepNamebidsKeeps(s, now);
    var swept := SweepNamebids(s).value;
    Maintenance.ExpireLoansKeeps(swept, now, Cpu, max);
    var cpu := ExpireLoans(swept, now, Cpu, max).value;
    Maintenance.ExpireLoansKeeps(cpu, now, Net, max);
    var net := ExpireLoans(cpu, now, Net, max).value;
    Maintenance.PoolIsSound(s, now);
    Maintenance.PoolIsSound(swept, now);
    Maintenance.PoolIsSound(cpu, now);
    Maintenance.PoolIsSound(net, now);
    SoundPriceTransitive(base, s.pool.value, swept.pool.value);
    SoundPriceTransitive(base, swept.pool.value, cpu.pool.value);
    SoundPriceTransitive(base, cpu.pool.value, net.pool.value);
    FillOrdersHold(net, now, 0, max, n, base);
  }

  lemma FundsSafeThrough(a: map<Name, int>, b: map<Name, int>, c: map<Name, int>)
    requires FundsSafe(a, b, None) && FundsSafe(b, c, None)
    ensures FundsSafe(a, c, None)
  {
  }

  // Single steps

  ghost predicate DelegationsSafe(before: map<(Name, Name), Stake>, after: map<(Name, Name), Stake>, n: Name) {
    forall to :: (n, to) in before ==>
      (n, to) in after && before[(n, to)].net <= after[(n, to)].net && before[(n, to)].cpu <= after[(n, to)].cpu
  }

  /** What `n` has outside its holding of REX: its fund, what it has staked, its refund, its tokens. */
  ghost predicate AssetsSafe(s: State, t: State, n: Name) {
    && At(s.funds, n) <= At(t.funds, n)
    && DelegationsSafe(s.delegations, t.delegations, n)
    && (n in s.refunds ==> n in t.refunds && t.refunds[n] == s.refunds[n])
    && (User(n) ==> At(s.tokens, n) <= At(t.tokens, n))
  }

  /** A step that takes nothing from `n` and leaves its holding alone. */
  ghost predicate Spared(s: State, t: State, n: Name) {
    && AssetsSafe(s, t, n)
    && (n in s.balances ==> n in t.balances && t.balances[n] == s.balances[n].(voteStake := t.balances[n].voteStake))
    && (n in s.orders <==> n in t.orders) && (n in s.orders ==> t.orders[n] == s.orders[n])
  }

  /** What an action by others leaves `n` with. */
  ghost predicate Unharmed(s: State, t: State, n: Name) {
    && AssetsSafe(s, t, n)
    && (Pools.Available(s.pool) ==> Held(s.balances, s.orders, t.balances, t.orders, n, s.pool.value))
  }

  lemma SparedUnharmed(s: State, t: State, n: Name)
    requires Spared(s, t, n)
    ensures Unharmed(s, t, n)
  {
  }

  /** Steps around the maintenance that spare `n` leave it unharmed. */
  lemma AroundMaintenance(s: State, entry: State, now: int, max: nat, t: State, n: Name)
    requires MaintInv(s, now) && MaintInv(entry, now) && Spared(s, entry, n)
    requires s.pool.Some? && Pools.Available(s.pool) ==> entry.pool.Some? && Pools.PriceKept(s.pool.value, entry.pool.value)
    requires RunRex(entry, now, max).Success? && Spared(RunRex(entry, now, max).value, t, n)
    ensures Unharmed(s, t, n)
  {
    hide MaintInv, RunRex, Pools.PriceKept, Held, Pools.Sound, RexSurplus;
    var m := RunRex(entry, now, max).value;
    Maintenance.RunRexKeeps(entry, now, max);
    RunRexFunds(entry, now, max);
    if Pools.Available(s.pool) {
      Maintenance.PoolIsSound(s, now);
      RunRexHolds(entry, now, max, n, s.pool.value);
      HoldsThrough(s, entry, m, t, n, s.pool.value);
    }
  }

  lemma HoldsThrough(s: State, entry: State, m: State, t: State, n: Name, base: Pool)
    requires base.rex != 0 && Spared(s, entry, n) && Spared(m, t, n)
    requires Held(entry.balances, entry.orders, m.balances, m.orders, n, base)
    ensures Held(s.balances, s.orders, t.balances, t.orders, n, base)
  {
    hide Pools.ValueOf, AssetsSafe;
  }

  /** Maintenance never takes from a fund, priced or not. */
  lemma RunRexFunds(s: State, now: int, max: nat)
    requires MaintInv(s, now) && s.pool.Some?
    ensures RunRex(s, now, max).Success? && FundsSafe(s.funds, RunRex(s, now, max).value.funds, None)
  {
    hide MaintInv, SweepNamebids, ExpireLoans, FillOrders, Maintenance.Untouched, RexSurplus, Pools.PriceKept, FundsSafe;
    Maintenance.SweepNamebidsKeeps(s, now);
    var swept := SweepNamebids(s).value;
    Maintenance.ExpireLoansKeeps(swept, now, Cpu, max);
    ExpireLoansFunds(swept, now, Cpu, max);
    var cpu := ExpireLoans(swept, now, Cpu, max).value;
    Maintenance.ExpireLoansKeeps(cpu, now, Net, max);
    ExpireLoansFunds(cpu, now, Net, max);
    var net := ExpireLoans(cpu, now, Net, max).value;
    Maintenance.FillOrdersKeeps(net, now, 0, max);
    FundsSafeThrough(swept.funds, cpu.funds, net.funds);
  }

  lemma AccountSpares(s: State, now: int, owner: Name, proceeds: int, stakeChange: int, force: bool, n: Name)
    requires UpdateRexAccount(s, now, owner, proceeds, stakeChange, force).Success? && n != owner
    ensures Spared(s, UpdateRexAccount(s, now, owner, proceeds, stakeChange, force).value.0, n)
  {
    hide Voting.UpdateVotingPower;
    UpdateRexAccountSteps(s, now, owner, proceeds, stakeChange, force);
  }

  lemma TransferSpares(tokens: Tokens, from: Name, to: Name, amount: int)
    requires Token.NoneOverdrawn(tokens) && Token.Transfer(tokens, from, to, amount).Success?
    ensures forall a :: a != from ==> At(tokens, a) <= At(Token.Transfer(tokens, from, to, amount).value, a)
  {
    hide Token.Transfer;
    Token.TransferMoves(tokens, from, to, amount);
  }

  lemma PurchaseSpares(s: State, now: int, owner: Name, payment: int, n: Name)
    requires Purchase(s, now, owner, payment).Success? && n != owner
    ensures var t := Purchase(s, now, owner, payment).value.0;
      Spared(s, t, n) && t.orders == s.orders
  {
    hide Pools.AddPurchase, Maturity.AddMaturing, Pools.ValueOf;
  }

  // Actions around the maintenance

  lemma BuyRexUnharms(s: State, now: int, owner: Name, amount: int, n: Name)
    requires Whole(s, now) && InEpoch(now) && Rex.BuyRex(s, now, owner, amount).Success? && n != owner
    ensures Unharmed(s, Rex.BuyRex(s, now, owner, amount).value, n)
  {
    hide MaintInv, UpdateRexAccount, RunRex, Purchase, Unharmed, Spared, RexSurplus, VoteInv;
    var paid := TransferFromFund(s, owner, amount).value;
    FromFundKeeps(s, now, owner, amount);
    PurchaseKeeps(paid, now, owner, amount);
    var (bought, stakeChange) := Purchase(paid, now, owner, amount).value;
    PurchaseSpares(paid, now, owner, amount, n);
    assert Spared(s, bought, n) by { FundSpares(s, owner, amount, n); SparedTransitive(s, paid, bought, n); }
    var m := RunRex(bought, now, MAINTENANCE).value;
    AccountSpares(m, now, owner, 0, stakeChange, false, n);
    AroundMaintenance(s, bought, now, MAINTENANCE, Rex.BuyRex(s, now, owner, amount).value, n);
  }

  lemma FundSpares(s: State, owner: Name, amount: int, n: Name)
    requires TransferFromFund(s, owner, amount).Success? && n != owner
    ensures Spared(s, TransferFromFund(s, owner, amount).value, n)
  {
  }

  lemma SparedTransitive(s: State, t: State, u: State, n: Name)
    requires Spared(s, t, n) && Spared(t, u, n)
    ensures Spared(s, u, n)
  {
  }

  lemma SparedSame(s: State, n: Name)
    ensures Spared(s, s, n)
  {
  }

  lemma UnstakeSpares(s: State, now: int, owner: Name, receiver: Name, net: int, cpu: int, n: Name)
    requires MaintInv(s, now) && Unstake(s, owner, receiver, net, cpu).Success? && n != owner
    ensures Spared(s, Unstake(s, owner, receiver, net, cpu).value, n)
  {
    hide MaintInv, Spared, Token.Transfer, Staking.ChangeDelegation, Staking.UpdateResources, Token.NoneOverdrawn;
    TokensNotOverdrawn(s, now);
    TransferSpares(s.tokens, STAKE, REX, net + cpu);
    DelegationSpares(s.delegations, owner, receiver, -net, -cpu, n);
    TablesSpare(s, Unstake(s, owner, receiver, net, cpu).value, n);
  }

  lemma UnstakeToRexUnharms(s: State, now: int, owner: Name, receiver: Name, net: int, cpu: int, n: Name)
    requires Whole(s, now) && InEpoch(now) && Rex.UnstakeToRex(s, now, owner, receiver, net, cpu).Success? && n != owner
    ensures Unharmed(s, Rex.UnstakeToRex(s, now, owner, receiver, net, cpu).value, n)
  {
    hide MaintInv, UpdateRexAccount, RunRex, Purchase, Unstake, Unharmed, Spared, RexSurplus, StakeSurplus, VoteInv;
    UnstakeKeeps(s, now, owner, receiver, net, cpu);
    UnstakeSpares(s, now, owner, receiver, net, cpu, n);
    var unstaked := Unstake(s, owner, receiver, net, cpu).value;
    PurchaseKeeps(unstaked, now, owner, net + cpu);
    var bought := Purchase(unstaked, now, owner, net + cpu).value.0;
    PurchaseSpares(unstaked, now, owner, net + cpu, n);
    SparedTransitive(s, unstaked, bought, n);
    var m := RunRex(bought, now, MAINTENANCE).value;
    AccountSpares(m, now, owner, 0, 0, true, n);
    AroundMaintenance(s, bought, now, MAINTENANCE, Rex.UnstakeToRex(s, now, owner, receiver, net, cpu).value, n);
  }

  /** Only the delegator's row changes, unless it grows. */
  lemma DelegationSpares(delegations: map<(Name, Name), Stake>, from: Name, to: Name, net: int, cpu: int, n: Name)
    requires Staking.ChangeDelegation(delegations, from, to, net, cpu).Success?
    requires n != from || (0 <= net && 0 <= cpu && StakesOk(delegations))
    ensures DelegationsSafe(delegations, Staking.ChangeDelegation(delegations, from, to, net, cpu).value, n)
  {
  }

  lemma TablesSpare(s: State, t: State, n: Name)
    requires t == s.(delegations := t.delegations, resources := t.resources, tokens := t.tokens, refunds := t.refunds)
    requires DelegationsSafe(s.delegations, t.delegations, n)
    requires User(n) ==> At(s.tokens, n) <= At(t.tokens, n)
    requires n in s.refunds ==> n in t.refunds && t.refunds[n] == s.refunds[n]
    ensures Spared(s, t, n)
  {
  }

  /** Actions that start with the maintenance. */
  predicate StartsWithMaintenance(a: Action) {
    a.SellRex? || a.UpdateRex? || a.RexExec? || a.Consolidate? || a.MoveToSavings? || a.MoveFromSavings? || a.Rent?
  }

  /** What such an action does after the maintenance spares everyone but its owner. */
  lemma TailSpares(s: State, now: int, a: Action, n: Name)
    requires StartsWithMaintenance(a) && ApplyToRex(s, now, a).Success? && !Liveness.By(a, n)
    ensures RunRex(s, now, if a.RexExec? then a.max else MAINTENANCE).Success?
    ensures Spared(RunRex(s, now, if a.RexExec? then a.max else MAINTENANCE).value, ApplyToRex(s, now, a).value, n)
  {
    hide UpdateRexAccount, RunRex, Spared, Maturity.Mature, Maturity.Consolidate, Maturity.MoveToSavings, Maturity.MoveFromSavings,
         Pools.ValueOf, Pools.Sell, QueueOrder, Rex.SellRex, Rex.Rent;
    if a.SellRex? {
      SellTailSpares(s, now, a.owner, a.rex, n);
    } else if a.Rent? {
      RentTailSpares(s, now, a.kind, a.owner, a.receiver, a.payment, a.fund, n);
    } else {
      var m := RunRex(s, now, if a.RexExec? then a.max else MAINTENANCE).value;
      if a.UpdateRex? {
        var b := m.balances[a.owner];
        var stake := if 0 < m.pool.value.rex then Pools.ValueOf(m.pool.value, b.rex) else 0;
        var revalued := m.(balances := m.balances[a.owner := b.(voteStake := stake)]);
        AccountSpares(revalued, now, a.owner, 0, stake - b.voteStake, true, n);
        BalanceSpares(m, revalued, UpdateRexAccount(revalued, now, a.owner, 0, stake - b.voteStake, true).value.0,
                      ApplyToRex(s, now, a).value, a.owner, n);
      } else if a.MoveFromSavings? {
        var b := Maturity.MoveFromSavings(m.balances[a.owner], now, a.rex).value;
        var moved := m.(balances := m.balances[a.owner := b]);
        AccountSpares(moved, now, a.owner, 0, 0, false, n);
        BalanceSpares(m, moved, ApplyToRex(s, now, a).value, ApplyToRex(s, now, a).value, a.owner, n);
      } else if a.Consolidate? || a.MoveToSavings? {
        AccountSpares(m, now, a.owner, 0, 0, false, n);
        assert m.balances == m.balances[a.owner := m.balances[a.owner]];
        BalanceSpares(m, m, UpdateRexAccount(m, now, a.owner, 0, 0, false).value.0, ApplyToRex(s, now, a).value, a.owner, n);
      } else {
        SparedSame(m, n);
      }
    }
  }

  /** Changes of the owner's balance before and after its account is settled. */
  lemma BalanceSpares(m: State, before: State, after: State, t: State, owner: Name, n: Name)
    requires n != owner && owner in m.balances && owner in after.balances && owner in before.balances
    requires before == m.(balances := m.balances[owner := before.balances[owner]])
    requires Spared(before, after, n)
    requires owner in t.balances && t == after.(balances := after.balances[owner := t.balances[owner]])
    ensures Spared(m, t, n)
  {
  }

  lemma SellTailSpares(s: State, now: int, seller: Name, rex: int, n: Name)
    requires Rex.SellRex(s, now, seller, rex).Success? && n != seller
    ensures RunRex(s, now, MAINTENANCE).Success?
    ensures Spared(RunRex(s, now, MAINTENANCE).value, Rex.SellRex(s, now, seller, rex).value, n)
  {
    hide UpdateRexAccount, RunRex, Spared, Maturity.Mature, Pools.Sell, QueueOrder, Rex.SellRex;
    Liveness.SaleBalances(s, now, seller, rex);
    var m := RunRex(s, now, MAINTENANCE).value;
    var b := Maturity.Mature(m.balances[seller], Seconds(now));
    match Pools.Sell(m.pool.value, b, rex).value
    case Filled(pool, left, proceeds, stakeChange) =>
      FilledTailSpares(s, m, now, seller, rex, b, n);
    case Unfilled =>
      Liveness.SaleQueued(s, m, now, seller, rex, b);
      var unsold := m.(balances := m.balances[seller := b]);
      AccountSpares(unsold, now, seller, 0, 0, false, n);
      var u := UpdateRexAccount(unsold, now, seller, 0, 0, false).value.0;
      QueueSpares(m, unsold, u, now, seller, rex, n);
  }

  lemma FilledTailSpares(s: State, m: State, now: int, seller: Name, rex: int, b: Balance, n: Name)
    requires RunRex(s, now, MAINTENANCE) == Success(m) && Rex.SellRex(s, now, seller, rex).Success? && n != seller
    requires seller in m.balances && b == Maturity.Mature(m.balances[seller], Seconds(now))
    requires m.pool.Some? && Pools.Sell(m.pool.value, b, rex).Success? && Pools.Sell(m.pool.value, b, rex).value.Filled?
    ensures Spared(m, Rex.SellRex(s, now, seller, rex).value, n)
  {
    hide UpdateRexAccount, RunRex, Pools.Sell, Maturity.Mature, QueueOrder, AssetsSafe;
    var sale := Pools.Sell(m.pool.value, b, rex).value;
    var sold := m.(pool := Some(sale.pool), balances := m.balances[seller := sale.balance]);
    AccountSpares(sold, now, seller, sale.proceeds, sale.stakeChange, false, n);
    assert AssetsSafe(m, Rex.SellRex(s, now, seller, rex).value, n) by {
      AssetsThrough(m, sold, Rex.SellRex(s, now, seller, rex).value, n);
    }
  }

  lemma AssetsThrough(m: State, sold: State, t: State, n: Name)
    requires sold == m.(pool := sold.pool, balances := sold.balances) && AssetsSafe(sold, t, n)
    ensures AssetsSafe(m, t, n)
  {
  }

  lemma QueueSpares(m: State, unsold: State, u: State, now: int, seller: Name, rex: int, n: Name)
    requires n != seller && seller in m.balances && seller in unsold.balances
    requires unsold == m.(balances := m.balances[seller := unsold.balances[seller]])
    requires Spared(unsold, u, n)
    ensures Spared(m, QueueOrder(u, now, seller, rex), n)
  {
    hide Enqueue, AssetsSafe;
    assert AssetsSafe(m, QueueOrder(u, now, seller, rex), n) by { QueueAssets(m, unsold, u, now, seller, rex, n); }
  }

  lemma QueueAssets(m: State, unsold: State, u: State, now: int, seller: Name, rex: int, n: Name)
    requires unsold == m.(balances := unsold.balances) && AssetsSafe(unsold, u, n)
    ensures AssetsSafe(m, QueueOrder(u, now, seller, rex), n)
  {
    hide Enqueue, DelegationsSafe;
  }

  lemma RentTailSpares(s: State, now: int, kind: LoanKind, from: Name, receiver: Name, payment: int, fund: int, n: Name)
    requires Rex.Rent(s, now, kind, from, receiver, payment, fund).Success? && n != from
    ensures RunRex(s, now, MAINTENANCE).Success?
    ensures Spared(RunRex(s, now, MAINTENANCE).value, Rex.Rent(s, now, kind, from, receiver, payment, fund).value, n)
  {
    hide RunRex, Staking.UpdateResources, Pools.BancorOutput, Pools.AddLoan, Insert, TransferFromFund;
    FundSpares(RunRex(s, now, MAINTENANCE).value, from, payment + fund, n);
  }

  lemma CloseUnharms(s: State, now: int, owner: Name, n: Name)
    requires Whole(s, now) && Rex.CloseRex(s, now, owner).Success? && n != owner
    ensures Unharmed(s, Rex.CloseRex(s, now, owner).value, n)
  {
    hide MaintInv, VoteInv, UpdateRexAccount, RunRex, HasOwner, Unharmed, Maintenance.Untouched, RexSurplus,
         Pools.PriceKept, AssetsSafe;
    var m := if s.pool.Some? then RunRex(s, now, MAINTENANCE).value else s;
    AccountSpares(m, now, owner, 0, 0, false, n);
    var u := UpdateRexAccount(m, now, owner, 0, 0, false).value.0;
    var t := Rex.CloseRex(s, now, owner).value;
    RowsDropped(u, t, owner, n);
    SparedTransitive(m, u, t, n);
    if s.pool.Some? {
      SparedSame(s, n);
      assert Pools.PriceKept(s.pool.value, s.pool.value) by { PriceKeptSame(s.pool.value); }
      AroundMaintenance(s, s, now, MAINTENANCE, t, n);
    } else {
      SparedUnharmed(s, t, n);
    }
  }

  lemma RowsDropped(u: State, t: State, owner: Name, n: Name)
    requires n != owner && t == u.(funds := t.funds, balances := t.balances)
    requires t.funds == u.funds || t.funds == u.funds - {owner}
    requires t.balances == u.balances || t.balances == u.balances - {owner}
    ensures Spared(u, t, n)
  {
  }

  /** The other actions of the exchange touch only rows of their owner. */
  lemma RexActionUnharms(s: State, now: int, a: Action, n: Name)
    requires Whole(s, now) && InEpoch(now) && OnRex(a) && ApplyToRex(s, now, a).Success? && !Liveness.By(a, n)
    ensures Unharmed(s, ApplyToRex(s, now, a).value, n)
  {
    hide MaintInv, VoteInv, Unharmed, Spared, RunRex, Rex.Deposit, Rex.Withdraw, Rex.BuyRex, Rex.UnstakeToRex, Rex.CancelOrder,
         Rex.FundLoan, Rex.DefundLoan, Rex.CloseRex;
    var t := ApplyToRex(s, now, a).value;
    if a.BuyRex? {
      BuyRexUnharms(s, now, a.owner, a.amount, n);
    } else if a.UnstakeToRex? {
      UnstakeToRexUnharms(s, now, a.owner, a.receiver, a.net, a.cpu, n);
    } else if a.CloseRex? {
      CloseUnharms(s, now, a.owner, n);
    } else if StartsWithMaintenance(a) {
      TailUnharms(s, now, a, n);
    } else {
      OwnRowsSpare(s, now, a, n);
      SparedUnharmed(s, t, n);
    }
  }

  lemma TailUnharms(s: State, now: int, a: Action, n: Name)
    requires Whole(s, now) && StartsWithMaintenance(a) && ApplyToRex(s, now, a).Success? && !Liveness.By(a, n)
    ensures Unharmed(s, ApplyToRex(s, now, a).value, n)
  {
    hide MaintInv, VoteInv, Unharmed, Spared, RunRex, ApplyToRex, Pools.PriceKept;
    TailSpares(s, now, a, n);
    SparedSame(s, n);
    assert Pools.PriceKept(s.pool.value, s.pool.value) by { PriceKeptSame(s.pool.value); }
    AroundMaintenance(s, s, now, if a.RexExec? then a.max else MAINTENANCE, ApplyToRex(s, now, a).value, n);
  }

  lemma OwnRowsSpare(s: State, now: int, a: Action, n: Name)
    requires MaintInv(s, now) && OnRex(a) && ApplyToRex(s, now, a).Success? && !Liveness.By(a, n)
    requires a.Deposit? || a.Withdraw? || a.CancelOrder? || a.SetRex? || a.FundLoan? || a.DefundLoan?
    ensures Spared(s, ApplyToRex(s, now, a).value, n)
  {
    hide MaintInv, Rex.Deposit, Rex.Withdraw, Rex.FundLoan, Rex.DefundLoan, Rex.CancelOrder, Spared;
    var t := ApplyToRex(s, now, a).value;
    if a.Deposit? {
      DepositSpares(s, now, a.owner, a.amount, n);
    } else if a.Withdraw? {
      WithdrawSpares(s, now, a.owner, a.amount, n);
    } else if a.CancelOrder? {
      OrderDropped(s, t, a.owner, n);
    } else if a.FundLoan? {
      FundLoanSpares(s, now, a.kind, a.owner, a.num, a.amount, n);
    } else if a.DefundLoan? {
      DefundLoanSpares(s, now, a.kind, a.owner, a.num, a.amount, n);
    } else {
      PoolSpares(s, t, n);
    }
  }

  lemma DepositSpares(s: State, now: int, owner: Name, amount: int, n: Name)
    requires MaintInv(s, now) && Rex.Deposit(s, owner, amount).Success? && n != owner
    ensures Spared(s, Rex.Deposit(s, owner, amount).value, n)
  {
    hide MaintInv, Token.Transfer, Token.NoneOverdrawn;
    TokensNotOverdrawn(s, now);
    TransferSpares(s.tokens, owner, REX, amount);
  }

  lemma WithdrawSpares(s: State, now: int, owner: Name, amount: int, n: Name)
    requires MaintInv(s, now) && Rex.Withdraw(s, now, owner, amount).Success? && n != owner
    ensures Spared(s, Rex.Withdraw(s, now, owner, amount).value, n)
  {
    hide MaintInv, UpdateRexAccount, Token.Transfer, Token.NoneOverdrawn;
    AccountSpares(s, now, owner, 0, 0, false, n);
    TokensNotOverdrawn(s, now);
    TransferSpares(s.tokens, REX, owner, amount);
  }

  lemma OrderDropped(s: State, t: State, owner: Name, n: Name)
    requires n != owner && t == s.(orders := s.orders - {owner}, queue := t.queue)
    ensures Spared(s, t, n)
  {
  }

  lemma PoolSpares(s: State, t: State, n: Name)
    requires t == s.(pool := t.pool, resources := t.resources, votes := t.votes)
    ensures Spared(s, t, n)
  {
  }

  lemma FundLoanSpares(s: State, now: int, kind: LoanKind, from: Name, num: nat, amount: int, n: Name)
    requires Rex.FundLoan(s, now, kind, from, num, amount).Success? && n != from
    ensures Spared(s, Rex.FundLoan(s, now, kind, from, num, amount).value, n)
  {
    hide FindLoan;
  }

  lemma DefundLoanSpares(s: State, now: int, kind: LoanKind, from: Name, num: nat, amount: int, n: Name)
    requires Rex.DefundLoan(s, now, kind, from, num, amount).Success? && n != from
    ensures Spared(s, Rex.DefundLoan(s, now, kind, from, num, amount).value, n)
  {
    hide FindLoan;
  }

  // Actions on stakes

  lemma RexStakeSpares(s: State, voter: Name, n: Name)
    ensures Spared(s, Staking.UpdateRexStake(s, voter), n)
  {
    hide Pools.ValueOf;
  }

  /** A stake change takes only from its source, and from the delegator if it is a withdrawal. */
  lemma ChangeBandwidthSpares(s: State, now: int, source: Name, receiver: Name, net: int, cpu: int, transfer: bool, n: Name)
    requires MaintInv(s, now) && Staking.ChangeBandwidth(s, now, source, receiver, net, cpu, transfer).Success?
    requires n != source && (transfer ==> 0 <= net && 0 <= cpu)
    ensures Spared(s, Staking.ChangeBandwidth(s, now, source, receiver, net, cpu, transfer).value, n)
  {
    hide MaintInv, Staking.ChangeDelegation, Staking.ChangeTotals, Staking.SettleStake, Staking.UpdateRexStake,
         Voting.UpdateVotingPower, Abs, Max, Spared, Token.NoneOverdrawn;
    var from := if transfer then receiver else source;
    var delegations := Staking.ChangeDelegation(s.delegations, from, receiver, net, cpu).value;
    var resources := Staking.ChangeTotals(s.resources, receiver, net, cpu).value;
    var booked := s.(delegations := delegations, resources := resources);
    assert StakesOk(s.delegations) by { StakeParts(s, now); }
    DelegationSpares(s.delegations, from, receiver, net, cpu, n);
    TablesSpare(s, booked, n);
    TokensNotOverdrawn(s, now);
    SettleSpares(booked, now, source, from, receiver, net, cpu, transfer, n);
    var settled := Staking.SettleStake(booked, now, source, from, receiver, net, cpu, transfer).value;
    SparedTransitive(s, booked, settled, n);
    RexStakeSpares(settled, from, n);
    var revalued := Staking.UpdateRexStake(settled, from);
    SparedTransitive(s, settled, revalued, n);
    var t := Staking.ChangeBandwidth(s, now, source, receiver, net, cpu, transfer).value;
    PoolSpares(revalued, t, n);
    SparedTransitive(s, revalued, t, n);
  }

  lemma StakeParts(s: State, now: int)
    requires MaintInv(s, now)
    ensures StakesOk(s.delegations)
  {
  }

  lemma SettleSpares(s: State, now: int, source: Name, from: Name, receiver: Name, net: int, cpu: int, transfer: bool, n: Name)
    requires Token.NoneOverdrawn(s.tokens)
    requires Staking.SettleStake(s, now, source, from, receiver, net, cpu, transfer).Success?
    requires n != source && (if transfer then 0 <= net && 0 <= cpu else from == source)
    ensures Spared(s, Staking.SettleStake(s, now, source, from, receiver, net, cpu, transfer).value, n)
  {
    hide Token.Transfer, Token.NoneOverdrawn;
    if source != STAKE {
      var due := Staking.Settle(s.refunds, now, from, net, cpu, !transfer && from == receiver).value.due;
      if 0 < due { TransferSpares(s.tokens, source, STAKE, due); }
    }
  }

  lemma RefundSpares(s: State, now: int, owner: Name, n: Name)
    requires MaintInv(s, now) && Staking.ClaimRefund(s, now, owner).Success? && n != owner
    ensures Spared(s, Staking.ClaimRefund(s, now, owner).value, n)
  {
    hide MaintInv, Token.Transfer, Token.NoneOverdrawn;
    TokensNotOverdrawn(s, now);
    TransferSpares(s.tokens, STAKE, owner, s.refunds[owner].net + s.refunds[owner].cpu);
  }

  lemma VoteSpares(s: State, now: int, owner: Name, producers: seq<Name>, n: Name)
    requires CastVote(s, now, owner, producers).Success?
    ensures Spared(s, CastVote(s, now, owner, producers).value, n)
  {
    hide Staking.UpdateRexStake, Voting.UpdateVotes;
    RexStakeSpares(s, owner, n);
  }

  lemma DelegateSpares(s: State, now: int, from: Name, receiver: Name, net: int, cpu: int, transfer: bool, n: Name)
    requires MaintInv(s, now) && n != from && Staking.Delegate(s, now, from, receiver, net, cpu, transfer).Success?
    ensures Spared(s, Staking.Delegate(s, now, from, receiver, net, cpu, transfer).value, n)
  {
    hide MaintInv, Staking.ChangeBandwidth, Spared;
    ChangeBandwidthSpares(s, now, from, receiver, net, cpu, transfer, n);
  }

  lemma UndelegateSpares(s: State, now: int, from: Name, receiver: Name, net: int, cpu: int, n: Name)
    requires MaintInv(s, now) && n != from && Staking.Undelegate(s, now, from, receiver, net, cpu).Success?
    ensures Spared(s, Staking.Undelegate(s, now, from, receiver, net, cpu).value, n)
  {
    hide MaintInv, Staking.ChangeBandwidth, Spared, Voting.Deactivate;
    var votes := if 1000000 < s.votes.voters[from].staked then Voting.Deactivate(s.votes, from).value else s.votes;
    var deactivated := s.(votes := votes);
    VotesKeep(s, now, votes);
    PoolSpares(s, deactivated, n);
    ChangeBandwidthSpares(deactivated, now, from, receiver, -net, -cpu, false, n);
    SparedTransitive(s, deactivated, Staking.Undelegate(s, now, from, receiver, net, cpu).value, n);
  }

  lemma StakeActionSpares(s: State, now: int, a: Action, n: Name)
    requires MaintInv(s, now) && OnStakes(a) && ApplyToStakes(s, now, a).Success? && !Liveness.By(a, n)
    ensures Spared(s, ApplyToStakes(s, now, a).value, n)
  {
    hide MaintInv, Spared, Staking.Delegate, Staking.Undelegate, Staking.ClaimRefund, Staking.ChangeRam, CastVote, Voting.Register,
         Voting.Deactivate;
    match a
    case Delegate(owner, receiver, net, cpu, transfer) => DelegateSpares(s, now, owner, receiver, net, cpu, transfer, n);
    case Undelegate(owner, receiver, net, cpu) => UndelegateSpares(s, now, owner, receiver, net, cpu, n);
    case ClaimRefund(owner) => RefundSpares(s, now, owner, n);
    case VoteProducers(owner, producers) => VoteSpares(s, now, owner, producers, n);
    case ChangeRam(receiver, bytes) => PoolSpares(s, ApplyToStakes(s, now, a).value, n);
    case Register(owner) => PoolSpares(s, ApplyToStakes(s, now, a).value, n);
    case Unregister(owner) => PoolSpares(s, ApplyToStakes(s, now, a).value, n);
  }

  // Actions on rewards

  /** Tokens issued to others, and paid out of the reward accounts, come out of nobody's pocket. */
  ghost predicate TokensGrow(before: Tokens, after: Tokens, n: Name) {
    Token.NoneOverdrawn(after) && (User(n) ==> At(before, n) <= At(after, n))
  }

  lemma InflateGrows(s: State, amount: int, n: Name)
    requires Token.NoneOverdrawn(s.tokens) && Rewards.Inflate(s, amount).Success?
    ensures TokensGrow(s.tokens, Rewards.Inflate(s, amount).value.tokens, n)
  {
    hide Rewards.Inflate, Token.NoneOverdrawn, At;
    RewardProofs.InflateMoves(s, amount);
  }

  lemma InflationGrows(s: State, now: int, n: Name)
    requires Token.NoneOverdrawn(s.tokens) && Rewards.ShareInflation(s, now).Success?
    ensures TokensGrow(s.tokens, Rewards.ShareInflation(s, now).value.tokens, n)
  {
    hide Rewards.Inflate, Rewards.NewTokens, Token.NoneOverdrawn;
    if Rewards.Due(s.pay.lastFill, now) { InflateGrows(s, Rewards.NewTokens(s.supply, now - s.pay.lastFill), n); }
  }

  lemma PayOutGrows(s: State, from: Name, owner: Name, amount: int, n: Name)
    requires Token.NoneOverdrawn(s.tokens) && PayAccount(from) && Rewards.PayOut(s, from, owner, amount).Success?
    ensures TokensGrow(s.tokens, Rewards.PayOut(s, from, owner, amount).value.tokens, n)
  {
    hide Token.Transfer, Total;
    if 0 < amount {
      TransferSpares(s.tokens, from, owner, amount);
      Token.TransferMoves(s.tokens, from, owner, amount);
    }
  }

  lemma PayProducerGrows(s: State, owner: Name, blockPay: int, witnessPay: int, oraclePay: int, n: Name)
    requires Token.NoneOverdrawn(s.tokens) && Rewards.PayProducer(s, owner, blockPay, witnessPay, oraclePay).Success?
    ensures TokensGrow(s.tokens, Rewards.PayProducer(s, owner, blockPay, witnessPay, oraclePay).value.tokens, n)
  {
    hide Rewards.PayOut, Token.NoneOverdrawn;
    var booked := s.(pay := s.pay.(witnessBucket := s.pay.witnessBucket - witnessPay,
                                   blockBucket := s.pay.blockBucket - blockPay,
                                   oracleBucket := s.pay.oracleBucket - oraclePay));
    PayOutGrows(booked, BPAY, owner, blockPay, n);
    var s1 := Rewards.PayOut(booked, BPAY, owner, blockPay).value;
    PayOutGrows(s1, WPAY, owner, witnessPay, n);
    PayOutGrows(Rewards.PayOut(s1, WPAY, owner, witnessPay).value, ORACLE, owner, oraclePay, n);
  }

  lemma ClaimRewardsGrows(s: State, now: int, owner: Name, share: int, total: int, n: Name)
    requires Token.NoneOverdrawn(s.tokens) && Rewards.ClaimRewards(s, now, owner, share, total).Success?
    ensures TokensGrow(s.tokens, Rewards.ClaimRewards(s, now, owner, share, total).value.tokens, n)
  {
    hide Rewards.ShareInflation, Rewards.PayProducer, Rewards.SettleOracle, Rewards.ClaimedVotes, Token.NoneOverdrawn,
         Rewards.WitnessPart, Rewards.PartOf;
    InflationGrows(s, now, n);
    var filled := Rewards.ShareInflation(s, now).value;
    var p := filled.votes.producers[owner];
    var (pay, due) := Rewards.SettleOracle(filled.pay, owner,
                                           Rewards.PartOf(filled.pay.blockBucket, p.unpaidBlocks, filled.votes.unpaidBlocks));
    PayProducerGrows(filled.(votes := Rewards.ClaimedVotes(filled.votes, now, owner), pay := pay), owner, due.blockPay,
                     Rewards.WitnessPart(filled.pay.witnessBucket, share, total), due.oraclePay, n);
  }

  lemma ClaimVoterGrows(s: State, now: int, owner: Name, n: Name)
    requires Token.NoneOverdrawn(s.tokens) && Rewards.ClaimVoterReward(s, now, owner).Success?
    ensures TokensGrow(s.tokens, Rewards.ClaimVoterReward(s, now, owner).value.tokens, n)
  {
    hide Rewards.ShareInflation, Rewards.Divide, Token.Transfer, Token.NoneOverdrawn, Total;
    InflationGrows(s, now, n);
    var filled := Rewards.ShareInflation(s, now).value;
    var reward := Rewards.Divide(filled.votes.voters[owner].unpaidVotes * filled.pay.voteBucket, filled.votes.unpaidVotes).value;
    TransferSpares(filled.tokens, VPAY, owner, reward);
    Token.TransferMoves(filled.tokens, VPAY, owner, reward);
  }

  lemma ClaimDappGrows(s: State, now: int, owner: Name, byUsers: bool, share: int, total: int, n: Name)
    requires Token.NoneOverdrawn(s.tokens) && Rewards.ClaimDappReward(s, now, owner, byUsers, share, total).Success?
    ensures TokensGrow(s.tokens, Rewards.ClaimDappReward(s, now, owner, byUsers, share, total).value.tokens, n)
  {
    hide Rewards.Inflate, Rewards.Divide, Rewards.NewTokens, Token.Transfer, Token.NoneOverdrawn, Total;
    if Rewards.Due(s.pay.lastDappFill, now) {
      var amount := Rewards.NewTokens(s.supply, now - s.pay.lastDappFill);
      InflateGrows(s, amount, n);
      var inflated := Rewards.Inflate(s, amount).value;
      var bucket := if byUsers then inflated.pay.dappUserBucket else inflated.pay.dappTransferBucket;
      var reward := Rewards.Divide(bucket * share, total).value;
      TransferSpares(inflated.tokens, DPAY, owner, reward);
      Token.TransferMoves(inflated.tokens, DPAY, owner, reward);
    }
  }

  /** A fee leaves the payer alone poorer: the fee account passes on what it got. */
  lemma RamFeeGrows(s: State, now: int, payer: Name, fee: int, n: Name)
    requires MaintInv(s, now) && PayRamFee(s, payer, fee).Success? && User(n) && n != payer
    ensures At(s.tokens, n) <= At(PayRamFee(s, payer, fee).value.tokens, n)
  {
    hide MaintInv, ChannelToRex, Token.Transfer, Token.NoneOverdrawn, Total, RexSurplus, Pools.PriceKept;
    if 0 < fee {
      TokensNotOverdrawn(s, now);
      Token.TransferMoves(s.tokens, payer, RAMFEE, fee);
      var paid := s.(tokens := Token.Transfer(s.tokens, payer, RAMFEE, fee).value);
      ChannelGrows(paid, fee, n);
    }
  }

  lemma ChannelGrows(s: State, fee: int, n: Name)
    requires Token.NoneOverdrawn(s.tokens) && 0 < fee && ChannelToRex(s, RAMFEE, fee).Success? && User(n)
    ensures var t := ChannelToRex(s, RAMFEE, fee).value;
      At(s.tokens, n) - (if n == RAMFEE then fee else 0) <= At(t.tokens, n)
  {
    hide Token.Transfer, Total;
    Token.TransferMoves(s.tokens, RAMFEE, REX, fee);
  }

  lemma RewardActionSpares(s: State, now: int, a: Action, n: Name)
    requires MaintInv(s, now) && !OnRex(a) && !OnStakes(a) && ApplyToRewards(s, now, a).Success? && !Liveness.By(a, n)
    ensures Spared(s, ApplyToRewards(s, now, a).value, n)
  {
    hide MaintInv, Rewards.ClaimRewards, Rewards.ClaimVoterReward, Rewards.ClaimDappReward, Rewards.OnBlock, Rewards.SetOracle,
         Rewards.AddRequest, Rewards.Reply, PayRamFee, PromiseProceeds, Token.Transfer, Token.NoneOverdrawn, Spared;
    TokensNotOverdrawn(s, now);
    var t := ApplyToRewards(s, now, a).value;
    if a.ClaimRewards? {
      ClaimRewardsGrows(s, now, a.owner, a.share, a.total, n);
    } else if a.ClaimVoterReward? {
      ClaimVoterGrows(s, now, a.owner, n);
    } else if a.ClaimDappReward? {
      ClaimDappGrows(s, now, a.owner, a.byUsers, a.share, a.total, n);
    } else if a.Send? {
      TransferSpares(s.tokens, a.owner, a.to, a.amount);
    } else if a.RamFee? {
      if User(n) { RamFeeGrows(s, now, a.owner, a.fee, n); }
    }
    LedgerSpares(s, t, n);
  }

  ghost predicate LedgerOnly(s: State, t: State) {
    t == s.(tokens := t.tokens, supply := t.supply, pool := t.pool, pay := t.pay, votes := t.votes)
  }

  lemma LedgerSpares(s: State, t: State, n: Name)
    requires LedgerOnly(s, t) && (User(n) ==> At(s.tokens, n) <= At(t.tokens, n))
    ensures Spared(s, t, n)
  {
  }

  // The theorem

  /** No action of anybody else takes from what a user owns: its fund, its tokens, what it has staked
      and its refund do not shrink, and its holding of REX stays as it is, unless an order of its own is
      filled, for no less than the REX was worth before the action. */
  lemma OthersTakeNothing(s: State, now: int, a: Action, n: Name)
    requires Inv(s, now) && InEpoch(now) && Apply(s, now, a).Success? && !Liveness.By(a, n)
    ensures Unharmed(s, Apply(s, now, a).value, n)
  {
    hide MaintInv, VoteInv, RewardProofs.PayInv, RewardProofs.Backed, RexSurplus, StakeSurplus, Total, Unharmed, Spared, ApplyToRex,
         ApplyToStakes, ApplyToRewards;
    if OnRex(a) {
      RexActionUnharms(s, now, a, n);
    } else {
      if OnStakes(a) { StakeActionSpares(s, now, a, n); } else { RewardActionSpares(s, now, a, n); }
      SparedUnharmed(s, Apply(s, now, a).value, n);
    }
  }

  // Over runs

  lemma AssetsTransitive(s: State, t: State, u: State, n: Name)
    requires AssetsSafe(s, t, n) && AssetsSafe(t, u, n)
    ensures AssetsSafe(s, u, n)
  {
  }

  lemma StepUnharms(s: State, start: int, at: int, a: Action, n: Name)
    requires Inv(s, start) && 0 <= start <= at && InEpoch(at) && !Liveness.By(a, n)
    ensures Unharmed(s, Step(s, at, a), n)
  {
    hide Inv, Apply, Unharmed;
    InvLater(s, start, at);
    if Apply(s, at, a).Success? {
      OthersTakeNothing(s, at, a, n);
    } else {
      SparedSame(s, n);
      SparedUnharmed(s, s, n);
    }
  }

  /** In no run of others' actions do a user's fund, tokens, stakes or refund shrink. */
  lemma {:induction false} RunTakesNothing(s: State, start: int, events: seq<Event>, n: Name)
    requires Inv(s, start) && Chronological(start, events) && AllPermitted(s, events) && Liveness.LeavesAlone(events, n)
    ensures AssetsSafe(s, Run(s, events), n)
    decreases |events|
  {
    hide Inv, Step, Permitted, AssetsSafe, Held, Chronological;
    if events == [] {
      assert AssetsSafe(s, s, n) by { SparedSame(s, n); }
    } else {
      var e := events[0];
      var next := Step(s, e.now, e.action);
      Liveness.ChronologicalHead(start, events);
      ChronologicalTail(start, events);
      StepKeepsInv(s, start, e.now, e.action);
      StepUnharms(s, start, e.now, e.action, n);
      RunTakesNothing(next, e.now, events[1..], n);
      AssetsTransitive(s, next, Run(next, events[1..]), n);
    }
  }

  /** What was safe at a later price was safe at an earlier one. */
  lemma HeldAtEarlierPrice(s: State, t: State, n: Name, base: Pool, later: Pool)
    requires base.rex > 0 && later.rex > 0 && Pools.PriceKept(base, later)
    requires n in s.orders && s.orders[n].open ==> 0 < s.orders[n].requested
    requires Held(s.balances, s.orders, t.balances, t.orders, n, later)
    ensures Held(s.balances, s.orders, t.balances, t.orders, n, base)
  {
    hide Pools.ValueOf, Pools.PriceKept;
    if n in s.orders && s.orders[n].open { Pools.ValueKept(base, later, s.orders[n].requested); }
  }

  lemma OpenPositive(s: State, now: int, n: Name)
    requires Inv(s, now)
    ensures n in s.orders && s.orders[n].open ==> 0 < s.orders[n].requested
    ensures s.pool.Some? ==> Pools.Sound(s.pool.value)
    ensures n in s.balances ==> 0 <= s.balances[n].rex && s.balances[n].matured <= s.balances[n].rex
    ensures n in s.orders && s.orders[n].open ==> n in s.balances && s.orders[n].requested <= s.balances[n].matured
  {
    if n in s.balances { ShareAtMost(s.balances, now, n); }
  }

  /** In a run of others' actions that never empties the pool, a user's holding of REX stays as it is,
      unless its order is filled, for no less than the REX was worth when the run began. */
  lemma {:induction false} RunHolds(s: State, start: int, events: seq<Event>, n: Name, base: Pool)
    requires Inv(s, start) && Chronological(start, events) && AllPermitted(s, events) && Liveness.LeavesAlone(events, n)
    requires Theorems.AlwaysAvailable(s, events)
    requires base.rex > 0 && Pools.Sound(base) && Pools.PriceKept(base, s.pool.value)
    ensures var t := Run(s, events);
      && Held(s.balances, s.orders, t.balances, t.orders, n, base)
      && Pools.Available(t.pool) && Pools.PriceKept(base, t.pool.value)
    decreases |events|
  {
    hide Inv, Step, Permitted, AssetsSafe, Held, Chronological, Pools.PriceKept, Pools.Sound;
    if events == [] {
      HeldSame(s.balances, s.orders, n, base);
    } else {
      var e := events[0];
      var next := Step(s, e.now, e.action);
      Liveness.ChronologicalHead(start, events);
      ChronologicalTail(start, events);
      StepKeepsInv(s, start, e.now, e.action);
      StepUnharms(s, start, e.now, e.action, n);
      OpenPositive(s, start, n);
      HeldAtEarlierPrice(s, next, n, base, s.pool.value);
      Theorems.StepSurplus(s, start, e.now, e.action);
      OpenPositive(next, e.now, n);
      SoundPriceTransitive(base, s.pool.value, next.pool.value);
      RunHolds(next, e.now, events[1..], n, base);
      HeldSteps(s, next, Run(next, events[1..]), n, base);
    }
  }

  /** What a user's REX is worth, with the proceeds of a filled order that wait to be collected. */
  function Worth(s: State, n: Name): int
    requires s.pool.Some? && s.pool.value.rex != 0 && n in s.balances
  {
    Pools.ValueOf(s.pool.value, s.balances[n].rex) + if n in s.orders then Uncollected(s.orders[n]) else 0
  }

  lemma SplitValue(p: Pool, whole: int, part: int)
    requires 0 < p.rex && 0 <= part <= whole && 0 <= p.lendable
    ensures Pools.ValueOf(p, whole) - 1 <= Pools.ValueOf(p, part) + Pools.ValueOf(p, whole - part)
  {
    FloorBounds(whole * p.lendable, p.rex);
    FloorBounds(part * p.lendable, p.rex);
    FloorBounds((whole - part) * p.lendable, p.rex);
    var v, w, u := Pools.ValueOf(p, whole), Pools.ValueOf(p, part), Pools.ValueOf(p, whole - part);
    assert whole * p.lendable == part * p.lendable + (whole - part) * p.lendable;
    assert (w + u + 2) * p.rex == (w * p.rex + p.rex) + (u * p.rex + p.rex);
    CancelLt(v, w + u + 2, p.rex);
  }

  /** However long others act, a user's REX never comes to be worth less, but for at most one unit lost
      to rounding when an order of it is filled. */
  lemma RunKeepsWorth(s: State, start: int, events: seq<Event>, n: Name)
    requires Inv(s, start) && Chronological(start, events) && AllPermitted(s, events) && Liveness.LeavesAlone(events, n)
    requires Theorems.AlwaysAvailable(s, events) && n in s.balances
    ensures var t := Run(s, events);
      && n in t.balances && Pools.Available(t.pool)
      && Worth(s, n) - 1 <= Worth(t, n)
      && (t.balances[n].rex == s.balances[n].rex ==> Worth(s, n) <= Worth(t, n))
  {
    hide Inv, Run, Permitted, Chronological, Pools.PriceKept, Pools.ValueOf, AllPermitted, Liveness.LeavesAlone;
    assert Pools.Available(s.pool);
    var p := s.pool.value;
    OpenPositive(s, start, n);
    PriceKeptSame(p);
    RunHolds(s, start, events, n, p);
    var t := Run(s, events);
    var q := t.pool.value;
    if Untouched(HoldingOf(s.balances, s.orders, n), HoldingOf(t.balances, t.orders, n)) {
      Pools.ValueKept(p, q, s.balances[n].rex);
    } else {
      var requested := s.orders[n].requested;
      Pools.ValueKept(p, q, s.balances[n].rex - requested);
      SplitValue(p, s.balances[n].rex, requested);
    }
  }
}
