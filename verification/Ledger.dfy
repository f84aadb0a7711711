/** What the tables of the system contract add up to, and the invariant that ties them together. */
module Ledger {
  import opened Outcomes
  import opened Arithmetic
  import opened Sums
  import opened Chain
  import opened Loans
  import Token
  import Maturity
  import Pools
  import Rex
  import Staking

  // Sums over the exchange

  ghost function SharesOf(balances: map<Name, Balance>): map<Name, int> {
    map n | n in balances :: balances[n].rex
  }

  /** REX held by all owners. */
  ghost function Shares(balances: map<Name, Balance>): int {
    Total(SharesOf(balances))
  }

  function Uncollected(order: Order): int {
    if order.open then 0 else order.proceeds
  }

  ghost function ProceedsOf(orders: map<Name, Order>): map<Name, int> {
    map n | n in orders :: Uncollected(orders[n])
  }

  /** Proceeds of filled orders that their owners have not collected. */
  ghost function Proceeds(orders: map<Name, Order>): int {
    Total(ProceedsOf(orders))
  }

  function Lendable(pool: Option<Pool>): int {
    if pool.Some? then pool.value.lendable else 0
  }

  /** Everything the exchange owes to someone. */
  ghost function RexOwed(s: State): int {
    Total(s.funds) + Lendable(s.pool) + Escrow(s.cpuLoans) + Escrow(s.netLoans) + Proceeds(s.orders)
  }

  /** Tokens of the exchange account beyond what it owes. */
  ghost function RexSurplus(s: State): int {
    At(s.tokens, REX) - RexOwed(s)
  }

  // Sums over stakes

  ghost function StakesOf(delegations: map<(Name, Name), Stake>): map<(Name, Name), int> {
    map k | k in delegations :: delegations[k].net + delegations[k].cpu
  }

  ghost function RefundsOf(refunds: map<Name, Refund>): map<Name, int> {
    map n | n in refunds :: refunds[n].net + refunds[n].cpu
  }

  /** Everything staked or waiting to be refunded. */
  ghost function StakeOwed(s: State): int {
    Total(StakesOf(s.delegations)) + Total(RefundsOf(s.refunds))
  }

  ghost function StakeSurplus(s: State): int {
    At(s.tokens, STAKE) - StakeOwed(s)
  }

  function Part(stake: Stake, kind: LoanKind): int {
    if kind == Net then stake.net else stake.cpu
  }

  ghost function InboundOf(delegations: map<(Name, Name), Stake>, kind: LoanKind, receiver: Name): map<(Name, Name), int> {
    map k | k in delegations && k.1 == receiver :: Part(delegations[k], kind)
  }

  /** Stake of one resource delegated to a receiver. */
  ghost function Inbound(delegations: map<(Name, Name), Stake>, kind: LoanKind, receiver: Name): int {
    Total(InboundOf(delegations, kind, receiver))
  }

  /** A receiver's total of one resource. */
  function Weight(resources: map<Name, Resources>, kind: LoanKind, receiver: Name): int {
    if receiver in resources then (if kind == Net then resources[receiver].net else resources[receiver].cpu) else 0
  }

  // The invariant

  ghost predicate BalancesOk(balances: map<Name, Balance>, now: int) {
    forall n :: n in balances ==> Maturity.Healthy(balances[n], now)
  }

  ghost predicate FundsOk(funds: map<Name, int>) {
    forall n :: n in funds ==> 0 <= funds[n]
  }

  /** Open orders are backed by matured REX of an existing balance, and only they are queued. */
  ghost predicate OrdersOk(orders: map<Name, Order>, queue: seq<Name>, balances: map<Name, Balance>, now: int) {
    && (forall n :: n in orders && orders[n].open ==>
          n in queue && n in balances && 0 < orders[n].requested <= balances[n].matured && orders[n].time <= now)
    && (forall n :: n in orders && !orders[n].open ==> n !in queue && 0 <= orders[n].proceeds)
    && (forall n :: n in queue ==> n in orders)
  }

  /** The queue is in the order of the time index. */
  ghost predicate InTimeOrder(orders: map<Name, Order>, queue: seq<Name>) {
    forall i, j :: 0 <= i < j < |queue| ==>
      Rex.Earlier(Rex.TimeOf(orders, queue[i]), queue[i], Rex.TimeOf(orders, queue[j]), queue[j])
  }

  /** The pool totals agree with the loan tables and with what owners hold. */
  ghost predicate PoolOk(pool: Option<Pool>, balances: map<Name, Balance>, cpu: seq<Loan>, net: seq<Loan>, now: int) {
    match pool
    case None => balances == map[] && cpu == [] && net == []
    case Some(p) =>
      && Pools.Sound(p)
      && p.lent == Staked(cpu) + Staked(net)
      && p.rex == Shares(balances)
      && LoansOk(cpu, now, p.loanNum) && LoansOk(net, now, p.loanNum)
  }

  ghost predicate RexInv(s: State, now: int) {
    && PoolOk(s.pool, s.balances, s.cpuLoans, s.netLoans, now)
    && BalancesOk(s.balances, now)
    && FundsOk(s.funds)
    && OrdersOk(s.orders, s.queue, s.balances, now)
    && InTimeOrder(s.orders, s.queue)
  }

  ghost predicate StakesOk(delegations: map<(Name, Name), Stake>) {
    forall k :: k in delegations ==> 0 <= delegations[k].net && 0 <= delegations[k].cpu && delegations[k] != Stake(0, 0)
  }

  ghost predicate ResourcesOk(resources: map<Name, Resources>) {
    forall r :: r in resources ==> 0 <= resources[r].net && 0 <= resources[r].cpu && 0 <= resources[r].ram
  }

  ghost predicate RefundsOk(refunds: map<Name, Refund>) {
    forall n :: n in refunds ==> 0 <= refunds[n].net && 0 <= refunds[n].cpu && 0 < refunds[n].net + refunds[n].cpu
  }

  /** Each receiver's total of a resource is what is delegated to it plus what is lent to it. */
  ghost predicate WeightsAgree(resources: map<Name, Resources>, delegations: map<(Name, Name), Stake>,
                               cpu: seq<Loan>, net: seq<Loan>)
  {
    forall r: Name ::
      && Weight(resources, Cpu, r) == Inbound(delegations, Cpu, r) + StakedTo(cpu, r)
      && Weight(resources, Net, r) == Inbound(delegations, Net, r) + StakedTo(net, r)
  }

  ghost predicate StakeInv(s: State) {
    && StakesOk(s.delegations) && ResourcesOk(s.resources) && RefundsOk(s.refunds)
    && WeightsAgree(s.resources, s.delegations, s.cpuLoans, s.netLoans)
  }

  /** The name auctions' proceeds promised to the pool are in the auction account. */
  ghost predicate NamesFunded(s: State) {
    s.pool.Some? ==> s.pool.value.namebid <= At(s.tokens, NAMES)
  }

  /** What maintenance relies on and keeps. */
  ghost predicate MaintInv(s: State, now: int) {
    RexInv(s, now) && StakeInv(s) && Token.NoneOverdrawn(s.tokens) && NamesFunded(s)
  }

  // Updates of the sums

  lemma SharesUpdate(balances: map<Name, Balance>, n: Name, b: Balance)
    ensures Shares(balances[n := b]) == Shares(balances) - At(SharesOf(balances), n) + b.rex
  {
    assert SharesOf(balances[n := b]) == SharesOf(balances)[n := b.rex];
    TotalUpdate(SharesOf(balances), n, b.rex);
  }

  lemma SharesDrop(balances: map<Name, Balance>, n: Name)
    ensures Shares(balances - {n}) == Shares(balances) - At(SharesOf(balances), n)
  {
    assert SharesOf(balances - {n}) == SharesOf(balances) - {n};
    TotalDrop(SharesOf(balances), n);
  }

  lemma ProceedsUpdate(orders: map<Name, Order>, n: Name, order: Order)
    ensures Proceeds(orders[n := order]) == Proceeds(orders) - At(ProceedsOf(orders), n) + Uncollected(order)
  {
    assert ProceedsOf(orders[n := order]) == ProceedsOf(orders)[n := Uncollected(order)];
    TotalUpdate(ProceedsOf(orders), n, Uncollected(order));
  }

  lemma ProceedsDrop(orders: map<Name, Order>, n: Name)
    ensures Proceeds(orders - {n}) == Proceeds(orders) - At(ProceedsOf(orders), n)
  {
    assert ProceedsOf(orders - {n}) == ProceedsOf(orders) - {n};
    TotalDrop(ProceedsOf(orders), n);
  }

  /** No owner holds more than there is. */
  lemma ShareAtMost(balances: map<Name, Balance>, now: int, n: Name)
    requires BalancesOk(balances, now) && n in balances
    ensures 0 <= balances[n].rex <= Shares(balances)
    ensures balances[n].matured <= balances[n].rex
  {
    forall m | m in balances ensures 0 <= balances[m].rex {
      Maturity.SumsNonneg(balances[m].buckets, 0);
    }
    Maturity.SumsNonneg(balances[n].buckets, 0);
    TotalAtLeast(SharesOf(balances), n);
  }

  lemma InboundNonneg(delegations: map<(Name, Name), Stake>, kind: LoanKind, receiver: Name)
    requires StakesOk(delegations)
    ensures 0 <= Inbound(delegations, kind, receiver)
  {
    TotalNonneg(InboundOf(delegations, kind, receiver));
  }

  lemma InboundUpdate(delegations: map<(Name, Name), Stake>, key: (Name, Name), stake: Stake, kind: LoanKind, r: Name)
    ensures Inbound(delegations[key := stake], kind, r)
         == Inbound(delegations, kind, r)
            + if key.1 == r then Part(stake, kind) - (if key in delegations then Part(delegations[key], kind) else 0) else 0
  {
    var view := InboundOf(delegations, kind, r);
    if key.1 == r {
      assert InboundOf(delegations[key := stake], kind, r) == view[key := Part(stake, kind)];
      TotalUpdate(view, key, Part(stake, kind));
    } else {
      assert InboundOf(delegations[key := stake], kind, r) == view;
    }
  }

  lemma InboundDrop(delegations: map<(Name, Name), Stake>, key: (Name, Name), kind: LoanKind, r: Name)
    ensures Inbound(delegations - {key}, kind, r)
         == Inbound(delegations, kind, r)
            - if key.1 == r && key in delegations then Part(delegations[key], kind) else 0
  {
    var view := InboundOf(delegations, kind, r);
    if key.1 == r {
      assert InboundOf(delegations - {key}, kind, r) == view - {key};
      TotalDrop(view, key);
    } else {
      assert InboundOf(delegations - {key}, kind, r) == view;
    }
  }

  lemma StakesUpdate(delegations: map<(Name, Name), Stake>, key: (Name, Name), stake: Stake)
    ensures Total(StakesOf(delegations[key := stake]))
         == Total(StakesOf(delegations)) - At(StakesOf(delegations), key) + stake.net + stake.cpu
    ensures Total(StakesOf(delegations - {key})) == Total(StakesOf(delegations)) - At(StakesOf(delegations), key)
  {
    assert StakesOf(delegations[key := stake]) == StakesOf(delegations)[key := stake.net + stake.cpu];
    TotalUpdate(StakesOf(delegations), key, stake.net + stake.cpu);
    assert StakesOf(delegations - {key}) == StakesOf(delegations) - {key};
    TotalDrop(StakesOf(delegations), key);
  }

  lemma RefundsUpdate(refunds: map<Name, Refund>, n: Name, refund: Refund)
    ensures Total(RefundsOf(refunds[n := refund]))
         == Total(RefundsOf(refunds)) - At(RefundsOf(refunds), n) + refund.net + refund.cpu
    ensures Total(RefundsOf(refunds - {n})) == Total(RefundsOf(refunds)) - At(RefundsOf(refunds), n)
  {
    assert RefundsOf(refunds[n := refund]) == RefundsOf(refunds)[n := refund.net + refund.cpu];
    TotalUpdate(RefundsOf(refunds), n, refund.net + refund.cpu);
    assert RefundsOf(refunds - {n}) == RefundsOf(refunds) - {n};
    TotalDrop(RefundsOf(refunds), n);
  }

  // Single-table operations

  function Change(kind: LoanKind, net: int, cpu: int): int {
    if kind == Net then net else cpu
  }

  /** Resource totals change by the given amounts for the receiver alone, and the change is refused
      exactly when a total would become negative. */
  lemma ChangeTotalsWeights(resources: map<Name, Resources>, receiver: Name, net: int, cpu: int)
    requires ResourcesOk(resources)
    ensures var r := Staking.ChangeTotals(resources, receiver, net, cpu);
      && (r.Success? <==> 0 <= Weight(resources, Net, receiver) + net && 0 <= Weight(resources, Cpu, receiver) + cpu)
      && (r.Success? ==>
            && ResourcesOk(r.value)
            && forall kind, a :: Weight(r.value, kind, a)
                 == Weight(resources, kind, a) + if a == receiver then Change(kind, net, cpu) else 0)
  {
  }

  lemma UpdateResourcesWeights(resources: map<Name, Resources>, receiver: Name, net: int, cpu: int)
    requires ResourcesOk(resources)
    ensures var r := Staking.UpdateResources(resources, receiver, net, cpu);
      && (r.Success? <==> 0 <= Weight(resources, Net, receiver) + net && 0 <= Weight(resources, Cpu, receiver) + cpu)
      && (r.Success? ==>
            && ResourcesOk(r.value)
            && forall kind, a :: Weight(r.value, kind, a)
                 == Weight(resources, kind, a) + if a == receiver then Change(kind, net, cpu) else 0)
  {
    ChangeTotalsWeights(resources, receiver, net, cpu);
  }

  /** The stake delegated along one edge changes by the given amounts, and nothing else does; the
      change is refused exactly when a part would become negative. */
  lemma ChangeDelegationStakes(delegations: map<(Name, Name), Stake>, from: Name, to: Name, net: int, cpu: int)
    requires StakesOk(delegations)
    ensures var r := Staking.ChangeDelegation(delegations, from, to, net, cpu);
      var was := if (from, to) in delegations then delegations[(from, to)] else Stake(0, 0);
      && (r.Success? <==> 0 <= was.net + net && 0 <= was.cpu + cpu)
      && (r.Success? ==>
            && StakesOk(r.value)
            && (forall k :: k != (from, to) ==> (k in r.value <==> k in delegations) && (k in delegations ==> r.value[k] == delegations[k]))
            && (var row := if (from, to) in r.value then r.value[(from, to)] else Stake(0, 0);
                row == Stake(was.net + net, was.cpu + cpu))
            && Total(StakesOf(r.value)) == Total(StakesOf(delegations)) + net + cpu
            && forall kind, a :: Inbound(r.value, kind, a)
                 == Inbound(delegations, kind, a) + if a == to then Change(kind, net, cpu) else 0)
  {
    hide Inbound, Total;
    var r := Staking.ChangeDelegation(delegations, from, to, net, cpu);
    var key := (from, to);
    if r.Success? {
      var row := if key in delegations then Stake(delegations[key].net + net, delegations[key].cpu + cpu)
                 else Stake(net, cpu);
      StakesUpdate(delegations, key, row);
      forall kind, a
        ensures Inbound(r.value, kind, a)
             == Inbound(delegations, kind, a) + if a == to then Change(kind, net, cpu) else 0
      {
        InboundUpdate(delegations, key, row, kind, a);
        InboundDrop(delegations, key, kind, a);
      }
    }
  }
}
