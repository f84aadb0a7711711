/** The resource exchange: funds, purchases and sales of REX, loans, the sell queue, and the
    maintenance that almost every action runs first. */
module Rex {
  import opened Outcomes
  import opened Sums
  import opened Chain
  import Token
  import Loans
  import Maturity
  import Pools
  import Staking
  import Voting

  const MIN_VOTED_PRODUCERS: int := 21
  const MAINTENANCE: nat := 2

  // Funds and fees

  function TransferFromFund(s: State, owner: Name, amount: int): (r: Result<State>)
    ensures r.Success? ==> r.value == s.(funds := r.value.funds)
  {
    if amount <= 0 then Failure(MustBePositive) else
    :- Need(owner in s.funds, MustDepositFirst);
    :- Need(amount <= s.funds[owner], InsufficientFunds);
    Success(s.(funds := s.funds[owner := s.funds[owner] - amount]))
  }

  function AddToFund(s: State, owner: Name, amount: int): State {
    s.(funds := s.funds[owner := At(s.funds, owner) + amount])
  }

  function TransferToFund(s: State, owner: Name, amount: int): (r: Result<State>)
    ensures r.Success? ==> r.value == s.(funds := r.value.funds)
  {
    if amount <= 0 then Failure(MustBePositive) else Success(AddToFund(s, owner, amount))
  }

  /** Passes a fee on to the lenders, if there are any. */
  function ChannelToRex(s: State, from: Name, amount: int): (r: Result<State>)
    ensures r.Success? ==> r.value == s.(pool := r.value.pool, tokens := r.value.tokens)
  {
    if Pools.Available(s.pool) then
      var tokens :- Token.Transfer(s.tokens, from, REX, amount);
      Success(s.(pool := Some(Pools.AddFee(s.pool.value, amount)), tokens := tokens))
    else Success(s)
  }

  // Maintenance

  function LoansOf(s: State, kind: LoanKind): seq<Loan> {
    if kind == Cpu then s.cpuLoans else s.netLoans
  }

  function WithLoans(s: State, kind: LoanKind, loans: seq<Loan>): State {
    if kind == Cpu then s.(cpuLoans := loans) else s.(netLoans := loans)
  }

  /** Changes the receiver's total of the resource a loan is for. */
  function StakeTo(s: State, kind: LoanKind, receiver: Name, delta: int): (r: Result<State>)
    ensures r.Success? ==> r.value == s.(resources := r.value.resources)
  {
    var resources :- Staking.UpdateResources(s.resources, receiver,
                                             if kind == Net then delta else 0, if kind == Cpu then delta else 0);
    Success(s.(resources := resources))
  }

  /** Loans are to be had while there is REX and no sell order is waiting. */
  predicate LoansAvailable(s: State) {
    Pools.Available(s.pool) && s.queue == []
  }

  /** Renews the first loan of a table for another term, paid for from what it has set aside. */
  function RenewLoan(s: State, kind: LoanKind, closed: Pool, rented: int): (r: Result<State>)
    requires LoansOf(s, kind) != []
    ensures r.Success? ==>
      r.value == s.(pool := r.value.pool, cpuLoans := r.value.cpuLoans, netLoans := r.value.netLoans,
                    resources := r.value.resources)
    ensures r.Success? ==> r.value.pool.Some?
  {
    var loan := LoansOf(s, kind)[0];
    var renewed := loan.(staked := rented, expiration := loan.expiration + LOAN_TERM, balance := loan.balance - loan.payment);
    var booked := s.(pool := Some(Pools.AddLoan(closed, loan.payment, rented, false)));
    StakeTo(WithLoans(booked, kind, Loans.Insert(LoansOf(s, kind)[1..], renewed)), kind, loan.receiver, rented - loan.staked)
  }

  /** Deletes the first loan of a table and refunds what it has set aside. */
  function CloseLoan(s: State, kind: LoanKind, closed: Pool): (r: Result<State>)
    requires LoansOf(s, kind) != []
    ensures r.Success? ==>
      r.value == s.(pool := r.value.pool, funds := r.value.funds, cpuLoans := r.value.cpuLoans,
                    netLoans := r.value.netLoans, resources := r.value.resources)
    ensures r.Success? ==> r.value.pool.Some?
  {
    var loan := LoansOf(s, kind)[0];
    var booked := WithLoans(s.(pool := Some(closed)), kind, LoansOf(s, kind)[1..]);
    var refunded := if 0 < loan.balance then AddToFund(booked, loan.from, loan.balance) else booked;
    StakeTo(refunded, kind, loan.receiver, -loan.staked)
  }

  /** Whether a loan whose term is over is renewed for `rented` tokens. */
  predicate Renews(s: State, loan: Loan, rented: int) {
    loan.payment <= loan.balance && loan.payment < rented && LoansAvailable(s)
  }

  /** Renews or closes the first loan of a table, whose term is over. */
  function ExpireLoan(s: State, kind: LoanKind): (r: Result<State>)
    requires s.pool.Some? && LoansOf(s, kind) != []
    ensures r.Success? ==>
      r.value == s.(pool := r.value.pool, funds := r.value.funds, cpuLoans := r.value.cpuLoans,
                    netLoans := r.value.netLoans, resources := r.value.resources)
    ensures r.Success? ==> r.value.pool.Some?
  {
    var loan := LoansOf(s, kind)[0];
    var closed :- Pools.RemoveLoan(s.pool.value, loan.staked);
    var rented :- Pools.BancorOutput(closed.rent, closed.unlent, loan.payment);
    if Renews(s.(pool := Some(closed)), loan, rented) then RenewLoan(s, kind, closed, rented)
    else CloseLoan(s, kind, closed)
  }

  /** Processes up to `max` expired loans of a table, the earliest first. */
  function ExpireLoans(s: State, now: int, kind: LoanKind, max: nat): (r: Result<State>)
    requires s.pool.Some?
    ensures r.Success? ==>
      r.value == s.(pool := r.value.pool, funds := r.value.funds, cpuLoans := r.value.cpuLoans,
                    netLoans := r.value.netLoans, resources := r.value.resources)
    ensures r.Success? ==> r.value.pool.Some?
    decreases max
  {
    if max == 0 || LoansOf(s, kind) == [] || now < LoansOf(s, kind)[0].expiration then Success(s)
    else
      var next :- ExpireLoan(s, kind);
      ExpireLoans(next, now, kind, max - 1)
  }

  /** Tries to fill the open order at a position of the queue; a filled order is closed and leaves
      the queue. */
  function FillOrder(s: State, at: nat): (r: Result<State>)
    requires s.pool.Some? && at < |s.queue|
    ensures r.Success? ==>
      r.value == s.(pool := r.value.pool, balances := r.value.balances, orders := r.value.orders,
                    queue := r.value.queue)
    ensures r.Success? ==>
      r.value.pool.Some? && (r.value.queue == s.queue || r.value.queue == s.queue[..at] + s.queue[at + 1..])
  {
    var owner := s.queue[at];
    if owner in s.orders && owner in s.balances then
      var order := s.orders[owner];
      var sale :- Pools.Sell(s.pool.value, s.balances[owner], order.requested);
      match sale
      case Filled(pool, balance, proceeds, stakeChange) =>
        Success(s.(pool := Some(pool),
                   balances := s.balances[owner := balance],
                   orders := s.orders[owner := order.(proceeds := proceeds, stakeChange := stakeChange, open := false)],
                   queue := s.queue[..at] + s.queue[at + 1..]))
      case Unfilled => Success(s)
    else Success(s)
  }

  /** Tries up to `max` open orders from a position of the queue on. */
  function FillOrders(s: State, at: nat, max: nat): (r: Result<State>)
    requires s.pool.Some? && at <= |s.queue|
    ensures r.Success? ==>
      r.value == s.(pool := r.value.pool, balances := r.value.balances, orders := r.value.orders,
                    queue := r.value.queue)
    ensures r.Success? ==> r.value.pool.Some?
    decreases max
  {
    if max == 0 || at == |s.queue| then Success(s)
    else
      var next :- FillOrder(s, at);
      FillOrders(next, if |next.queue| < |s.queue| then at else at + 1, max - 1)
  }

  /** Moves the proceeds of closed name auctions into the pool. */
  function SweepNamebids(s: State): (r: Result<State>)
    requires s.pool.Some?
    ensures r.Success? ==> r.value == s.(pool := r.value.pool, tokens := r.value.tokens)
    ensures r.Success? ==> r.value.pool.Some?
  {
    if 0 < s.pool.value.namebid then
      var swept :- ChannelToRex(s, NAMES, s.pool.value.namebid);
      Success(swept.(pool := Some(swept.pool.value.(namebid := 0))))
    else Success(s)
  }

  /** The maintenance: fees, expired CPU loans, expired NET loans, open sell orders. */
  function RunRex(s: State, now: int, max: nat): (r: Result<State>)
    ensures r.Success? ==>
      r.value == s.(tokens := r.value.tokens, pool := r.value.pool, funds := r.value.funds,
                    balances := r.value.balances, orders := r.value.orders, queue := r.value.queue,
                    cpuLoans := r.value.cpuLoans, netLoans := r.value.netLoans, resources := r.value.resources)
    ensures r.Success? ==> s.pool.Some? && r.value.pool.Some?
  {
    if s.pool.None? then Failure(RexNotInitialized) else
    var swept :- SweepNamebids(s);
    var cpu :- ExpireLoans(swept, now, Cpu, max);
    var net :- ExpireLoans(cpu, now, Net, max);
    FillOrders(net, 0, max)
  }

  // Shared steps of the actions

  /** Pays out the owner's filled order, if any, along with other proceeds, and books the stake
      change; yields the REX in an order still open. */
  function UpdateRexAccount(s: State, now: int, owner: Name, proceeds: int, stakeChange: int, force: bool)
    : (r: Result<(State, int)>)
    ensures r.Success? ==> var t := r.value.0; t == s.(orders := t.orders, funds := t.funds, votes := t.votes)
  {
    var has := owner in s.orders;
    var filled := has && !s.orders[owner].open;
    var inOrder := if has && s.orders[owner].open then s.orders[owner].requested else 0;
    var toFund := proceeds + if filled then s.orders[owner].proceeds else 0;
    var toStake := stakeChange + if filled then s.orders[owner].stakeChange else 0;
    var cleared := if filled then s.(orders := s.orders - {owner}) else s;
    var paid := if 0 < toFund then AddToFund(cleared, owner, toFund) else cleared;
    if force || toStake != 0 then
      var votes :- Voting.UpdateVotingPower(paid.votes, now, owner, toStake);
      Success((paid.(votes := votes), inOrder))
    else Success((paid, inOrder))
  }

  predicate MayBuyRex(votes: Votes, owner: Name) {
    owner in votes.voters && MIN_VOTED_PRODUCERS <= |votes.voters[owner].producers|
  }

  /** Buys REX for a payment already in the exchange's hands; yields the change in vote stake. */
  function Purchase(s: State, now: int, owner: Name, payment: int): Result<(State, int)> {
    var (pool, received) :- Pools.AddPurchase(s.pool, payment);
    var known := owner in s.balances;
    :- Need(!known || pool.rex != 0, DivisionByZero);
    var was := if known then s.balances[owner] else Balance(0, 0, 0, []);
    var rex := was.rex + received;
    var stake := if known then Pools.ValueOf(pool, rex) else payment;
    var bought := Maturity.AddMaturing(was.(rex := rex, voteStake := stake), now, received);
    Success((s.(pool := Some(pool), balances := s.balances[owner := bought]), stake - was.voteStake))
  }

  /** Whether the order `(time, owner)` comes before another in the time index. */
  predicate Earlier(time: int, owner: Name, otherTime: int, other: Name) {
    time < otherTime || (time == otherTime && owner < other)
  }

  function TimeOf(orders: map<Name, Order>, owner: Name): int {
    if owner in orders then orders[owner].time else 0
  }

  function Enqueue(queue: seq<Name>, orders: map<Name, Order>, time: int, owner: Name): seq<Name> {
    if queue == [] || Earlier(time, owner, TimeOf(orders, queue[0]), queue[0]) then [owner] + queue
    else [queue[0]] + Enqueue(queue[1..], orders, time, owner)
  }

  function Dequeue(queue: seq<Name>, owner: Name): seq<Name> {
    if queue == [] then []
    else if queue[0] == owner then queue[1..]
    else [queue[0]] + Dequeue(queue[1..], owner)
  }

  /** Opens a sell order, or adds to the owner's order. */
  function QueueOrder(s: State, now: int, owner: Name, rex: int): (s': State)
    ensures owner in s'.orders
  {
    if owner in s.orders then
      s.(orders := s.orders[owner := s.orders[owner].(requested := s.orders[owner].requested + rex)])
    else
      s.(orders := s.orders[owner := Order(rex, 0, 0, now, true)], queue := Enqueue(s.queue, s.orders, now, owner))
  }

  // Actions

  function Deposit(s: State, owner: Name, amount: int): (r: Result<State>)
    ensures r.Success? ==> r.value == s.(tokens := r.value.tokens, funds := r.value.funds)
  {
    if amount <= 0 then Failure(MustBePositive) else
    var tokens :- Token.Transfer(s.tokens, owner, REX, amount);
    TransferToFund(s.(tokens := tokens), owner, amount)
  }

  function Withdraw(s: State, now: int, owner: Name, amount: int): Result<State> {
    if amount <= 0 then Failure(MustBePositive) else
    var (updated, _) :- UpdateRexAccount(s, now, owner, 0, 0, false);
    var taken :- TransferFromFund(updated, owner, amount);
    var tokens :- Token.Transfer(taken.tokens, REX, owner, amount);
    Success(taken.(tokens := tokens))
  }

  function BuyRex(s: State, now: int, from: Name, amount: int): Result<State> {
    if amount <= 0 then Failure(MustBePositive) else
    :- Need(MayBuyRex(s.votes, from), VotingRequirementUnmet);
    var paid :- TransferFromFund(s, from, amount);
    var (bought, stakeChange) :- Purchase(paid, now, from, amount);
    var maintained :- RunRex(bought, now, MAINTENANCE);
    var (updated, _) :- UpdateRexAccount(maintained, now, from, 0, stakeChange, false);
    Success(updated)
  }

  /** Takes staked tokens out of a delegation and moves them to the exchange. */
  function Unstake(s: State, owner: Name, receiver: Name, net: int, cpu: int): (r: Result<State>)
    ensures r.Success? ==>
      r.value == s.(delegations := r.value.delegations, resources := r.value.resources, tokens := r.value.tokens)
  {
    if net < 0 || cpu < 0 || (net <= 0 && cpu <= 0) then Failure(MustBePositive) else
    :- Need(MayBuyRex(s.votes, owner), VotingRequirementUnmet);
    :- Need((owner, receiver) in s.delegations, NoDelegation);
    var delegations :- Staking.ChangeDelegation(s.delegations, owner, receiver, -net, -cpu);
    var resources :- Staking.UpdateResources(s.resources, receiver, -net, -cpu);
    var tokens :- Token.Transfer(s.tokens, STAKE, REX, net + cpu);
    Success(s.(delegations := delegations, resources := resources, tokens := tokens))
  }

  /** Buys REX with staked tokens; the change in vote stake is not booked. */
  function UnstakeToRex(s: State, now: int, owner: Name, receiver: Name, net: int, cpu: int): Result<State> {
    var unstaked :- Unstake(s, owner, receiver, net, cpu);
    var (bought, _) :- Purchase(unstaked, now, owner, net + cpu);
    var maintained :- RunRex(bought, now, MAINTENANCE);
    var (updated, _) :- UpdateRexAccount(maintained, now, owner, 0, 0, true);
    Success(updated)
  }

  function SellRex(s: State, now: int, from: Name, rex: int): Result<State> {
    var maintained :- RunRex(s, now, MAINTENANCE);
    :- Need(from in maintained.balances, NoRexBalance);
    :- Need(0 < rex, MustBePositive);
    var b := Maturity.Mature(maintained.balances[from], Seconds(now));
    :- Need(rex <= b.matured, InsufficientRex);
    var sale :- Pools.Sell(maintained.pool.value, b, rex);
    match sale
    case Filled(pool, left, proceeds, stakeChange) =>
      :- Need(proceeds != 0, NegligibleProceeds);
      var sold := maintained.(pool := Some(pool), balances := maintained.balances[from := left]);
      var (updated, inOrder) :- UpdateRexAccount(sold, now, from, proceeds, stakeChange, false);
      :- Need(inOrder <= left.matured, OrdersExceedMatured);
      Success(updated)
    case Unfilled =>
      var unsold := maintained.(balances := maintained.balances[from := b]);
      var (updated, _) :- UpdateRexAccount(unsold, now, from, 0, 0, false);
      :- Need(from != B1, B1MustNotQueue);
      var queued := QueueOrder(updated, now, from, rex);
      :- Need(queued.orders[from].requested <= b.matured, OrdersExceedMatured);
      Success(queued)
  }

  function CancelOrder(s: State, owner: Name): (r: Result<State>)
    ensures r.Success? ==> r.value == s.(orders := s.orders - {owner}, queue := Dequeue(s.queue, owner))
  {
    if owner !in s.orders then Failure(NoOrder) else
    :- Need(s.orders[owner].open, OrderAlreadyFilled);
    Success(s.(orders := s.orders - {owner}, queue := Dequeue(s.queue, owner)))
  }

  function Rent(s: State, now: int, kind: LoanKind, from: Name, receiver: Name, payment: int, fund: int): Result<State> {
    var maintained :- RunRex(s, now, MAINTENANCE);
    :- Need(LoansAvailable(maintained), LoansUnavailable);
    :- Need(0 < payment && 0 <= fund, MustBePositive);
    var paid :- TransferFromFund(maintained, from, payment + fund);
    var p := paid.pool.value;
    var rented :- Pools.BancorOutput(p.rent, p.unlent, payment);
    :- Need(payment < rented, LoanPriceUnfavourable);
    var pool := Pools.AddLoan(p, payment, rented, true);
    var loan := Loan(from, receiver, payment, fund, rented, pool.loanNum, now + LOAN_TERM);
    var booked := WithLoans(paid.(pool := Some(pool)), kind, Loans.Insert(LoansOf(paid, kind), loan));
    StakeTo(booked, kind, receiver, rented)
  }

  /** The running loan of a creator. */
  function FindLoan(s: State, now: int, kind: LoanKind, from: Name, num: nat): (r: Result<nat>)
    ensures r.Success? ==> r.value < |LoansOf(s, kind)|
  {
    var at := Loans.Find(LoansOf(s, kind), num);
    :- Need(at.Some?, LoanNotFound);
    :- Need(LoansOf(s, kind)[at.value].from == from, NotLoanCreator);
    :- Need(now < LoansOf(s, kind)[at.value].expiration, LoanExpired);
    Success(at.value)
  }

  function FundLoan(s: State, now: int, kind: LoanKind, from: Name, num: nat, payment: int): (r: Result<State>)
    ensures r.Success? ==>
      r.value == s.(funds := r.value.funds, cpuLoans := r.value.cpuLoans, netLoans := r.value.netLoans)
  {
    var paid :- TransferFromFund(s, from, payment);
    var at :- FindLoan(paid, now, kind, from, num);
    var loans := LoansOf(paid, kind);
    Success(WithLoans(paid, kind, loans[at := loans[at].(balance := loans[at].balance + payment)]))
  }

  function DefundLoan(s: State, now: int, kind: LoanKind, from: Name, num: nat, amount: int): (r: Result<State>)
    ensures r.Success? ==>
      r.value == s.(funds := r.value.funds, cpuLoans := r.value.cpuLoans, netLoans := r.value.netLoans)
  {
    var at :- FindLoan(s, now, kind, from, num);
    var loans := LoansOf(s, kind);
    :- Need(amount <= loans[at].balance, InsufficientLoanBalance);
    TransferToFund(WithLoans(s, kind, loans[at := loans[at].(balance := loans[at].balance - amount)]), from, amount)
  }

  function UpdateRex(s: State, now: int, owner: Name): Result<State> {
    var maintained :- RunRex(s, now, MAINTENANCE);
    :- Need(owner in maintained.balances, NoRexBalance);
    var b := maintained.balances[owner];
    var p := maintained.pool.value;
    var stake := if 0 < p.rex then Pools.ValueOf(p, b.rex) else 0;
    var revalued := maintained.(balances := maintained.balances[owner := b.(voteStake := stake)]);
    var (updated, _) :- UpdateRexAccount(revalued, now, owner, 0, stake - b.voteStake, true);
    Success(updated.(balances := updated.balances[owner := Maturity.Mature(b.(voteStake := stake), Seconds(now))]))
  }

  /** The system account sets the rent connector. */
  function SetRex(s: State, balance: int): Result<State> {
    if balance <= 0 then Failure(MustBePositive) else
    :- Need(s.pool.Some?, RexNotInitialized);
    Success(s.(pool := Some(s.pool.value.(rent := balance))))
  }

  function Consolidate(s: State, now: int, owner: Name): Result<State> {
    var maintained :- RunRex(s, now, MAINTENANCE);
    :- Need(owner in maintained.balances, NoRexBalance);
    var (updated, inOrder) :- UpdateRexAccount(maintained, now, owner, 0, 0, false);
    var b := Maturity.Consolidate(maintained.balances[owner], now, inOrder);
    Success(updated.(balances := updated.balances[owner := b]))
  }

  function MoveToSavings(s: State, now: int, owner: Name, rex: int): Result<State> {
    var maintained :- RunRex(s, now, MAINTENANCE);
    :- Need(owner in maintained.balances, NoRexBalance);
    :- Need(0 < rex, MustBePositive);
    var (updated, inOrder) :- UpdateRexAccount(maintained, now, owner, 0, 0, false);
    var b :- Maturity.MoveToSavings(maintained.balances[owner], now, rex, inOrder);
    Success(updated.(balances := updated.balances[owner := b]))
  }

  function MoveFromSavings(s: State, now: int, owner: Name, rex: int): Result<State> {
    var maintained :- RunRex(s, now, MAINTENANCE);
    :- Need(owner in maintained.balances, NoRexBalance);
    :- Need(0 < rex, MustBePositive);
    var b :- Maturity.MoveFromSavings(maintained.balances[owner], now, rex);
    var (updated, _) :- UpdateRexAccount(maintained.(balances := maintained.balances[owner := b]), now, owner, 0, 0, false);
    Success(updated)
  }

  function CloseRex(s: State, now: int, owner: Name): Result<State> {
    var maintained :- if s.pool.Some? then RunRex(s, now, MAINTENANCE) else Success(s);
    var (updated, _) :- UpdateRexAccount(maintained, now, owner, 0, 0, false);
    var idle := !Loans.HasOwner(updated.cpuLoans, owner) && !Loans.HasOwner(updated.netLoans, owner)
                && owner in updated.funds && updated.funds[owner] == 0;
    var closed := if idle then updated.(funds := updated.funds - {owner}) else updated;
    if owner in closed.balances then
      :- Need(closed.balances[owner].rex == 0, RexRemaining);
      Success(closed.(balances := closed.balances - {owner}))
    else Success(closed)
  }
}
