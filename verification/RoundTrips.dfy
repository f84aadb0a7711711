/** What one action does another undoes. */
module RoundTrips {
  import opened Outcomes
  import opened Arithmetic
  import opened Sums
  import opened Chain
  import opened Ledger
  import opened Rex
  import Exchange
  import Liveness
  import Loans
  import Maintenance
  import Maturity
  import Pools
  import Settlement
  import Stakes
  import Staking
  import Token
  import Voting

  /** A deposit can be withdrawn at once: every account and every fund is back where it was. */
  lemma DepositThenWithdraw(s: State, now: int, owner: Name, amount: int)
    requires MaintInv(s, now) && User(owner) && Deposit(s, owner, amount).Success?
    requires owner in s.orders ==> s.orders[owner].open
    ensures var t := Deposit(s, owner, amount).value;
      && Withdraw(t, now, owner, amount).Success?
      && var u := Withdraw(t, now, owner, amount).value;
      && u == s.(tokens := u.tokens, funds := u.funds)
      && (forall a :: At(u.tokens, a) == At(s.tokens, a))
      && (forall n :: At(u.funds, n) == At(s.funds, n))
  {
    hide RexInv, StakeInv, Token.Transfer;
    Token.TransferMoves(s.tokens, owner, REX, amount);
    var t := Deposit(s, owner, amount).value;
    assert UpdateRexAccount(t, now, owner, 0, 0, false).Success? && UpdateRexAccount(t, now, owner, 0, 0, false).value.0 == t;
    assert amount <= At(t.tokens, REX) by { NotOverdrawn(s.tokens, REX); }
    Token.TransferMoves(t.tokens, REX, owner, amount);
    assert 0 <= At(s.funds, owner) by { FundNonneg(s, now, owner); }
  }

  lemma FundNonneg(s: State, now: int, owner: Name)
    requires RexInv(s, now)
    ensures 0 <= At(s.funds, owner)
  {
  }

  lemma NotOverdrawn(tokens: Tokens, a: Name)
    requires Token.NoneOverdrawn(tokens)
    ensures 0 <= At(tokens, a)
  {
  }

  lemma {:induction false} FindUnfunded(loans: seq<Loan>, num: nat, at: nat, balance: int)
    requires at < |loans|
    ensures Loans.Find(loans[at := loans[at].(balance := balance)], num) == Loans.Find(loans, num)
  {
    var after := loans[at := loans[at].(balance := balance)];
    if 0 < at {
      FindUnfunded(loans[1..], num, at - 1, balance);
      assert after[1..] == loans[1..][at - 1 := loans[at].(balance := balance)];
    } else {
      assert after[1..] == loans[1..];
    }
  }

  /** What was added to a running loan's fund can be taken back: everything is as before. */
  lemma FundThenDefund(s: State, now: int, kind: LoanKind, from: Name, num: nat, amount: int)
    requires FundLoan(s, now, kind, from, num, amount).Success?
    requires 0 <= LoansOf(s, kind)[FindLoan(s, now, kind, from, num).value].balance
    ensures DefundLoan(FundLoan(s, now, kind, from, num, amount).value, now, kind, from, num, amount) == Success(s)
  {
    hide Loans.Find;
    var at := FindLoan(s, now, kind, from, num).value;
    var loans := LoansOf(s, kind);
    FindUnfunded(loans, num, at, loans[at].balance + amount);
    var t := FundLoan(s, now, kind, from, num, amount).value;
    var funded := loans[at := loans[at].(balance := loans[at].balance + amount)];
    assert LoansOf(t, kind) == funded;
    assert funded[at := funded[at].(balance := funded[at].balance - amount)] == loans;
    assert s.funds[from := s.funds[from] - amount][from := s.funds[from]] == s.funds;
  }

  lemma {:induction false} DequeueUndoes(queue: seq<Name>, orders: map<Name, Order>, time: int, owner: Name)
    requires owner !in queue
    ensures Dequeue(Enqueue(queue, orders, time, owner), owner) == queue
    decreases |queue|
  {
    if queue == [] || Earlier(time, owner, TimeOf(orders, queue[0]), queue[0]) {
      assert ([owner] + queue)[1..] == queue;
    } else {
      DequeueUndoes(queue[1..], orders, time, owner);
      assert Enqueue(queue, orders, time, owner)[1..] == Enqueue(queue[1..], orders, time, owner);
    }
  }

  /** An order that was only queued can be cancelled without a trace. */
  lemma QueueThenCancel(s: State, now: int, owner: Name, rex: int)
    requires owner !in s.orders && owner !in s.queue
    ensures CancelOrder(QueueOrder(s, now, owner, rex), owner) == Success(s)
  {
    hide Enqueue, Dequeue;
    DequeueUndoes(s.queue, s.orders, now, owner);
    assert s.orders[owner := Order(rex, 0, 0, now, true)] - {owner} == s.orders;
  }

  /** A sale that had to wait can be taken back: cancelling leaves the state as maintenance and the
      settling of the owner's account left it, with the holding's due buckets matured. */
  lemma SellThenCancel(s: State, now: int, owner: Name, rex: int)
    requires Exchange.Whole(s, now) && InEpoch(now) && Rex.SellRex(s, now, owner, rex).Success?
    requires RunRex(s, now, MAINTENANCE).Success?
    requires var m := RunRex(s, now, MAINTENANCE).value;
      && Settlement.OpenOf(m, owner) == 0
      && m.pool.value.rex != 0
      && m.pool.value.unlent - Pools.Reserve(m.pool.value) < Pools.ValueOf(m.pool.value, rex)
    ensures var m := RunRex(s, now, MAINTENANCE).value;
      owner in m.balances &&
      var matured := m.(balances := m.balances[owner := Maturity.Mature(m.balances[owner], Seconds(now))]);
      var settled := UpdateRexAccount(matured, now, owner, 0, 0, false);
      settled.Success? && CancelOrder(Rex.SellRex(s, now, owner, rex).value, owner) == Success(settled.value.0)
  {
    hide MaintInv, Exchange.Whole, UpdateRexAccount, RunRex, Pools.Sell, Pools.ValueOf, Maturity.Mature, QueueOrder, CancelOrder,
         Rex.SellRex, Maintenance.Untouched, RexSurplus, Pools.PriceKept;
    Liveness.SaleBalances(s, now, owner, rex);
    Liveness.WholeParts(s, now);
    Maintenance.RunRexKeeps(s, now, MAINTENANCE);
    var m := RunRex(s, now, MAINTENANCE).value;
    assert Exchange.Whole(m, now) by { Exchange.MaintainedWhole(s, m, now); }
    Settlement.SaleTerms(m, now, owner, rex);
    var b := Maturity.Mature(m.balances[owner], Seconds(now));
    Liveness.SaleQueued(s, m, now, owner, rex, b);
    Liveness.UnsoldKeeps(m, now, owner);
    var matured := m.(balances := m.balances[owner := b]);
    var settled := UpdateRexAccount(matured, now, owner, 0, 0, false).value.0;
    NoOrderLeft(m, matured, settled, now, owner);
    QueueThenCancel(settled, now, owner, rex);
  }

  lemma NoOrderLeft(m: State, matured: State, settled: State, now: int, owner: Name)
    requires MaintInv(m, now) && matured == m.(balances := matured.balances) && Settlement.OpenOf(m, owner) == 0
    requires UpdateRexAccount(matured, now, owner, 0, 0, false).Success?
    requires settled == UpdateRexAccount(matured, now, owner, 0, 0, false).value.0 && MaintInv(settled, now)
    ensures owner !in settled.orders && owner !in settled.queue
  {
    hide Voting.UpdateVotingPower, UpdateRexAccount, PoolOk, BalancesOk, InTimeOrder, WeightsAgree;
    Exchange.UpdateRexAccountSteps(matured, now, owner, 0, 0, false);
  }

  /** Taking back a delegation restores the table of delegations. */
  lemma DelegateThenTakeBack(delegations: map<(Name, Name), Stake>, from: Name, to: Name, net: int, cpu: int)
    requires StakesOk(delegations) && Staking.ChangeDelegation(delegations, from, to, net, cpu).Success?
    ensures var changed := Staking.ChangeDelegation(delegations, from, to, net, cpu).value;
      Staking.ChangeDelegation(changed, from, to, -net, -cpu) == Success(delegations)
  {
    var key := (from, to);
    var changed := Staking.ChangeDelegation(delegations, from, to, net, cpu).value;
    if key in delegations {
      assert changed[key := delegations[key]] == delegations;
    } else {
      assert changed - {key} == delegations;
    }
  }

  /** And every receiver's totals. */
  lemma TotalsTakenBack(resources: map<Name, Resources>, to: Name, net: int, cpu: int)
    requires ResourcesOk(resources) && Staking.ChangeTotals(resources, to, net, cpu).Success?
    ensures var changed := Staking.ChangeTotals(resources, to, net, cpu).value;
      var restored := Staking.ChangeTotals(changed, to, -net, -cpu);
      restored.Success? && forall kind, a :: Weight(restored.value, kind, a) == Weight(resources, kind, a)
  {
    hide Staking.ChangeTotals, Weight;
    assert 0 <= Weight(resources, Net, to) && 0 <= Weight(resources, Cpu, to) by { WeightsNonneg(resources, to); }
    ChangeTotalsWeights(resources, to, net, cpu);
    ChangeTotalsWeights(Staking.ChangeTotals(resources, to, net, cpu).value, to, -net, -cpu);
  }

  lemma WeightsNonneg(resources: map<Name, Resources>, r: Name)
    requires ResourcesOk(resources)
    ensures 0 <= Weight(resources, Net, r) && 0 <= Weight(resources, Cpu, r)
  {
  }

  /** What a stake change does to delegations, totals, refunds and tokens. */
  lemma BandwidthParts(s: State, t: State, now: int, source: Name, receiver: Name, net: int, cpu: int, transfer: bool)
    requires source != STAKE && Staking.ChangeBandwidth(s, now, source, receiver, net, cpu, transfer) == Success(t)
    ensures Stakes.SameSign(net, cpu) && (net != 0 || cpu != 0)
    ensures var from := if transfer then receiver else source;
      && Staking.ChangeDelegation(s.delegations, from, receiver, net, cpu) == Success(t.delegations)
      && Staking.ChangeTotals(s.resources, receiver, net, cpu) == Success(t.resources)
      && var r := Staking.Settle(s.refunds, now, from, net, cpu, !transfer && from == receiver);
      && r.Success? && t.refunds == r.value.refunds
      && (if 0 < r.value.due then Token.Transfer(s.tokens, source, STAKE, r.value.due) == Success(t.tokens) else t.tokens == s.tokens)
  {
    hide Staking.ChangeDelegation, Staking.ChangeTotals, Staking.Settle, Staking.UpdateRexStake, Token.Transfer, Voting.UpdateVotingPower;
    Stakes.SignsAgree(net, cpu);
  }

  /** What a delegation to oneself or to another takes from its source, given the pending refund. */
  function Taken(s: State, from: Name, receiver: Name, net: int, cpu: int): int {
    if from == receiver then
      Max(0, net - Stakes.PendingOf(s.refunds, from, Net)) + Max(0, cpu - Stakes.PendingOf(s.refunds, from, Cpu))
    else net + cpu
  }

  /** A stake netted against the pending refund, and the same stake taken back. */
  lemma RefundThenBack(refunds: map<Name, Refund>, now: int, later: int, from: Name, net: int, cpu: int, toSelf: bool)
    requires RefundsOk(refunds) && 0 <= net && 0 <= cpu && 0 < net + cpu
    ensures var paid := Staking.Settle(refunds, now, from, net, cpu, toSelf);
      var pendingNet := Stakes.PendingOf(refunds, from, Net);
      var pendingCpu := Stakes.PendingOf(refunds, from, Cpu);
      && paid.Success?
      && paid.value.due == (if toSelf then Max(0, net - pendingNet) + Max(0, cpu - pendingCpu) else net + cpu)
      && var back := Staking.Settle(paid.value.refunds, later, from, -net, -cpu, toSelf);
      && back.Success? && back.value.due == 0
      && (forall n :: n != from ==> (n in back.value.refunds <==> n in refunds) && (n in refunds ==> back.value.refunds[n] == refunds[n]))
      && from in back.value.refunds
      && back.value.refunds[from] == (if toSelf then Refund(Seconds(later), Max(pendingNet, net), Max(pendingCpu, cpu))
                                      else Refund(Seconds(later), pendingNet + net, pendingCpu + cpu))
  {
    hide Staking.Settle, Total;
    Stakes.SettleBalances(refunds, now, from, net, cpu, toSelf);
    Stakes.SettlePerResource(refunds, now, from, net, cpu, toSelf);
    var paid := Staking.Settle(refunds, now, from, net, cpu, toSelf).value;
    Stakes.SettleBalances(paid.refunds, later, from, -net, -cpu, toSelf);
    Stakes.SettlePerResource(paid.refunds, later, from, -net, -cpu, toSelf);
  }

  /** Undelegating what was just delegated restores every delegation and every total. The tokens wait in
      the refund: what was paid in, and the part of the pending refund that the delegation had drawn on,
      with the term starting over. */
  lemma DelegateThenUndelegate(s: State, t: State, u: State, now: int, later: int, from: Name, receiver: Name, net: int, cpu: int)
    requires MaintInv(s, now) && User(from)
    requires Staking.Delegate(s, now, from, receiver, net, cpu, false) == Success(t)
    requires Staking.Undelegate(t, later, from, receiver, net, cpu) == Success(u)
    ensures u.delegations == s.delegations
    ensures forall kind, a :: Weight(u.resources, kind, a) == Weight(s.resources, kind, a)
    ensures forall n :: n != from ==> (n in u.refunds <==> n in s.refunds) && (n in s.refunds ==> u.refunds[n] == s.refunds[n])
    ensures var pendingNet := Stakes.PendingOf(s.refunds, from, Net);
      var pendingCpu := Stakes.PendingOf(s.refunds, from, Cpu);
      && from in u.refunds
      && u.refunds[from] == (if from == receiver then Refund(Seconds(later), Max(pendingNet, net), Max(pendingCpu, cpu))
                             else Refund(Seconds(later), pendingNet + net, pendingCpu + cpu))
    ensures At(u.tokens, STAKE) == At(s.tokens, STAKE) + Taken(s, from, receiver, net, cpu)
    ensures At(u.tokens, from) == At(s.tokens, from) - Taken(s, from, receiver, net, cpu)
    ensures forall a :: a != from && a != STAKE ==> At(u.tokens, a) == At(s.tokens, a)
  {
    hide RexInv, WeightsAgree, StakesOk, ResourcesOk, RefundsOk, NamesFunded, Token.NoneOverdrawn, Staking.ChangeDelegation,
         Staking.ChangeTotals, Staking.Settle, Staking.ChangeBandwidth, Staking.Delegate, Staking.Undelegate, Total, Token.Transfer,
         Weight, Stakes.PendingOf, SteppedDown;
    DelegateParts(s, t, now, from, receiver, net, cpu, false);
    BandwidthParts(s, t, now, from, receiver, net, cpu, false);
    UndelegateParts(t, u, later, from, receiver, net, cpu);
    BandwidthParts(SteppedDown(t, from), u, later, from, receiver, -net, -cpu, false);
    DelegateThenTakeBack(s.delegations, from, receiver, net, cpu);
    TotalsTakenBack(s.resources, receiver, net, cpu);
    RefundThenBack(s.refunds, now, later, from, net, cpu, from == receiver);
    var due := Staking.Settle(s.refunds, now, from, net, cpu, from == receiver).value.due;
    if 0 < due { Token.TransferMoves(s.tokens, from, STAKE, due); }
  }

  /** The state in which an undelegating producer has stepped down. */
  function SteppedDown(s: State, from: Name): State {
    if from in s.votes.voters && 1000000 < s.votes.voters[from].staked && from in s.votes.producers then
      s.(votes := Voting.Deactivate(s.votes, from).value)
    else s
  }

  lemma DelegateParts(s: State, t: State, now: int, from: Name, receiver: Name, net: int, cpu: int, transfer: bool)
    requires Staking.Delegate(s, now, from, receiver, net, cpu, transfer) == Success(t)
    ensures 0 <= net && 0 <= cpu && 0 < net + cpu
    ensures Staking.ChangeBandwidth(s, now, from, receiver, net, cpu, transfer) == Success(t)
  {
    hide Staking.ChangeBandwidth;
  }

  lemma UndelegateParts(t: State, u: State, now: int, from: Name, receiver: Name, net: int, cpu: int)
    requires Staking.Undelegate(t, now, from, receiver, net, cpu) == Success(u)
    ensures 0 <= net && 0 <= cpu && 0 < net + cpu
    ensures var d := SteppedDown(t, from);
      && d == t.(votes := d.votes)
      && Staking.ChangeBandwidth(d, now, from, receiver, -net, -cpu, false) == Success(u)
  {
    hide Staking.ChangeBandwidth;
  }

  // One stake change alone

  function StakeOf(delegations: map<(Name, Name), Stake>, from: Name, to: Name): Stake {
    if (from, to) in delegations then delegations[(from, to)] else Stake(0, 0)
  }

  /** One delegation and its receiver's weights change by the given amounts, and no other. */
  ghost predicate EdgeMoves(s: State, t: State, from: Name, to: Name, net: int, cpu: int) {
    && StakeOf(t.delegations, from, to)
       == Stake(StakeOf(s.delegations, from, to).net + net, StakeOf(s.delegations, from, to).cpu + cpu)
    && (forall a: Name, b: Name :: (a, b) != (from, to) ==> StakeOf(t.delegations, a, b) == StakeOf(s.delegations, a, b))
    && (forall kind, a :: Weight(t.resources, kind, a) == Weight(s.resources, kind, a) + if a == to then Change(kind, net, cpu) else 0)
  }

  lemma TablesMove(s: State, t: State, from: Name, to: Name, net: int, cpu: int)
    requires StakesOk(s.delegations) && ResourcesOk(s.resources)
    requires Staking.ChangeDelegation(s.delegations, from, to, net, cpu) == Success(t.delegations)
    requires Staking.ChangeTotals(s.resources, to, net, cpu) == Success(t.resources)
    ensures EdgeMoves(s, t, from, to, net, cpu)
  {
    hide Staking.ChangeDelegation, Staking.ChangeTotals, Weight, Inbound, Total, StakesOk, ResourcesOk;
    ChangeDelegationStakes(s.delegations, from, to, net, cpu);
    ChangeTotalsWeights(s.resources, to, net, cpu);
  }

  /** What a delegation takes from its source: all of it if the stake goes to another or is given away;
      what pending refunds do not cover if it is its own. */
  function Due(s: State, source: Name, receiver: Name, net: int, cpu: int, transfer: bool): int {
    if transfer then net + cpu else Taken(s, source, receiver, net, cpu)
  }

  /** A delegation belongs to its source, or to the receiver if the stake is transferred; the source pays
      what is due, an own delegation drawing on the pending refund of each resource first. */
  lemma DelegationIsMade(s: State, t: State, now: int, from: Name, receiver: Name, net: int, cpu: int, transfer: bool)
    requires MaintInv(s, now) && User(from)
    requires Staking.Delegate(s, now, from, receiver, net, cpu, transfer) == Success(t)
    ensures EdgeMoves(s, t, if transfer then receiver else from, receiver, net, cpu)
    ensures var due := Due(s, from, receiver, net, cpu, transfer);
      && At(t.tokens, from) == At(s.tokens, from) - due && At(t.tokens, STAKE) == At(s.tokens, STAKE) + due
      && (forall a :: a != from && a != STAKE ==> At(t.tokens, a) == At(s.tokens, a))
    ensures transfer || from != receiver ==> t.refunds == s.refunds
    ensures !transfer && from == receiver ==>
      && (forall n :: n != from ==> (n in t.refunds <==> n in s.refunds) && (n in s.refunds ==> t.refunds[n] == s.refunds[n]))
      && Stakes.PendingOf(t.refunds, from, Net) == Max(0, Stakes.PendingOf(s.refunds, from, Net) - net)
      && Stakes.PendingOf(t.refunds, from, Cpu) == Max(0, Stakes.PendingOf(s.refunds, from, Cpu) - cpu)
  {
    hide RexInv, WeightsAgree, StakesOk, ResourcesOk, RefundsOk, NamesFunded, Token.NoneOverdrawn, Staking.ChangeDelegation,
         Staking.ChangeTotals, Staking.Settle, Staking.ChangeBandwidth, Staking.Delegate, Total, Token.Transfer,
         Weight, Stakes.PendingOf, EdgeMoves;
    DelegateParts(s, t, now, from, receiver, net, cpu, transfer);
    BandwidthParts(s, t, now, from, receiver, net, cpu, transfer);
    var d := if transfer then receiver else from;
    TablesMove(s, t, d, receiver, net, cpu);
    Stakes.SettleBalances(s.refunds, now, d, net, cpu, !transfer && d == receiver);
    Stakes.SettlePerResource(s.refunds, now, d, net, cpu, !transfer && d == receiver);
    var due := Staking.Settle(s.refunds, now, d, net, cpu, !transfer && d == receiver).value.due;
    if 0 < due { Token.TransferMoves(s.tokens, from, STAKE, due); }
  }

  /** Undelegated stake leaves the delegation and its receiver's weights, and waits in full in the refund of
      its owner, whose term starts over; no tokens move yet. */
  lemma UndelegatedWaits(s: State, t: State, now: int, from: Name, receiver: Name, net: int, cpu: int)
    requires MaintInv(s, now) && User(from)
    requires Staking.Undelegate(s, now, from, receiver, net, cpu) == Success(t)
    ensures EdgeMoves(s, t, from, receiver, -net, -cpu)
    ensures t.tokens == s.tokens
    ensures forall n :: n != from ==> (n in t.refunds <==> n in s.refunds) && (n in s.refunds ==> t.refunds[n] == s.refunds[n])
    ensures from in t.refunds
    ensures t.refunds[from] == Refund(Seconds(now), Stakes.PendingOf(s.refunds, from, Net) + net,
                                      Stakes.PendingOf(s.refunds, from, Cpu) + cpu)
  {
    hide RexInv, WeightsAgree, StakesOk, ResourcesOk, RefundsOk, NamesFunded, Token.NoneOverdrawn, Staking.ChangeDelegation,
         Staking.ChangeTotals, Staking.Settle, Staking.ChangeBandwidth, Staking.Undelegate, Total, Token.Transfer,
         Weight, Stakes.PendingOf, EdgeMoves, SteppedDown;
    UndelegateParts(s, t, now, from, receiver, net, cpu);
    var d := SteppedDown(s, from);
    BandwidthParts(d, t, now, from, receiver, -net, -cpu, false);
    TablesMove(d, t, from, receiver, -net, -cpu);
    EdgeOf(s, d, t, from, receiver, -net, -cpu);
    Stakes.SettleBalances(s.refunds, now, from, -net, -cpu, from == receiver);
    Stakes.SettlePerResource(s.refunds, now, from, -net, -cpu, from == receiver);
  }

  lemma EdgeOf(s: State, d: State, t: State, from: Name, to: Name, net: int, cpu: int)
    requires d == s.(votes := d.votes) && EdgeMoves(d, t, from, to, net, cpu)
    ensures EdgeMoves(s, t, from, to, net, cpu)
  {
  }
}
