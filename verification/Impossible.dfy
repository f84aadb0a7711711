/** The checks that the source calls impossible to fail are: no action of any run aborts on one. */
module Impossible {
  import opened Outcomes
  import opened Arithmetic
  import opened Chain
  import opened Ledger
  import opened Rex
  import opened System
  import opened Exchange
  import opened Runs
  import Loans
  import Maintenance
  import Maturity
  import Pools
  import Stakes
  import Staking
  import Sums
  import Token
  import Voting
  import VotingProofs

  /** A result that is no internal error. */
  predicate Sane<T>(r: Result<T>) {
    r.Failure? ==> !Internal(r.error)
  }

  // Steps that fail for their callers' reasons alone

  lemma TransferSane(tokens: Tokens, from: Name, to: Name, amount: int)
    ensures Sane(Token.Transfer(tokens, from, to, amount))
  {
  }

  lemma VotingPowerSane(v: Votes, now: int, name: Name, delta: int)
    ensures Sane(Voting.UpdateVotingPower(v, now, name, delta))
  {
    hide Voting.ApplyDeltas, Voting.UpdateTotalShare, Voting.B1Locked, Voting.VoteDeltas;
  }

  lemma AccountSane(s: State, now: int, owner: Name, proceeds: int, stakeChange: int, force: bool)
    ensures Sane(UpdateRexAccount(s, now, owner, proceeds, stakeChange, force))
  {
    hide Voting.UpdateVotingPower;
    UpdateRexAccountSteps(s, now, owner, proceeds, stakeChange, force);
    var filled := owner in s.orders && !s.orders[owner].open;
    VotingPowerSane(s.votes, now, owner, stakeChange + if filled then s.orders[owner].stakeChange else 0);
  }

  /** Maintenance fails only if there is no pool yet. */
  lemma RunRexSane(s: State, now: int, max: nat)
    requires MaintInv(s, now)
    ensures Sane(RunRex(s, now, max))
    ensures RunRex(s, now, max).Success? <==> s.pool.Some?
  {
    hide MaintInv, SweepNamebids, ExpireLoans, FillOrders;
    if s.pool.Some? { Maintenance.RunRexKeeps(s, now, max); }
  }

  // Actions of the exchange

  lemma WithdrawSane(s: State, now: int, owner: Name, amount: int)
    ensures Sane(Rex.Withdraw(s, now, owner, amount))
  {
    hide UpdateRexAccount, Token.Transfer;
    AccountSane(s, now, owner, 0, 0, false);
    var r := UpdateRexAccount(s, now, owner, 0, 0, false);
    if r.Success? { TransferSane(s.tokens, REX, owner, amount); }
  }

  /** A purchase goes through, and so does what follows it but for the owner's vote stake. */
  lemma PurchaseSane(s: State, now: int, owner: Name, payment: int)
    requires MaintInv(s, now) && InEpoch(now) && 0 < payment
    ensures Purchase(s, now, owner, payment).Success?
    ensures var bought := Purchase(s, now, owner, payment).value.0;
      && RunRex(bought, now, MAINTENANCE).Success?
      && forall change, force :: Sane(UpdateRexAccount(RunRex(bought, now, MAINTENANCE).value, now, owner, 0, change, force))
  {
    hide MaintInv, RunRex, UpdateRexAccount, Purchase, PriceHeld, RexSurplus;
    PurchaseKeeps(s, now, owner, payment);
    var bought := Purchase(s, now, owner, payment).value.0;
    RunRexSane(bought, now, MAINTENANCE);
    forall change, force ensures Sane(UpdateRexAccount(RunRex(bought, now, MAINTENANCE).value, now, owner, 0, change, force)) {
      AccountSane(RunRex(bought, now, MAINTENANCE).value, now, owner, 0, change, force);
    }
  }

  lemma BuyRexSane(s: State, now: int, owner: Name, amount: int)
    requires Whole(s, now) && InEpoch(now)
    ensures Sane(Rex.BuyRex(s, now, owner, amount))
  {
    hide MaintInv, VotingProofs.VoteInv, UpdateRexAccount, RunRex, Purchase, TransferFromFund, PriceHeld;
    var paid := TransferFromFund(s, owner, amount);
    FundSane(s, owner, amount);
    if 0 < amount && paid.Success? {
      FromFundKeeps(s, now, owner, amount);
      PurchaseSane(paid.value, now, owner, amount);
    }
  }

  lemma FundSane(s: State, owner: Name, amount: int)
    ensures Sane(TransferFromFund(s, owner, amount))
  {
  }

  lemma DelegationSane(s: State, from: Name, to: Name, net: int, cpu: int)
    ensures Sane(Staking.ChangeDelegation(s.delegations, from, to, net, cpu))
  {
  }

  /** Once the delegation has shrunk, the receiver's totals can. */
  lemma UnstakeSane(s: State, now: int, owner: Name, receiver: Name, net: int, cpu: int)
    requires MaintInv(s, now)
    ensures Sane(Unstake(s, owner, receiver, net, cpu))
  {
    hide MaintInv, Sums.Total, StakesOf, MayBuyRex, Token.Transfer, Staking.ChangeDelegation, Staking.UpdateResources;
    DelegationSane(s, owner, receiver, -net, -cpu);
    TransferSane(s.tokens, STAKE, REX, net + cpu);
    if Staking.ChangeDelegation(s.delegations, owner, receiver, -net, -cpu).Success? {
      UnstakeTables(s, now, owner, receiver, net, cpu);
    }
  }

  lemma UnstakeToRexSane(s: State, now: int, owner: Name, receiver: Name, net: int, cpu: int)
    requires Whole(s, now) && InEpoch(now)
    ensures Sane(Rex.UnstakeToRex(s, now, owner, receiver, net, cpu))
  {
    hide MaintInv, VotingProofs.VoteInv, UpdateRexAccount, RunRex, Purchase, Unstake, RexSurplus, StakeSurplus;
    UnstakeSane(s, now, owner, receiver, net, cpu);
    var unstaked := Unstake(s, owner, receiver, net, cpu);
    if unstaked.Success? {
      UnstakeKeeps(s, now, owner, receiver, net, cpu);
      PurchaseSane(unstaked.value, now, owner, net + cpu);
    }
  }

  /** A sale never divides by zero: whoever has matured REX keeps the pool from being empty. */
  lemma SaleSane(m: State, now: int, owner: Name, rex: int)
    requires MaintInv(m, now) && InEpoch(now) && m.pool.Some? && owner in m.balances
    requires 0 < rex <= Maturity.Mature(m.balances[owner], Seconds(now)).matured
    ensures Pools.Sell(m.pool.value, Maturity.Mature(m.balances[owner], Seconds(now)), rex).Success?
  {
    hide WeightsAgree, Staking.ChangeTotals, InTimeOrder, Loans.LoansOk, Maturity.Mature, Maturity.Shape, Pools.Sell;
    var b := Maturity.Mature(m.balances[owner], Seconds(now));
    Maturity.MatureHealthy(m.balances[owner], now);
    ShareAtMost(m.balances, now, owner);
    Maturity.SumsNonneg(b.buckets, 0);
    Pools.SellKeeps(m.pool.value, b, rex);
  }

  lemma SellRexSane(s: State, now: int, owner: Name, rex: int)
    requires Whole(s, now) && InEpoch(now)
    ensures Sane(Rex.SellRex(s, now, owner, rex))
  {
    hide MaintInv, VotingProofs.VoteInv, UpdateRexAccount, RunRex, Pools.Sell, Maturity.Mature, QueueOrder, Maintenance.Untouched,
         RexSurplus, Pools.PriceKept;
    RunRexSane(s, now, MAINTENANCE);
    if s.pool.Some? {
      Maintenance.RunRexKeeps(s, now, MAINTENANCE);
      var m := RunRex(s, now, MAINTENANCE).value;
      if owner in m.balances && 0 < rex <= Maturity.Mature(m.balances[owner], Seconds(now)).matured {
        SaleSane(m, now, owner, rex);
        var b := Maturity.Mature(m.balances[owner], Seconds(now));
        match Pools.Sell(m.pool.value, b, rex).value
        case Filled(pool, left, proceeds, stakeChange) =>
          AccountSane(m.(pool := Some(pool), balances := m.balances[owner := left]), now, owner, proceeds, stakeChange, false);
        case Unfilled =>
          AccountSane(m.(balances := m.balances[owner := b]), now, owner, 0, 0, false);
      }
    }
  }

  lemma RentSane(s: State, now: int, kind: LoanKind, owner: Name, receiver: Name, payment: int, fund: int)
    requires Whole(s, now)
    ensures Sane(Rex.Rent(s, now, kind, owner, receiver, payment, fund))
  {
    hide MaintInv, VotingProofs.VoteInv, RunRex, TransferFromFund, StakeTo, Pools.BancorOutput, Pools.AddLoan, Loans.Insert,
         Pools.PriceKept, Maintenance.Untouched, RexSurplus, Pools.Sound;
    RunRexSane(s, now, MAINTENANCE);
    if s.pool.Some? {
      Maintenance.RunRexKeeps(s, now, MAINTENANCE);
      var m := RunRex(s, now, MAINTENANCE).value;
      FundSane(m, owner, payment + fund);
      var paid := TransferFromFund(m, owner, payment + fund);
      if paid.Success? && LoansAvailable(m) && 0 < payment && 0 <= fund {
        FromFundKeeps(m, now, owner, payment + fund);
        var p := m.pool.value;
        Maintenance.PoolIsSound(m, now);
        Pools.AddLoanKeeps(p, payment, true);
        if payment < Pools.BancorOutput(p.rent, p.unlent, payment).value {
          NewLoanKeeps(paid.value, now, kind, owner, receiver, payment, fund);
        }
      }
    }
  }

  lemma LoanFundsSane(s: State, now: int, kind: LoanKind, owner: Name, num: nat, amount: int)
    ensures Sane(Rex.FundLoan(s, now, kind, owner, num, amount))
    ensures Sane(Rex.DefundLoan(s, now, kind, owner, num, amount))
  {
    hide Loans.Find;
  }

  lemma UpdateRexSane(s: State, now: int, owner: Name)
    requires MaintInv(s, now)
    ensures Sane(Rex.UpdateRex(s, now, owner))
  {
    hide MaintInv, UpdateRexAccount, RunRex, Maturity.Mature, Pools.ValueOf;
    RunRexSane(s, now, MAINTENANCE);
    if s.pool.Some? {
      var m := RunRex(s, now, MAINTENANCE).value;
      if owner in m.balances {
        var b := m.balances[owner];
        var stake := if 0 < m.pool.value.rex then Pools.ValueOf(m.pool.value, b.rex) else 0;
        AccountSane(m.(balances := m.balances[owner := b.(voteStake := stake)]), now, owner, 0, stake - b.voteStake, true);
      }
    }
  }

  /** Consolidating and closing fail only where maintenance or the owner's account does, or on what
      the owner still holds. */
  lemma AccountActionsSane(s: State, now: int, owner: Name)
    requires MaintInv(s, now)
    ensures Sane(Rex.Consolidate(s, now, owner)) && Sane(Rex.CloseRex(s, now, owner))
  {
    hide MaintInv, UpdateRexAccount, RunRex, Maturity.Consolidate, Loans.HasOwner;
    RunRexSane(s, now, MAINTENANCE);
    var m := if s.pool.Some? then RunRex(s, now, MAINTENANCE).value else s;
    AccountSane(m, now, owner, 0, 0, false);
  }

  /** The two internal checks of moving REX to savings hold in every state that keeps the invariant. */
  lemma MoveToSavingsSane(s: State, now: int, owner: Name, rex: int)
    requires Whole(s, now) && InEpoch(now)
    ensures Sane(Rex.MoveToSavings(s, now, owner, rex))
  {
    hide MaintInv, VotingProofs.VoteInv, UpdateRexAccount, RunRex, Maturity.MoveToSavings, Maturity.Healthy, Maintenance.Untouched,
         RexSurplus, Pools.PriceKept;
    RunRexSane(s, now, MAINTENANCE);
    if s.pool.Some? {
      Maintenance.RunRexKeeps(s, now, MAINTENANCE);
      var m := RunRex(s, now, MAINTENANCE).value;
      MaintainedWhole(s, m, now);
      AccountSane(m, now, owner, 0, 0, false);
      var r := UpdateRexAccount(m, now, owner, 0, 0, false);
      if owner in m.balances && 0 < rex && r.Success? {
        UpdateRexAccountKeeps(m, now, owner, 0, 0, false);
        var (updated, inOrder) := r.value;
        OwnerRow(updated, now, owner);
        HealthyMatured(m.balances[owner], now);
        MoveToSavingsRefused(m.balances[owner], now, rex, inOrder);
      }
    }
  }

  lemma MoveToSavingsRefused(b: Balance, now: int, rex: int, inOrder: int)
    requires InEpoch(now) && Maturity.Healthy(b, now) && 0 < rex && 0 <= inOrder <= b.matured
    ensures Sane(Maturity.MoveToSavings(b, now, rex, inOrder))
  {
    hide Maturity.Healthy, Maturity.Mature, Maturity.TakeFurthest;
    Maturity.MoveToSavingsKeeps(b, now, rex, inOrder, Seconds(now));
  }

  lemma MoveFromSavingsSane(s: State, now: int, owner: Name, rex: int)
    requires MaintInv(s, now)
    ensures Sane(Rex.MoveFromSavings(s, now, owner, rex))
  {
    hide MaintInv, UpdateRexAccount, RunRex, Maturity.Mature;
    RunRexSane(s, now, MAINTENANCE);
    if s.pool.Some? {
      var m := RunRex(s, now, MAINTENANCE).value;
      if owner in m.balances && Maturity.MoveFromSavings(m.balances[owner], now, rex).Success? {
        var b := Maturity.MoveFromSavings(m.balances[owner], now, rex).value;
        AccountSane(m.(balances := m.balances[owner := b]), now, owner, 0, 0, false);
      }
    }
  }

  // Actions on stakes

  /** The checks on totals and on refunds cannot fail once those on the delegation pass. */
  lemma ChangeBandwidthSane(s: State, now: int, source: Name, receiver: Name, net: int, cpu: int, transfer: bool)
    requires MaintInv(s, now)
    ensures Sane(Staking.ChangeBandwidth(s, now, source, receiver, net, cpu, transfer))
  {
    hide MaintInv, Staking.ChangeDelegation, Staking.ChangeTotals, Staking.SettleStake, Staking.UpdateRexStake,
         Voting.UpdateVotingPower, Abs, Max;
    var from := if transfer then receiver else source;
    DelegationSane(s, from, receiver, net, cpu);
    var delegations := Staking.ChangeDelegation(s.delegations, from, receiver, net, cpu);
    if Max(Abs(net), Abs(cpu)) <= Abs(net + cpu) && delegations.Success? {
      Stakes.SignsAgree(net, cpu);
      Stakes.StakeTablesKeep(s, now, from, receiver, net, cpu);
      var booked := s.(delegations := delegations.value,
                       resources := Staking.ChangeTotals(s.resources, receiver, net, cpu).value);
      SettleSane(booked, now, source, from, receiver, net, cpu, transfer);
      var settled := Staking.SettleStake(booked, now, source, from, receiver, net, cpu, transfer);
      if settled.Success? {
        VotingPowerSane(Staking.UpdateRexStake(settled.value, from).votes, now, from, net + cpu);
      }
    }
  }

  lemma SettleSane(s: State, now: int, source: Name, from: Name, receiver: Name, net: int, cpu: int, transfer: bool)
    requires MaintInv(s, now) && Stakes.SameSign(net, cpu)
    ensures Sane(Staking.SettleStake(s, now, source, from, receiver, net, cpu, transfer))
  {
    hide RexInv, WeightsAgree, Staking.Settle, Token.Transfer;
    var toSelf := !transfer && from == receiver;
    Stakes.SettleBalances(s.refunds, now, from, net, cpu, toSelf);
    var due := Staking.Settle(s.refunds, now, from, net, cpu, toSelf).value.due;
    TransferSane(s.tokens, source, STAKE, due);
  }

  lemma DelegateSane(s: State, now: int, from: Name, receiver: Name, net: int, cpu: int, transfer: bool)
    requires MaintInv(s, now)
    ensures Sane(Staking.Delegate(s, now, from, receiver, net, cpu, transfer))
  {
    hide MaintInv, Staking.ChangeBandwidth;
    ChangeBandwidthSane(s, now, from, receiver, net, cpu, transfer);
  }

  lemma UndelegateSane(s: State, now: int, from: Name, receiver: Name, net: int, cpu: int)
    requires MaintInv(s, now)
    ensures Sane(Staking.Undelegate(s, now, from, receiver, net, cpu))
  {
    hide MaintInv, Staking.ChangeBandwidth;
    if from in s.votes.voters {
      var votes := if 1000000 < s.votes.voters[from].staked then Voting.Deactivate(s.votes, from) else Success(s.votes);
      if votes.Success? {
        VotesKeep(s, now, votes.value);
        ChangeBandwidthSane(s.(votes := votes.value), now, from, receiver, -net, -cpu, false);
      }
    }
  }

  // The theorem

  lemma RexActionSane(s: State, now: int, a: Action)
    requires Whole(s, now) && InEpoch(now) && OnRex(a)
    ensures Sane(ApplyToRex(s, now, a))
  {
    hide MaintInv, VotingProofs.VoteInv, Rex.Withdraw, Rex.BuyRex, Rex.UnstakeToRex, Rex.SellRex, Rex.Rent, Rex.FundLoan,
         Rex.DefundLoan, Rex.UpdateRex, RunRex, Rex.Consolidate, Rex.MoveToSavings, Rex.MoveFromSavings, Rex.CloseRex, Rex.Deposit;
    match a
    case Deposit(owner, amount) => DepositSane(s, owner, amount);
    case Withdraw(owner, amount) => WithdrawSane(s, now, owner, amount);
    case BuyRex(owner, amount) => BuyRexSane(s, now, owner, amount);
    case UnstakeToRex(owner, receiver, net, cpu) => UnstakeToRexSane(s, now, owner, receiver, net, cpu);
    case SellRex(owner, rex) => SellRexSane(s, now, owner, rex);
    case CancelOrder(owner) =>
    case Rent(kind, owner, receiver, payment, fund) => RentSane(s, now, kind, owner, receiver, payment, fund);
    case FundLoan(kind, owner, num, amount) => LoanFundsSane(s, now, kind, owner, num, amount);
    case DefundLoan(kind, owner, num, amount) => LoanFundsSane(s, now, kind, owner, num, amount);
    case UpdateRex(owner) => UpdateRexSane(s, now, owner);
    case SetRex(balance) =>
    case RexExec(max) => RunRexSane(s, now, max);
    case Consolidate(owner) => AccountActionsSane(s, now, owner);
    case MoveToSavings(owner, rex) => MoveToSavingsSane(s, now, owner, rex);
    case MoveFromSavings(owner, rex) => MoveFromSavingsSane(s, now, owner, rex);
    case CloseRex(owner) => AccountActionsSane(s, now, owner);
  }

  lemma DepositSane(s: State, owner: Name, amount: int)
    ensures Sane(Rex.Deposit(s, owner, amount))
  {
  }

  lemma StakeActionSane(s: State, now: int, a: Action)
    requires Whole(s, now) && OnStakes(a)
    ensures Sane(ApplyToStakes(s, now, a))
  {
    hide MaintInv, VotingProofs.VoteInv, Staking.Delegate, Staking.Undelegate, Staking.ClaimRefund, CastVote;
    match a
    case Delegate(owner, receiver, net, cpu, transfer) => DelegateSane(s, now, owner, receiver, net, cpu, transfer);
    case Undelegate(owner, receiver, net, cpu) => UndelegateSane(s, now, owner, receiver, net, cpu);
    case ClaimRefund(owner) => RefundSane(s, now, owner);
    case ChangeRam(receiver, bytes) =>
    case VoteProducers(owner, producers) => VoteSane(s, now, owner, producers);
    case Register(owner) =>
    case Unregister(owner) =>
  }

  lemma RefundSane(s: State, now: int, owner: Name)
    ensures Sane(Staking.ClaimRefund(s, now, owner))
  {
  }

  lemma VoteSane(s: State, now: int, owner: Name, producers: seq<Name>)
    ensures Sane(CastVote(s, now, owner, producers))
  {
    hide Staking.UpdateRexStake, Voting.ApplyDeltas, Voting.VoteDeltas, Voting.UpdateTotalShare;
  }

  /** In no run does an action of the exchange or on stakes abort on a check that the source takes
      for impossible to fail, or divide by zero. */
  lemma NoInternalError(s: State, start: int, events: seq<Event>, at: int, a: Action)
    requires Inv(s, start) && Chronological(start, events) && AllPermitted(s, events)
    requires EndTime(start, events) <= at && InEpoch(at) && (OnRex(a) || OnStakes(a))
    ensures Sane(Apply(Run(s, events), at, a))
  {
    hide Run, ApplyToRex, ApplyToStakes, AllPermitted, Inv, Whole;
    RunKeepsInv(s, start, events);
    var t := Run(s, events);
    EndsInEpoch(start, events);
    InvLater(t, EndTime(start, events), at);
    assert Whole(t, at) by { InvWhole(t, at); }
    if OnRex(a) { RexActionSane(t, at, a); } else { StakeActionSane(t, at, a); }
  }

  lemma InvWhole(s: State, now: int)
    requires Inv(s, now)
    ensures Whole(s, now)
  {
  }

  lemma EndsInEpoch(start: int, events: seq<Event>)
    requires Chronological(start, events)
    ensures 0 <= EndTime(start, events)
  {
  }
}
