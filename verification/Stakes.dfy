/** Staking conserves tokens: what the stake account holds moves with delegations and refunds. */
module Stakes {
  import opened Outcomes
  import opened Arithmetic
  import opened Sums
  import opened Chain
  import opened Loans
  import opened Ledger
  import opened Staking
  import opened Exchange
  import Token
  import Maturity
  import Pools
  import Voting
  import VotingProofs

  // Netting against a pending refund

  function PendingOf(refunds: map<Name, Refund>, owner: Name, kind: LoanKind): int {
    if owner in refunds then (if kind == Net then refunds[owner].net else refunds[owner].cpu) else 0
  }

  /** A stake change never has opposite signs. */
  predicate SameSign(net: int, cpu: int) {
    (0 <= net && 0 <= cpu) || (net <= 0 && cpu <= 0)
  }

  /** Netting never fails; it keeps refund rows positive, and what pending refunds do not absorb is
      exactly what has to be paid in. */
  lemma SettleBalances(refunds: map<Name, Refund>, now: int, owner: Name, net: int, cpu: int, toSelf: bool)
    requires RefundsOk(refunds) && SameSign(net, cpu)
    ensures Settle(refunds, now, owner, net, cpu, toSelf).Success?
    ensures var t := Settle(refunds, now, owner, net, cpu, toSelf).value;
      && RefundsOk(t.refunds) && 0 <= t.due
      && Total(RefundsOf(t.refunds)) == Total(RefundsOf(refunds)) - (net + cpu) + t.due
  {
    hide Total;
    var t := Settle(refunds, now, owner, net, cpu, toSelf).value;
    if owner in t.refunds { RefundsUpdate(refunds, owner, t.refunds[owner]); }
    RefundsUpdate(refunds, owner, Refund(0, 0, 0));
    assert owner !in refunds ==> refunds - {owner} == refunds;
  }

  /** Each resource of an own delegation is first taken out of that resource's pending refund, and
      only the rest is paid in; a withdrawal waits in full, its term starting over; a delegation to
      another account leaves pending refunds alone. */
  lemma SettlePerResource(refunds: map<Name, Refund>, now: int, owner: Name, net: int, cpu: int, toSelf: bool)
    requires RefundsOk(refunds) && SameSign(net, cpu) && (net != 0 || cpu != 0)
    ensures var t := Settle(refunds, now, owner, net, cpu, toSelf).value;
      var pendingNet := PendingOf(refunds, owner, Net);
      var pendingCpu := PendingOf(refunds, owner, Cpu);
      && (forall n :: n != owner ==> (n in t.refunds <==> n in refunds) && (n in refunds ==> t.refunds[n] == refunds[n]))
      && (net + cpu < 0 ==>
            && t.due == 0 && owner in t.refunds
            && t.refunds[owner] == Refund(Seconds(now), pendingNet - net, pendingCpu - cpu))
      && (0 < net + cpu && toSelf ==>
            && t.due == Max(0, net - pendingNet) + Max(0, cpu - pendingCpu)
            && PendingOf(t.refunds, owner, Net) == Max(0, pendingNet - net)
            && PendingOf(t.refunds, owner, Cpu) == Max(0, pendingCpu - cpu)
            && (owner in t.refunds ==> t.refunds[owner].time == refunds[owner].time))
      && (0 < net + cpu && !toSelf ==> t.due == net + cpu && t.refunds == refunds)
  {
    SettleBalances(refunds, now, owner, net, cpu, toSelf);
  }

  // Steps of a stake change

  lemma UpdateRexStakeKeeps(s: State, now: int, voter: Name)
    requires Whole(s, now)
    ensures var t := UpdateRexStake(s, voter);
      && Whole(t, now) && t == s.(balances := t.balances, votes := t.votes)
      && RexSurplus(t) == RexSurplus(s)
      && VotingProofs.SameUnpaid(s.votes.voters, t.votes.voters)
      && (voter in s.votes.voters ==>
            voter in t.votes.voters && t.votes.voters[voter].lastWeight == s.votes.voters[voter].lastWeight)
  {
    hide MaintInv, VotingProofs.VoteInv, RexSurplus, Maturity.Healthy;
    if voter in s.balances && Pools.Available(s.pool) {
      var b := s.balances[voter];
      var stake := Pools.ValueOf(s.pool.value, b.rex);
      OwnerRow(s, now, voter);
      RestakedHealthy(b, now, stake);
      BalanceRowKeeps(s, now, voter, b.(voteStake := stake));
      if stake != b.voteStake && voter in s.votes.voters {
        var row := s.votes.voters[voter];
        var row' := row.(staked := row.staked + stake - b.voteStake);
        VotingProofs.VoterRowKeeps(s.votes, now, voter, row');
        assert s.votes.(voters := s.votes.voters[voter := row'])
            == s.votes.(voters := s.votes.voters[voter := row'], unpaidVotes := s.votes.unpaidVotes + 0);
        VotesKeep(s.(balances := s.balances[voter := b.(voteStake := stake)]), now, s.votes.(voters := s.votes.voters[voter := row']));
      }
    }
  }

  /** Delegations and resource totals change together; once the delegation may change, so may the
      totals: their checks cannot fail. */
  lemma StakeTablesKeep(s: State, now: int, from: Name, receiver: Name, net: int, cpu: int)
    requires MaintInv(s, now) && ChangeDelegation(s.delegations, from, receiver, net, cpu).Success?
    ensures ChangeTotals(s.resources, receiver, net, cpu).Success?
    ensures var delegations := ChangeDelegation(s.delegations, from, receiver, net, cpu).value;
      var resources := ChangeTotals(s.resources, receiver, net, cpu).value;
      && MaintInv(s.(delegations := delegations, resources := resources), now)
      && Total(StakesOf(delegations)) == Total(StakesOf(s.delegations)) + net + cpu
  {
    hide PoolOk, BalancesOk, OrdersOk, InTimeOrder, Total, ChangeDelegation, ChangeTotals, Inbound, StakedTo;
    ChangeDelegationStakes(s.delegations, from, receiver, net, cpu);
    ChangeTotalsWeights(s.resources, receiver, net, cpu);
    var delegations := ChangeDelegation(s.delegations, from, receiver, net, cpu).value;
    InboundNonneg(delegations, Net, receiver);
    InboundNonneg(delegations, Cpu, receiver);
    LoansStakeNonneg(s, now, receiver);
  }

  /** The tokens of a stake change: the surplus of the stake account is as before the change. */
  lemma SettleStakeKeeps(s: State, now: int, source: Name, from: Name, receiver: Name, net: int, cpu: int, transfer: bool)
    requires MaintInv(s, now) && User(source) && SameSign(net, cpu)
    requires SettleStake(s, now, source, from, receiver, net, cpu, transfer).Success?
    ensures var t := SettleStake(s, now, source, from, receiver, net, cpu, transfer).value;
      && MaintInv(t, now) && t == s.(refunds := t.refunds, tokens := t.tokens)
      && StakeSurplus(t) == StakeSurplus(s) + net + cpu
      && Total(t.tokens) == Total(s.tokens)
      && (forall a :: a != source && a != STAKE ==> At(t.tokens, a) == At(s.tokens, a))
  {
    hide RexInv, Total, WeightsAgree, StakesOk, ResourcesOk, RefundsOk, Settle, Token.NoneOverdrawn;
    SettleBalances(s.refunds, now, from, net, cpu, !transfer && from == receiver);
    var settlement := Settle(s.refunds, now, from, net, cpu, !transfer && from == receiver).value;
    RefundsKeep(s, now, settlement.refunds);
    if 0 < settlement.due {
      Token.TransferMoves(s.tokens, source, STAKE, settlement.due);
      TokensKeep(s.(refunds := settlement.refunds), now, Token.Transfer(s.tokens, source, STAKE, settlement.due).value);
    }
  }

  lemma RefundsKeep(s: State, now: int, refunds: map<Name, Refund>)
    requires MaintInv(s, now) && RefundsOk(refunds)
    ensures MaintInv(s.(refunds := refunds), now)
  {
  }

  lemma SignsAgree(net: int, cpu: int)
    requires Max(Abs(net), Abs(cpu)) <= Abs(net + cpu)
    ensures SameSign(net, cpu)
  {
  }

  /** A stake change conserves tokens and keeps the resource totals in agreement with delegations
      and loans. */
  lemma ChangeBandwidthKeeps(s: State, now: int, source: Name, receiver: Name, net: int, cpu: int, transfer: bool)
    requires Whole(s, now) && User(source)
    requires ChangeBandwidth(s, now, source, receiver, net, cpu, transfer).Success?
    ensures Sustained(s, ChangeBandwidth(s, now, source, receiver, net, cpu, transfer).value, now)
  {
    hide MaintInv, VotingProofs.VoteInv, Total, RexSurplus, ChangeDelegation, ChangeTotals, SettleStake, UpdateRexStake,
         Voting.UpdateVotingPower, Abs, Max;
    SignsAgree(net, cpu);
    var from := if transfer then receiver else source;
    StakeTablesKeep(s, now, from, receiver, net, cpu);
    var booked := s.(delegations := ChangeDelegation(s.delegations, from, receiver, net, cpu).value,
                     resources := ChangeTotals(s.resources, receiver, net, cpu).value);
    SettleStakeKeeps(booked, now, source, from, receiver, net, cpu, transfer);
    var settled := SettleStake(booked, now, source, from, receiver, net, cpu, transfer).value;
    UpdateRexStakeKeeps(settled, now, from);
    var revalued := UpdateRexStake(settled, from);
    VotingProofs.UpdateVotingPowerKeeps(revalued.votes, now, from, net + cpu);
    var t := ChangeBandwidth(s, now, source, receiver, net, cpu, transfer).value;
    VotesKeep(revalued, now, t.votes);
    assert RexSurplus(settled) == RexSurplus(s) by { SurplusParts(settled); SurplusParts(s); }
    PriceHeldSame(s);
  }

  // Actions

  lemma DelegateKeeps(s: State, now: int, from: Name, receiver: Name, net: int, cpu: int, transfer: bool)
    requires Whole(s, now) && User(from) && Delegate(s, now, from, receiver, net, cpu, transfer).Success?
    ensures Sustained(s, Delegate(s, now, from, receiver, net, cpu, transfer).value, now)
  {
    hide Whole, Conserved;
    ChangeBandwidthKeeps(s, now, from, receiver, net, cpu, transfer);
  }

  lemma UndelegateKeeps(s: State, now: int, from: Name, receiver: Name, net: int, cpu: int)
    requires Whole(s, now) && User(from) && Undelegate(s, now, from, receiver, net, cpu).Success?
    ensures Sustained(s, Undelegate(s, now, from, receiver, net, cpu).value, now)
  {
    hide MaintInv, VotingProofs.VoteInv, RexSurplus, StakeSurplus, Total, ChangeBandwidth, Voting.Deactivate;
    var deactivated := 1000000 < s.votes.voters[from].staked;
    var votes := if deactivated then Voting.Deactivate(s.votes, from).value else s.votes;
    if deactivated { DeactivateVotes(s.votes, now, from); }
    VotesKeep(s, now, votes);
    ChangeBandwidthKeeps(s.(votes := votes), now, from, receiver, -net, -cpu, false);
  }

  lemma DeactivateVotes(v: Votes, now: int, name: Name)
    requires VotingProofs.VoteInv(v, now) && Voting.Deactivate(v, name).Success?
    ensures VotingProofs.VoteInv(Voting.Deactivate(v, name).value, now)
    ensures Voting.Deactivate(v, name).value.voters == v.voters
  {
    VotingProofs.DeactivateKeeps(v, now, name);
  }

  /** A refund pays exactly what was waiting; given that the stake account covers what it owes, it
      is never short. */
  lemma ClaimRefundKeeps(s: State, now: int, owner: Name)
    requires Whole(s, now) && User(owner) && ClaimRefund(s, now, owner).Success?
    ensures Sustained(s, ClaimRefund(s, now, owner).value, now)
  {
    hide RexInv, VotingProofs.VoteInv, Total, WeightsAgree, Token.NoneOverdrawn;
    RefundsUpdate(s.refunds, owner, s.refunds[owner]);
    Token.TransferMoves(s.tokens, STAKE, owner, s.refunds[owner].net + s.refunds[owner].cpu);
    var t := ClaimRefund(s, now, owner).value;
    RefundsKeep(s, now, t.refunds);
    TokensKeep(s.(refunds := t.refunds), now, t.tokens);
    assert t == s.(refunds := t.refunds, tokens := t.tokens);
    assert RexSurplus(t) == RexSurplus(s) by { SurplusParts(t); SurplusParts(s); }
    PriceHeldSame(s);
  }

  /** The refund is refused only before its time: a due refund is always paid, in full, to its owner,
      and then gone. */
  lemma RefundIsPaid(s: State, now: int, owner: Name)
    requires MaintInv(s, now) && 0 <= StakeSurplus(s) && User(owner) && owner in s.refunds
    ensures ClaimRefund(s, now, owner).Success? <==> s.refunds[owner].time * SECOND + REFUND_DELAY <= now
    ensures ClaimRefund(s, now, owner).Success? ==>
      var t := ClaimRefund(s, now, owner).value;
      && At(t.tokens, owner) == At(s.tokens, owner) + s.refunds[owner].net + s.refunds[owner].cpu
      && owner !in t.refunds
  {
    hide RexInv, WeightsAgree, Total;
    forall n | n in s.refunds ensures 0 <= RefundsOf(s.refunds)[n] {
    }
    TotalAtLeast(RefundsOf(s.refunds), owner);
    TotalNonneg(StakesOf(s.delegations));
    Token.TransferMoves(s.tokens, STAKE, owner, s.refunds[owner].net + s.refunds[owner].cpu);
  }
}
