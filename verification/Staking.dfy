/** Tokens staked for network and CPU bandwidth: delegations, resource totals and refunds. */
module Staking {
  import opened Outcomes
  import opened Arithmetic
  import opened Chain
  import Token
  import Voting
  import Pools

  const REFUND_DELAY: int := 3 * DAY

  // Single tables

  /** Changes a receiver's resource totals on behalf of REX; an emptied row is erased. */
  function UpdateResources(resources: map<Name, Resources>, receiver: Name, net: int, cpu: int)
    : Result<map<Name, Resources>>
  {
    if net == 0 && cpu == 0 then Success(resources)
    else
      :- Need(receiver in resources || (0 <= net && 0 <= cpu), ResourceRowMissing);
      ChangeTotals(resources, receiver, net, cpu)
  }

  /** Adds to a receiver's resource totals, creating the row at need. */
  function ChangeTotals(resources: map<Name, Resources>, receiver: Name, net: int, cpu: int)
    : Result<map<Name, Resources>>
  {
    var row := if receiver in resources
               then resources[receiver].(net := resources[receiver].net + net, cpu := resources[receiver].cpu + cpu)
               else Resources(net, cpu, 0);
    :- Need(0 <= row.net, NegativeNetTotal);
    :- Need(0 <= row.cpu, NegativeCpuTotal);
    Success(if row == Resources(0, 0, 0) then resources - {receiver} else resources[receiver := row])
  }

  /** Adds to the stake delegated from one account to another, creating the row at need. */
  function ChangeDelegation(delegations: map<(Name, Name), Stake>, from: Name, to: Name, net: int, cpu: int)
    : Result<map<(Name, Name), Stake>>
  {
    var key := (from, to);
    var row := if key in delegations then Stake(delegations[key].net + net, delegations[key].cpu + cpu)
               else Stake(net, cpu);
    :- Need(0 <= row.net, NegativeNetStake);
    :- Need(0 <= row.cpu, NegativeCpuStake);
    Success(if row == Stake(0, 0) then delegations - {key} else delegations[key := row])
  }

  /** What is left to do after pending refunds absorbed a stake change. */
  datatype Settlement = Settlement(refunds: map<Name, Refund>, due: int)

  /** Nets a stake change against the owner's pending refund, resource by resource: a withdrawal
      waits in the refund row, an own delegation is first taken out of it. `due` is what the
      staker still has to pay in. */
  function Settle(refunds: map<Name, Refund>, now: int, owner: Name, net: int, cpu: int, toSelf: bool)
    : Result<Settlement>
  {
    if !toSelf && 0 <= net + cpu then Success(Settlement(refunds, net + cpu))
    else if owner in refunds then
      var row := refunds[owner];
      var netLeft := row.net - net;
      var cpuLeft := row.cpu - cpu;
      var row' := Refund(if net < 0 || cpu < 0 then Seconds(now) else row.time, Max(0, netLeft), Max(0, cpuLeft));
      :- Need(0 <= row'.net, NegativeNetRefund);
      :- Need(0 <= row'.cpu, NegativeCpuRefund);
      Success(Settlement(
                if row'.net == 0 && row'.cpu == 0 then refunds - {owner} else refunds[owner := row'],
                Max(0, -netLeft) + Max(0, -cpuLeft)))
    else if net < 0 || cpu < 0 then
      Success(Settlement(refunds[owner := Refund(Seconds(now), Max(0, -net), Max(0, -cpu))], Max(0, net) + Max(0, cpu)))
    else Success(Settlement(refunds, net + cpu))
  }

  // Actions

  /** Revalues a voter's REX at the current price and carries the change into its stake. */
  function UpdateRexStake(s: State, voter: Name): (t: State)
    ensures t == s.(balances := t.balances, votes := t.votes)
  {
    if voter in s.balances && Pools.Available(s.pool) then
      var b := s.balances[voter];
      var stake := Pools.ValueOf(s.pool.value, b.rex);
      var revalued := s.(balances := s.balances[voter := b.(voteStake := stake)]);
      if stake != b.voteStake && voter in s.votes.voters then
        var row := s.votes.voters[voter];
        revalued.(votes := s.votes.(voters := s.votes.voters[voter := row.(staked := row.staked + stake - b.voteStake)]))
      else revalued
    else s
  }

  /** Changes the stake `source` delegates to `receiver` (or, with `transfer`, gives to it). */
  function ChangeBandwidth(s: State, now: int, source: Name, receiver: Name, net: int, cpu: int, transfer: bool)
    : (r: Result<State>)
    ensures r.Success? ==>
      r.value == s.(tokens := r.value.tokens, delegations := r.value.delegations, resources := r.value.resources,
                    refunds := r.value.refunds, balances := r.value.balances, votes := r.value.votes)
  {
    if net == 0 && cpu == 0 then Failure(ZeroStake) else
    :- Need(Max(Abs(net), Abs(cpu)) <= Abs(net + cpu), OppositeSigns);
    var from := if transfer then receiver else source;
    var delegations :- ChangeDelegation(s.delegations, from, receiver, net, cpu);
    var resources :- ChangeTotals(s.resources, receiver, net, cpu);
    var booked := s.(delegations := delegations, resources := resources);
    var settled :- SettleStake(booked, now, source, from, receiver, net, cpu, transfer);
    var revalued := UpdateRexStake(settled, from);
    var votes :- Voting.UpdateVotingPower(revalued.votes, now, from, net + cpu);
    Success(revalued.(votes := votes))
  }

  /** Moves the tokens behind a stake change, except for the stake account itself. */
  function SettleStake(s: State, now: int, source: Name, from: Name, receiver: Name, net: int, cpu: int, transfer: bool)
    : (r: Result<State>)
    ensures r.Success? ==> r.value == s.(refunds := r.value.refunds, tokens := r.value.tokens)
  {
    if source == STAKE then Success(s)
    else
      var settlement :- Settle(s.refunds, now, from, net, cpu, !transfer && from == receiver);
      var settled := s.(refunds := settlement.refunds);
      if 0 < settlement.due then
        var tokens :- Token.Transfer(s.tokens, source, STAKE, settlement.due);
        Success(settled.(tokens := tokens))
      else Success(settled)
  }

  function Delegate(s: State, now: int, from: Name, receiver: Name, net: int, cpu: int, transfer: bool): Result<State> {
    if cpu < 0 || net < 0 || net + cpu <= 0 then Failure(MustBePositive) else
    :- Need(!transfer || from != receiver, SelfTransferStake);
    ChangeBandwidth(s, now, from, receiver, net, cpu, transfer)
  }

  /** Undelegating with more than 100 tokens staked also deactivates the account as a producer, and
      so aborts for an account that is none. */
  function Undelegate(s: State, now: int, from: Name, receiver: Name, net: int, cpu: int): Result<State> {
    if cpu < 0 || net < 0 || net + cpu <= 0 then Failure(MustBePositive) else
    :- Need(Voting.MIN_ACTIVATED_STAKE <= s.votes.activatedStake, ChainNotActivated);
    :- Need(from in s.votes.voters, NoVoter);
    var votes :- if 1000000 < s.votes.voters[from].staked then Voting.Deactivate(s.votes, from) else Success(s.votes);
    ChangeBandwidth(s.(votes := votes), now, from, receiver, -net, -cpu, false)
  }

  /** Pays out a refund three days after it was last requested. */
  function ClaimRefund(s: State, now: int, owner: Name): (r: Result<State>)
    ensures r.Success? ==> r.value == s.(tokens := r.value.tokens, refunds := s.refunds - {owner})
  {
    if owner !in s.refunds then Failure(NoRefund) else
    var row := s.refunds[owner];
    :- Need(row.time * SECOND + REFUND_DELAY <= now, RefundTooEarly);
    var tokens :- Token.Transfer(s.tokens, STAKE, owner, row.net + row.cpu);
    Success(s.(tokens := tokens, refunds := s.refunds - {owner}))
  }

  /** Buying RAM opens a receiver's row at need; selling takes bytes the row has. */
  function ChangeRam(s: State, receiver: Name, bytes: int): (r: Result<State>)
    ensures r.Success? ==> r.value == s.(resources := r.value.resources)
  {
    if bytes < 0 && receiver !in s.resources then Failure(NoResourceRow) else
    var row := if receiver in s.resources then s.resources[receiver] else Resources(0, 0, 0);
    :- Need(0 <= row.ram + bytes, InsufficientRam);
    Success(s.(resources := s.resources[receiver := row.(ram := row.ram + bytes)]))
  }
}
