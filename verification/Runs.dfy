/** One invariant over every run, and what follows from it. */
module Runs {
  import opened Outcomes
  import opened Arithmetic
  import opened Sums
  import opened Chain
  import opened Loans
  import opened Ledger
  import opened System
  import opened Exchange
  import opened RewardProofs
  import Maintenance
  import Maturity
  import Pools
  import Rewards
  import Rex
  import Stakes
  import Staking
  import Token
  import Voting
  import VotingProofs

  /** What holds between actions, in every run. */
  ghost predicate Inv(s: State, now: int) {
    && Whole(s, now) && PayInv(s.pay)
    && 0 <= RexSurplus(s) && 0 <= StakeSurplus(s) && Backed(s)
    && Total(s.tokens) == s.supply
  }

  /** Tokens simply sent to an account that the contract keeps for others. */
  function Gift(a: Action, to: Name): int {
    if a.Send? && a.to == to then a.amount else 0
  }

  /** A vote credits the voter toward rewards with its capped stake, which is no good if negative. */
  predicate Creditable(s: State, a: Action) {
    a.VoteProducers? ==>
      var voters := Staking.UpdateRexStake(s, a.owner).votes.voters;
      a.owner in voters ==> 0 <= voters[a.owner].unpaidVotes + Voting.VoteWeight(voters[a.owner].staked)
  }

  /** What an action that succeeds does to the books. */
  ghost predicate Effect(s: State, t: State, now: int, a: Action) {
    && Inv(t, now)
    && RexSurplus(t) == RexSurplus(s) + Gift(a, REX)
    && StakeSurplus(t) == StakeSurplus(s) + Gift(a, STAKE)
    && PriceHeld(s.pool, t.pool)
    && (VoteRewardsSafe(s) ==> (VoteRewardsSafe(t) <==> Creditable(s, a)))
  }

  lemma SustainedEffect(s: State, t: State, now: int, a: Action)
    requires Inv(s, now) && Sustained(s, t, now) && !a.Send? && !a.VoteProducers?
    ensures Effect(s, t, now, a)
  {
    hide Whole, PayInv, RexSurplus, StakeSurplus, PriceHeld, Total;
    forall n | n in t.votes.voters ensures t.votes.voters[n].unpaidVotes == VotingProofs.Unpaid(s.votes.voters, n) {
      assert VotingProofs.Unpaid(t.votes.voters, n) == VotingProofs.Unpaid(s.votes.voters, n);
    }
  }

  lemma RewardedEffect(s: State, t: State, now: int, a: Action)
    requires Inv(s, now) && Rewarded(s, t, now) && !a.Send? && !a.VoteProducers?
    requires VoteRewardsSafe(s) ==> VoteRewardsSafe(t)
    ensures Effect(s, t, now, a)
  {
    hide Whole, PayInv, RexSurplus, StakeSurplus, Total, VoteRewardsSafe;
    PriceHeldSame(s);
  }

  // Action by action

  lemma FundActionKeeps(s: State, now: int, a: Action)
    requires Inv(s, now) && InEpoch(now) && Permitted(s, a) && Apply(s, now, a).Success?
    requires OnRex(a) && !OnBalance(a)
    ensures Sustained(s, Apply(s, now, a).value, now)
  {
    hide Whole, PayInv, RexSurplus, StakeSurplus, Backed, Total, Sustained,
         Rex.Deposit, Rex.Withdraw, Rex.BuyRex, Rex.UnstakeToRex, Rex.SellRex, Rex.CancelOrder, Rex.SetRex, Rex.RunRex;
    match a
    case Deposit(owner, amount) => DepositKeeps(s, now, owner, amount);
    case Withdraw(owner, amount) => WithdrawKeeps(s, now, owner, amount);
    case BuyRex(owner, amount) => BuyRexKeeps(s, now, owner, amount);
    case UnstakeToRex(owner, receiver, net, cpu) => UnstakeToRexKeeps(s, now, owner, receiver, net, cpu);
    case SellRex(owner, rex) => SellRexKeeps(s, now, owner, rex);
    case CancelOrder(owner) => CancelOrderKeeps(s, now, owner);
    case SetRex(balance) => SetRexKeeps(s, now, balance);
    case RexExec(max) => RexExecKeeps(s, now, max);
  }

  lemma BalanceActionKeeps(s: State, now: int, a: Action)
    requires Inv(s, now) && InEpoch(now) && Permitted(s, a) && Apply(s, now, a).Success?
    requires OnBalance(a)
    ensures Sustained(s, Apply(s, now, a).value, now)
  {
    hide Whole, PayInv, RexSurplus, StakeSurplus, Backed, Total, Sustained,
         Rex.Rent, Rex.FundLoan, Rex.DefundLoan, Rex.UpdateRex, Rex.Consolidate, Rex.MoveToSavings, Rex.MoveFromSavings, Rex.CloseRex;
    match a
    case Rent(kind, owner, receiver, payment, fund) => RentKeeps(s, now, kind, owner, receiver, payment, fund);
    case FundLoan(kind, owner, num, amount) => FundLoanKeeps(s, now, kind, owner, num, amount);
    case DefundLoan(kind, owner, num, amount) => DefundLoanKeeps(s, now, kind, owner, num, amount);
    case UpdateRex(owner) => UpdateRexKeeps(s, now, owner);
    case Consolidate(owner) => ConsolidateKeeps(s, now, owner);
    case MoveToSavings(owner, rex) => MoveToSavingsKeeps(s, now, owner, rex);
    case MoveFromSavings(owner, rex) => MoveFromSavingsKeeps(s, now, owner, rex);
    case CloseRex(owner) => CloseRexKeeps(s, now, owner);
  }

  /** Votes that keep their invariant and what voters are to be paid change nothing else. */
  lemma VotesSustained(s: State, now: int, votes: Votes)
    requires Whole(s, now) && VotingProofs.VoteInv(votes, now) && VotingProofs.SameUnpaid(s.votes.voters, votes.voters)
    ensures Sustained(s, s.(votes := votes), now)
  {
    hide MaintInv, VotingProofs.VoteInv, RexSurplus, StakeSurplus, Total, VotingProofs.SameUnpaid, PriceHeld;
    VotesKeep(s, now, votes);
    PriceHeldSame(s);
  }

  lemma RegisterVotes(v: Votes, now: int, owner: Name)
    requires VotingProofs.VoteInv(v, now) && 0 < now && Voting.Register(v, now, owner).Success?
    ensures VotingProofs.VoteInv(Voting.Register(v, now, owner).value, now)
    ensures Voting.Register(v, now, owner).value.voters == v.voters
  {
    hide VotingProofs.VoteInv;
    VotingProofs.RegisterKeeps(v, now, owner);
  }

  lemma StakeActionKeeps(s: State, now: int, a: Action)
    requires Inv(s, now) && InEpoch(now) && Permitted(s, a) && Apply(s, now, a).Success?
    requires a.Delegate? || a.Undelegate? || a.ClaimRefund? || a.Register? || a.Unregister?
    ensures Sustained(s, Apply(s, now, a).value, now)
  {
    hide MaintInv, VotingProofs.VoteInv, PayInv, RexSurplus, StakeSurplus, Backed, Total, Sustained,
         Staking.Delegate, Staking.Undelegate, Staking.ClaimRefund, Voting.Register, Voting.Deactivate;
    match a
    case Delegate(owner, receiver, net, cpu, transfer) => Stakes.DelegateKeeps(s, now, owner, receiver, net, cpu, transfer);
    case Undelegate(owner, receiver, net, cpu) => Stakes.UndelegateKeeps(s, now, owner, receiver, net, cpu);
    case ClaimRefund(owner) => Stakes.ClaimRefundKeeps(s, now, owner);
    case Register(owner) =>
      RegisterVotes(s.votes, now, owner);
      VotesSustained(s, now, Voting.Register(s.votes, now, owner).value);
    case Unregister(owner) =>
      Stakes.DeactivateVotes(s.votes, now, owner);
      VotesSustained(s, now, Voting.Deactivate(s.votes, owner).value);
  }

  lemma SafeSame(s: State, t: State)
    requires VoteRewardsSafe(s) && t.votes.voters == s.votes.voters && s.pay.voteBucket <= t.pay.voteBucket
    ensures VoteRewardsSafe(t)
  {
  }

  /** Counters and settings of the reward state may change in any way that keeps its invariant. */
  lemma PaySettingsKeep(s: State, now: int, pay: Pay)
    requires Whole(s, now) && PayInv(pay)
    requires pay.blockBucket == s.pay.blockBucket && pay.witnessBucket == s.pay.witnessBucket
    requires pay.oracleBucket == s.pay.oracleBucket
    requires pay.voteBucket == s.pay.voteBucket
    requires pay.dappTransferBucket == s.pay.dappTransferBucket && pay.dappUserBucket == s.pay.dappUserBucket
    ensures Rewarded(s, s.(pay := pay), now)
  {
    hide MaintInv, VotingProofs.VoteInv, RexSurplus, StakeSurplus, Total, Token.NoneOverdrawn, PayInv;
    TokensNotOverdrawn(s, now);
    RewardFrame(s, s.(pay := pay), now);
  }

  /** The reward state after an action that touches only its counters or settings. */
  function CounterPay(s: State, a: Action): Pay
    requires a.SetClaimPeriod? || a.SetOracle? || a.AddRequest? || a.Reply?
  {
    if a.SetClaimPeriod? then s.pay.(claimPeriod := a.days * DAY)
    else if a.SetOracle? then
      var r := Rewards.SetOracle(s, a.owner, a.account);
      if r.Success? then r.value.pay else s.pay
    else if a.AddRequest? then Rewards.AddRequest(s.pay, a.chosen)
    else Rewards.Reply(s.pay, a.chosen, a.standby, a.age)
  }

  lemma CounterPayKeeps(s: State, a: Action)
    requires PayInv(s.pay) && (a.SetClaimPeriod? || a.SetOracle? || a.AddRequest? || a.Reply?)
    ensures PayInv(CounterPay(s, a))
  {
    hide PayInv, Rewards.SetOracle, Rewards.AddRequest, Rewards.Reply;
    if a.SetClaimPeriod? {
      ClaimPeriodKeeps(s.pay, a.days * DAY);
    } else if a.SetOracle? {
      if Rewards.SetOracle(s, a.owner, a.account).Success? { SetOracleKeeps(s, a.owner, a.account); }
    } else if a.AddRequest? {
      AddRequestKeeps(s.pay, a.chosen);
    } else {
      ReplyKeeps(s.pay, a.chosen, a.standby, a.age);
    }
  }

  lemma CounterActionKeeps(s: State, now: int, a: Action)
    requires Inv(s, now) && Apply(s, now, a).Success?
    requires a.SetClaimPeriod? || a.SetOracle? || a.AddRequest? || a.Reply?
    ensures Rewarded(s, Apply(s, now, a).value, now) && Apply(s, now, a).value.votes == s.votes
    ensures Apply(s, now, a).value.pay.voteBucket == s.pay.voteBucket
  {
    hide Whole, RexSurplus, StakeSurplus, Backed, Total, Rewarded, PayInv, Rewards.SetOracle, Rewards.AddRequest,
         Rewards.Reply;
    CounterPayKeeps(s, a);
    PaySettingsKeep(s, now, CounterPay(s, a));
    assert Apply(s, now, a).value == s.(pay := CounterPay(s, a));
  }

  lemma RewardActionKeeps(s: State, now: int, a: Action)
    requires Inv(s, now) && InEpoch(now) && Permitted(s, a) && Apply(s, now, a).Success?
    requires a.ClaimRewards? || a.ClaimVoterReward? || a.ClaimDappReward? || a.SetClaimPeriod? || a.OnBlock? || a.SetOracle?
             || a.AddRequest? || a.Reply?
    ensures Rewarded(s, Apply(s, now, a).value, now)
    ensures VoteRewardsSafe(s) ==> VoteRewardsSafe(Apply(s, now, a).value)
  {
    hide Whole, RexSurplus, StakeSurplus, Backed, Total, Rewarded, VoteRewardsSafe, PayInv, Rewards.ClaimRewards,
         Rewards.ClaimVoterReward, Rewards.ClaimDappReward, Rewards.OnBlock, Rewards.SetOracle, Rewards.AddRequest, Rewards.Reply;
    if a.ClaimRewards? {
      ClaimRewardsKeeps(s, now, a.owner, a.share, a.total);
    } else if a.ClaimVoterReward? {
      ClaimVoterRewardKeeps(s, now, a.owner);
    } else if a.ClaimDappReward? {
      ClaimDappRewardKeeps(s, now, a.owner, a.byUsers, a.share, a.total);
    } else if a.OnBlock? {
      OnBlockKeeps(s, now, a.producer);
    } else {
      CounterActionKeeps(s, now, a);
    }
    if VoteRewardsSafe(s) && !a.ClaimVoterReward? { SafeSame(s, Apply(s, now, a).value); }
  }

  lemma ClaimPeriodKeeps(pay: Pay, period: int)
    requires PayInv(pay)
    ensures PayInv(pay.(claimPeriod := period))
  {
  }

  /** Proceeds of an auction are promised to the lenders, not yet theirs. */
  lemma CloseAuctionKeeps(s: State, now: int, bid: int)
    requires Whole(s, now) && Permitted(s, Action.CloseAuction(bid))
    ensures Sustained(s, PromiseProceeds(s, bid), now)
  {
    hide BalancesOk, FundsOk, OrdersOk, InTimeOrder, WeightsAgree, VotingProofs.VoteInv, Total, LoansOk;
    PriceHeldSame(s);
  }

  /** RAM in a resource row does not touch what is staked or lent. */
  lemma ChangeRamKeeps(s: State, now: int, receiver: Name, bytes: int)
    requires Whole(s, now) && Staking.ChangeRam(s, receiver, bytes).Success?
    ensures Sustained(s, Staking.ChangeRam(s, receiver, bytes).value, now)
  {
    hide RexInv, VotingProofs.VoteInv, Total, Inbound, StakedTo, Token.NoneOverdrawn;
    var t := Staking.ChangeRam(s, receiver, bytes).value;
    assert forall kind, r :: Weight(t.resources, kind, r) == Weight(s.resources, kind, r);
    assert RexSurplus(t) == RexSurplus(s) by { SurplusParts(t); SurplusParts(s); }
    RexInvTables(s, t, now);
    PriceHeldSame(s);
  }

  lemma RexInvTables(s: State, t: State, now: int)
    requires RexInv(s, now) && t == s.(tokens := t.tokens, resources := t.resources)
    ensures RexInv(t, now)
  {
  }

  /** A fee on trading RAM ends with the lenders, or with the fee account if there are none. */
  lemma RamFeeKeeps(s: State, now: int, payer: Name, fee: int)
    requires Whole(s, now) && User(payer) && PayRamFee(s, payer, fee).Success?
    ensures Sustained(s, PayRamFee(s, payer, fee).value, now)
  {
    hide MaintInv, VotingProofs.VoteInv, Total, RexSurplus, Rex.ChannelToRex, Token.NoneOverdrawn, Pools.PriceKept,
         Pools.AddFee;
    if 0 < fee {
      TokensNotOverdrawn(s, now);
      Token.TransferMoves(s.tokens, payer, RAMFEE, fee);
      var paid := s.(tokens := Token.Transfer(s.tokens, payer, RAMFEE, fee).value);
      TokensKeep(s, now, paid.tokens);
      Maintenance.ChannelToRexKeeps(paid, now, RAMFEE, fee);
      var t := PayRamFee(s, payer, fee).value;
      ChannelledKeeps(s, paid, t, now, payer);
    } else {
      PriceHeldSame(s);
    }
  }

  lemma ChannelledKeeps(s: State, paid: State, t: State, now: int, payer: Name)
    requires Whole(s, now) && User(payer)
    requires paid == s.(tokens := paid.tokens) && t == paid.(pool := t.pool, tokens := t.tokens)
    requires Total(paid.tokens) == Total(s.tokens) && Total(t.tokens) == Total(paid.tokens)
    requires forall a :: a != payer && a != RAMFEE ==> At(paid.tokens, a) == At(s.tokens, a)
    requires forall a :: a != REX && a != RAMFEE ==> At(t.tokens, a) == At(paid.tokens, a)
    requires RexInv(t, now) && StakeInv(t) && Token.NoneOverdrawn(t.tokens) && RexSurplus(t) == RexSurplus(paid)
    requires t.pool.Some? == s.pool.Some?
    requires s.pool.Some? ==> Pools.PriceKept(s.pool.value, t.pool.value) && t.pool.value.namebid == s.pool.value.namebid
    ensures Sustained(s, t, now)
  {
    hide RexInv, StakeInv, VotingProofs.VoteInv, Total, RexOwed, Pools.PriceKept, Token.NoneOverdrawn;
    assert RexOwed(paid) == RexOwed(s) by { SurplusParts(paid); SurplusParts(s); }
  }

  /** A transfer between users changes no books; one to an account kept for others is a gift. */
  lemma SendEffect(s: State, now: int, owner: Name, to: Name, amount: int)
    requires Inv(s, now) && User(owner) && SendTokens(s, owner, to, amount).Success?
    ensures Effect(s, SendTokens(s, owner, to, amount).value, now, Action.Send(owner, to, amount))
  {
    hide MaintInv, VotingProofs.VoteInv, PayInv, Total, RexSurplus, StakeSurplus, Token.NoneOverdrawn;
    TokensNotOverdrawn(s, now);
    Token.TransferMoves(s.tokens, owner, to, amount);
    var t := SendTokens(s, owner, to, amount).value;
    RewardFrameUnbooked(s, t, now);
    PriceHeldSame(s);
  }

  /** Nothing is booked by tokens moving; more tokens in the auction account do no harm. */
  lemma RewardFrameUnbooked(s: State, t: State, now: int)
    requires MaintInv(s, now) && t == s.(tokens := t.tokens)
    requires Token.NoneOverdrawn(t.tokens) && At(s.tokens, NAMES) <= At(t.tokens, NAMES)
    ensures MaintInv(t, now)
    ensures RexSurplus(t) - RexSurplus(s) == At(t.tokens, REX) - At(s.tokens, REX)
    ensures StakeSurplus(t) - StakeSurplus(s) == At(t.tokens, STAKE) - At(s.tokens, STAKE)
  {
  }

  // Voting

  /** The state of a vote before the voter is credited for it. */
  function Recast(s: State, now: int, voter: Name, producers: seq<Name>): Result<State> {
    var revalued := Staking.UpdateRexStake(s, voter);
    var votes :- Voting.UpdateVotes(revalued.votes, now, voter, producers, true);
    Success(revalued.(votes := votes))
  }

  lemma RecastKeeps(s: State, now: int, voter: Name, producers: seq<Name>)
    requires Whole(s, now) && Recast(s, now, voter, producers).Success?
    ensures var t := Recast(s, now, voter, producers).value;
      var revalued := Staking.UpdateRexStake(s, voter).votes.voters;
      && Sustained(s, t, now) && voter in revalued && voter in t.votes.voters
      && t.votes.voters[voter].staked == revalued[voter].staked
      && t.votes.voters[voter].unpaidVotes == revalued[voter].unpaidVotes
  {
    hide MaintInv, VotingProofs.VoteInv, RexSurplus, StakeSurplus, Total, Staking.UpdateRexStake;
    Stakes.UpdateRexStakeKeeps(s, now, voter);
    var revalued := Staking.UpdateRexStake(s, voter);
    VotingProofs.UpdateVotesAccepts(revalued.votes, now, voter, producers, true);
    VotingProofs.UpdateVotesTallies(revalued.votes, now, voter, producers, true);
    var t := Recast(s, now, voter, producers).value;
    VotesKeep(revalued, now, t.votes);
    PriceHeldSame(s);
    assert StakeSurplus(t) == StakeSurplus(s) by { StakeSurplusParts(t); StakeSurplusParts(s); }
  }

  /** A vote keeps the books and credits the voter toward rewards. */
  lemma VoteEffect(s: State, now: int, owner: Name, producers: seq<Name>)
    requires Inv(s, now) && CastVote(s, now, owner, producers).Success?
    ensures Effect(s, CastVote(s, now, owner, producers).value, now, Action.VoteProducers(owner, producers))
  {
    hide MaintInv, VotingProofs.VoteInv, RexSurplus, StakeSurplus, Total, Staking.UpdateRexStake, Voting.UpdateVotes, PayInv,
         VotingProofs.SameUnpaid, VoteRewardsSafe;
    RecastKeeps(s, now, owner, producers);
    var recast := Recast(s, now, owner, producers).value;
    VotingProofs.CreditVoteKeeps(recast.votes, now, owner);
    var t := CastVote(s, now, owner, producers).value;
    assert t == recast.(votes := Voting.CreditVote(recast.votes, owner));
    VotesKeep(recast, now, t.votes);
    if VoteRewardsSafe(s) {
      SafeSustained(s, recast, now);
      CreditIsSafe(recast, owner);
    }
  }

  lemma SafeSustained(s: State, t: State, now: int)
    requires VoteRewardsSafe(s) && Sustained(s, t, now)
    ensures VoteRewardsSafe(t)
  {
    hide Whole, RexSurplus, StakeSurplus, Total, PriceHeld;
    forall n | n in t.votes.voters ensures 0 <= t.votes.voters[n].unpaidVotes {
      assert VotingProofs.Unpaid(t.votes.voters, n) == VotingProofs.Unpaid(s.votes.voters, n);
    }
  }

  // Any action

  /** Every action that succeeds keeps the invariant, changes what the exchange and the stake account
      hold beyond their debts by gifts alone, and never lowers the price of REX. Voters' rewards
      stay backed exactly when no vote is credited with negative stake. */
  lemma ApplyEffect(s: State, now: int, a: Action)
    requires Inv(s, now) && InEpoch(now) && Permitted(s, a) && Apply(s, now, a).Success?
    ensures Effect(s, Apply(s, now, a).value, now, a)
  {
    hide Whole, PayInv, RexSurplus, StakeSurplus, Backed, Total, Sustained, Rewarded, Effect, Apply;
    if a.Send? {
      ApplyTable(s, now, a);
      SendEffect(s, now, a.owner, a.to, a.amount);
    } else if a.VoteProducers? {
      ApplyTable(s, now, a);
      VoteEffect(s, now, a.owner, a.producers);
    } else if a.RamFee? || a.ChangeRam? || a.CloseAuction? {
      SideActionKeeps(s, now, a);
      SustainedEffect(s, Apply(s, now, a).value, now, a);
    } else if a.ClaimRewards? || a.ClaimVoterReward? || a.ClaimDappReward? || a.SetClaimPeriod? || a.OnBlock? || a.SetOracle?
              || a.AddRequest? || a.Reply? {
      RewardActionKeeps(s, now, a);
      RewardedEffect(s, Apply(s, now, a).value, now, a);
    } else {
      if a.Delegate? || a.Undelegate? || a.ClaimRefund? || a.Register? || a.Unregister? {
        StakeActionKeeps(s, now, a);
      } else if OnBalance(a) {
        BalanceActionKeeps(s, now, a);
      } else {
        FundActionKeeps(s, now, a);
      }
      SustainedEffect(s, Apply(s, now, a).value, now, a);
    }
  }

  lemma ApplyTable(s: State, now: int, a: Action)
    ensures a.Send? ==> Apply(s, now, a) == SendTokens(s, a.owner, a.to, a.amount)
    ensures a.VoteProducers? ==> Apply(s, now, a) == CastVote(s, now, a.owner, a.producers)
  {
    hide SendTokens, CastVote;
  }

  lemma SideActionKeeps(s: State, now: int, a: Action)
    requires Inv(s, now) && InEpoch(now) && Permitted(s, a) && Apply(s, now, a).Success?
    requires a.RamFee? || a.ChangeRam? || a.CloseAuction?
    ensures Sustained(s, Apply(s, now, a).value, now)
  {
    hide Whole, PayInv, RexSurplus, StakeSurplus, Backed, Total, Sustained, PayRamFee, Staking.ChangeRam, PromiseProceeds;
    match a
    case RamFee(owner, fee) => RamFeeKeeps(s, now, owner, fee);
    case ChangeRam(receiver, bytes) => ChangeRamKeeps(s, now, receiver, bytes);
    case CloseAuction(bid) => CloseAuctionKeeps(s, now, bid);
  }

  // Runs

  /** Time passing keeps the invariant. */
  lemma InvLater(s: State, now: int, later: int)
    requires Inv(s, now) && 0 <= now <= later
    ensures Inv(s, later)
  {
    hide WeightsAgree, StakesOk, ResourcesOk, RefundsOk, Total, PayInv, Maturity.Healthy, VotingProofs.VoteInv, RexSurplus,
         StakeSurplus, Backed;
    VotingProofs.VoteInvLater(s.votes, now, later);
    forall n | n in s.balances ensures Maturity.Healthy(s.balances[n], later) {
      Maturity.HealthyLater(s.balances[n], now, later);
    }
  }

  lemma StepKeepsInv(s: State, now: int, at: int, a: Action)
    requires Inv(s, now) && 0 <= now <= at && InEpoch(at) && Permitted(s, a)
    ensures Inv(Step(s, at, a), at)
  {
    hide Inv, Apply;
    InvLater(s, now, at);
    if Apply(s, at, a).Success? { ApplyEffect(s, at, a); }
  }

  /** The time a run ends. */
  function EndTime(start: int, events: seq<Event>): int {
    if events == [] then start else events[|events| - 1].now
  }

  lemma ChronologicalTail(start: int, events: seq<Event>)
    requires Chronological(start, events) && events != []
    ensures Chronological(events[0].now, events[1..])
    ensures EndTime(events[0].now, events[1..]) == EndTime(start, events)
  {
  }

  /** Every state of every run keeps the invariant. */
  lemma {:induction false} RunKeepsInv(s: State, start: int, events: seq<Event>)
    requires Inv(s, start) && Chronological(start, events) && AllPermitted(s, events)
    ensures Inv(Run(s, events), EndTime(start, events))
    decreases |events|
  {
    hide Inv, Step, Permitted;
    if events != [] {
      ChronologicalTail(start, events);
      StepKeepsInv(s, start, events[0].now, events[0].action);
      RunKeepsInv(Step(s, events[0].now, events[0].action), events[0].now, events[1..]);
    }
  }

  /** The state before anything happened keeps the invariant. */
  lemma GenesisInv(s: State, now: int)
    requires Genesis(s) && s.supply == Total(s.tokens) && InEpoch(now)
    ensures Inv(s, now)
    ensures RexSurplus(s) == At(s.tokens, REX) && StakeSurplus(s) == At(s.tokens, STAKE)
  {
    assert SharesOf(s.balances) == map[] && ProceedsOf(s.orders) == map[] && StakesOf(s.delegations) == map[]
        && RefundsOf(s.refunds) == map[] && SuccessesOf(s.pay.oracles) == map[];
    assert VotingProofs.VotesOf(s.votes.producers) == map[] && VotingProofs.RatesOf(s.votes.producers) == map[]
        && VotingProofs.SharesOf(s.votes.producers, 0) == map[] && VotingProofs.UnpaidVotesOf(s.votes.voters) == map[]
        && VotingProofs.UnpaidBlocksOf(s.votes.producers) == map[];
    forall kind, r ensures Inbound(s.delegations, kind, r) == 0 {
      assert InboundOf(s.delegations, kind, r) == map[];
    }
  }
}
