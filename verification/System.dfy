/** The actions of the system contract on one state, and runs of them. An action that aborts leaves
    no trace. */
module System {
  import opened Outcomes
  import opened Sums
  import opened Chain
  import Token
  import Pools
  import Voting
  import Staking
  import Rex
  import Rewards

  datatype Action =
    | Deposit(owner: Name, amount: int)
    | Withdraw(owner: Name, amount: int)
    | BuyRex(owner: Name, amount: int)
    | UnstakeToRex(owner: Name, receiver: Name, net: int, cpu: int)
    | SellRex(owner: Name, rex: int)
    | CancelOrder(owner: Name)
    | Rent(kind: LoanKind, owner: Name, receiver: Name, payment: int, fund: int)
    | FundLoan(kind: LoanKind, owner: Name, num: nat, amount: int)
    | DefundLoan(kind: LoanKind, owner: Name, num: nat, amount: int)
    | UpdateRex(owner: Name)
    | SetRex(balance: int)
    | RexExec(max: nat)
    | Consolidate(owner: Name)
    | MoveToSavings(owner: Name, rex: int)
    | MoveFromSavings(owner: Name, rex: int)
    | CloseRex(owner: Name)
    | Delegate(owner: Name, receiver: Name, net: int, cpu: int, transfer: bool)
    | Undelegate(owner: Name, receiver: Name, net: int, cpu: int)
    | ClaimRefund(owner: Name)
    | VoteProducers(owner: Name, producers: seq<Name>)
    | Register(owner: Name)
    | Unregister(owner: Name)
    | ClaimRewards(owner: Name, share: int, total: int)
    | ClaimVoterReward(owner: Name)
    | ClaimDappReward(owner: Name, byUsers: bool, share: int, total: int)
    | SetClaimPeriod(days: nat)
    | OnBlock(producer: Name)
    | SetOracle(owner: Name, account: Name)
    | AddRequest(chosen: Name)
    | Reply(chosen: Name, standby: Name, age: int)
    | Send(owner: Name, to: Name, amount: int)
    | RamFee(owner: Name, fee: int)
    | ChangeRam(receiver: Name, bytes: int)
    | CloseAuction(bid: int)

  /** A vote with the stake brought up to date; holders of REX must vote for 21 producers. */
  function CastVote(s: State, now: int, voter: Name, producers: seq<Name>): (r: Result<State>)
    ensures r.Success? ==> r.value == s.(balances := r.value.balances, votes := r.value.votes)
  {
    if voter in s.votes.producers then Failure(ProducersMayNotVote) else
    var revalued := Staking.UpdateRexStake(s, voter);
    var votes :- Voting.UpdateVotes(revalued.votes, now, voter, producers, true);
    var holds := voter in revalued.balances && 0 < revalued.balances[voter].rex;
    :- Need(!holds || Rex.MayBuyRex(votes, voter), VotingRequirementUnmet);
    Success(revalued.(votes := Voting.CreditVote(votes, voter)))
  }

  /** A transfer of core tokens between accounts. */
  function SendTokens(s: State, from: Name, to: Name, amount: int): Result<State> {
    var tokens :- Token.Transfer(s.tokens, from, to, amount);
    Success(s.(tokens := tokens))
  }

  /** The fee part of trading RAM: paid to the fee account and passed on to the lenders. */
  function PayRamFee(s: State, payer: Name, fee: int): (r: Result<State>)
    ensures r.Success? ==> r.value == s.(tokens := r.value.tokens, pool := r.value.pool)
  {
    if 0 < fee then
      var tokens :- Token.Transfer(s.tokens, payer, RAMFEE, fee);
      Rex.ChannelToRex(s.(tokens := tokens), RAMFEE, fee)
    else Success(s)
  }

  /** The closing of a name auction: its proceeds are promised to the lenders, if there are any. */
  function PromiseProceeds(s: State, bid: int): (t: State)
    ensures t == s.(pool := t.pool)
  {
    if Pools.Available(s.pool) then
      s.(pool := Some(s.pool.value.(namebid := s.pool.value.namebid + bid)))
    else s
  }

  /** Actions of the exchange. */
  predicate OnRex(a: Action) {
    a.Deposit? || a.Withdraw? || a.BuyRex? || a.UnstakeToRex? || a.SellRex? || a.CancelOrder? || a.Rent? || a.FundLoan?
    || a.DefundLoan? || a.UpdateRex? || a.SetRex? || a.RexExec? || a.Consolidate? || a.MoveToSavings? || a.MoveFromSavings?
    || a.CloseRex?
  }

  /** Of these, the actions on loans or on one balance. */
  predicate OnBalance(a: Action) {
    a.Rent? || a.FundLoan? || a.DefundLoan? || a.UpdateRex? || a.Consolidate? || a.MoveToSavings? || a.MoveFromSavings?
    || a.CloseRex?
  }

  /** Actions on stakes and votes. */
  predicate OnStakes(a: Action) {
    a.Delegate? || a.Undelegate? || a.ClaimRefund? || a.ChangeRam? || a.VoteProducers? || a.Register? || a.Unregister?
  }

  function ApplyToRex(s: State, now: int, a: Action): Result<State>
    requires OnRex(a)
  {
    match a
    case Deposit(owner, amount) => Rex.Deposit(s, owner, amount)
    case Withdraw(owner, amount) => Rex.Withdraw(s, now, owner, amount)
    case BuyRex(owner, amount) => Rex.BuyRex(s, now, owner, amount)
    case UnstakeToRex(owner, receiver, net, cpu) => Rex.UnstakeToRex(s, now, owner, receiver, net, cpu)
    case SellRex(owner, rex) => Rex.SellRex(s, now, owner, rex)
    case CancelOrder(owner) => Rex.CancelOrder(s, owner)
    case Rent(kind, owner, receiver, payment, fund) => Rex.Rent(s, now, kind, owner, receiver, payment, fund)
    case FundLoan(kind, owner, num, amount) => Rex.FundLoan(s, now, kind, owner, num, amount)
    case DefundLoan(kind, owner, num, amount) => Rex.DefundLoan(s, now, kind, owner, num, amount)
    case UpdateRex(owner) => Rex.UpdateRex(s, now, owner)
    case SetRex(balance) => Rex.SetRex(s, balance)
    case RexExec(max) => Rex.RunRex(s, now, max)
    case Consolidate(owner) => Rex.Consolidate(s, now, owner)
    case MoveToSavings(owner, rex) => Rex.MoveToSavings(s, now, owner, rex)
    case MoveFromSavings(owner, rex) => Rex.MoveFromSavings(s, now, owner, rex)
    case CloseRex(owner) => Rex.CloseRex(s, now, owner)
  }

  function ApplyToStakes(s: State, now: int, a: Action): Result<State>
    requires OnStakes(a)
  {
    match a
    case Delegate(owner, receiver, net, cpu, transfer) => Staking.Delegate(s, now, owner, receiver, net, cpu, transfer)
    case Undelegate(owner, receiver, net, cpu) => Staking.Undelegate(s, now, owner, receiver, net, cpu)
    case ClaimRefund(owner) => Staking.ClaimRefund(s, now, owner)
    case ChangeRam(receiver, bytes) => Staking.ChangeRam(s, receiver, bytes)
    case VoteProducers(owner, producers) => CastVote(s, now, owner, producers)
    case Register(owner) =>
      var votes :- Voting.Register(s.votes, now, owner);
      Success(s.(votes := votes))
    case Unregister(owner) =>
      var votes :- Voting.Deactivate(s.votes, owner);
      Success(s.(votes := votes))
  }

  function ApplyToRewards(s: State, now: int, a: Action): Result<State>
    requires !OnRex(a) && !OnStakes(a)
  {
    match a
    case ClaimRewards(owner, share, total) => Rewards.ClaimRewards(s, now, owner, share, total)
    case ClaimVoterReward(owner) => Rewards.ClaimVoterReward(s, now, owner)
    case ClaimDappReward(owner, byUsers, share, total) => Rewards.ClaimDappReward(s, now, owner, byUsers, share, total)
    case SetClaimPeriod(days) => Success(s.(pay := s.pay.(claimPeriod := days * DAY)))
    case OnBlock(producer) => Success(Rewards.OnBlock(s, now, producer))
    case SetOracle(owner, account) => Rewards.SetOracle(s, owner, account)
    case AddRequest(chosen) => Success(s.(pay := Rewards.AddRequest(s.pay, chosen)))
    case Reply(chosen, standby, age) => Success(s.(pay := Rewards.Reply(s.pay, chosen, standby, age)))
    case Send(owner, to, amount) => SendTokens(s, owner, to, amount)
    case RamFee(owner, fee) => PayRamFee(s, owner, fee)
    case CloseAuction(bid) => Success(PromiseProceeds(s, bid))
  }

  function Apply(s: State, now: int, a: Action): Result<State> {
    if OnRex(a) then ApplyToRex(s, now, a)
    else if OnStakes(a) then ApplyToStakes(s, now, a)
    else ApplyToRewards(s, now, a)
  }

  /** An aborted action changes nothing. */
  function Step(s: State, now: int, a: Action): State {
    var r := Apply(s, now, a);
    if r.Success? then r.value else s
  }

  // Runs

  datatype Event = Event(now: int, action: Action)

  function Run(s: State, events: seq<Event>): State
    decreases |events|
  {
    if events == [] then s
    else Run(Step(s, events[0].now, events[0].action), events[1..])
  }

  /** Time never goes back, and stays within what the contract's clock can hold. */
  ghost predicate Chronological(start: int, events: seq<Event>) {
    && InEpoch(start)
    && (forall i :: 0 <= i < |events| ==> InEpoch(events[i].now) && start <= events[i].now)
    && (forall i, j :: 0 <= i < j < |events| ==> events[i].now <= events[j].now)
  }

  /** Actions that pay tokens in or out for their owner. */
  predicate MovesTokens(a: Action) {
    a.Deposit? || a.Withdraw? || a.Delegate? || a.Undelegate? || a.ClaimRefund? || a.ClaimRewards?
    || a.ClaimVoterReward? || a.ClaimDappReward? || a.Send? || a.RamFee?
  }

  /** What the surroundings promise of an action: those who move tokens are not the accounts the
      contract keeps for others, a closed auction's proceeds are in the auction account beyond those
      promised before, and a witness share is not negative. */
  predicate Permitted(s: State, a: Action) {
    && (MovesTokens(a) ==> User(a.owner))
    && (a.CloseAuction? ==> 0 < a.bid && (s.pool.Some? ==> s.pool.value.namebid + a.bid <= At(s.tokens, NAMES)))
    && (a.ClaimRewards? ==> 0 <= a.share)
  }

  ghost predicate AllPermitted(s: State, events: seq<Event>)
    decreases |events|
  {
    events == [] ||
    (Permitted(s, events[0].action) && AllPermitted(Step(s, events[0].now, events[0].action), events[1..]))
  }

  /** The state before anything happened. */
  predicate Genesis(s: State) {
    && s.pool.None? && s.funds == map[] && s.balances == map[] && s.orders == map[] && s.queue == []
    && s.cpuLoans == [] && s.netLoans == [] && s.delegations == map[] && s.refunds == map[]
    && s.resources == map[]
    && s.votes == Votes(map[], map[], 0, 0, 0, 0, 0, 0, 0, 0)
    && s.pay == Pay(0, 0, 0, 0, 0, 0, 0, 0, 30 * DAY, map[], 0)
    && (forall a :: a in s.tokens ==> 0 <= s.tokens[a])
  }
}
