/** Every action of the exchange keeps the invariant and conserves what accounts are owed. */
module Exchange {
  import opened Outcomes
  import opened Arithmetic
  import opened Sums
  import opened Chain
  import opened Loans
  import opened Rex
  import opened Ledger
  import opened Maintenance
  import Token
  import Maturity
  import Pools
  import Staking
  import Voting
  import VotingProofs

  /** What every action relies on and keeps. */
  ghost predicate Whole(s: State, now: int) {
    MaintInv(s, now) && VotingProofs.VoteInv(s.votes, now)
  }

  /** The price of REX did not fall while there was REX. */
  ghost predicate PriceHeld(p: Option<Pool>, q: Option<Pool>) {
    Pools.Available(p) && Pools.Available(q) ==> Pools.PriceKept(p.value, q.value)
  }

  /** What the accounts of the system contract hold beyond what it owes did not change, nor did
      anything outside the exchange, the stakes and the votes, nor what voters are still to be paid for. */
  ghost predicate Conserved(s: State, t: State) {
    && RexSurplus(t) == RexSurplus(s)
    && StakeSurplus(t) == StakeSurplus(s)
    && Total(t.tokens) == Total(s.tokens)
    && t.supply == s.supply && t.maxSupply == s.maxSupply && t.pay == s.pay
    && (forall a :: PayAccount(a) ==> At(t.tokens, a) == At(s.tokens, a))
    && VotingProofs.SameUnpaid(s.votes.voters, t.votes.voters)
  }

  /** `t` follows from `s` by an action of the exchange or on stakes. */
  ghost predicate Sustained(s: State, t: State, now: int) {
    Whole(t, now) && Conserved(s, t) && PriceHeld(s.pool, t.pool)
  }

  lemma MaintainedConserves(s: State, t: State, now: int)
    requires Whole(s, now) && Maintained(s, t, now)
    ensures Sustained(s, t, now)
  {
    hide MaintInv, VotingProofs.VoteInv, RexSurplus, Total;
  }

  /** Maintenance followed by steps that conserve and keep the price. */
  lemma AfterMaintenance(s: State, m: State, t: State, now: int)
    requires Whole(s, now) && Maintained(s, m, now)
    requires Whole(t, now) && Conserved(m, t)
    requires t.pool.Some? && Pools.PriceKept(m.pool.value, t.pool.value)
    ensures Sustained(s, t, now)
  {
    hide RexSurplus, StakeSurplus, Total, StakeInv, BalancesOk, FundsOk, OrdersOk, InTimeOrder, LoansOk, VotingProofs.VoteInv,
         Shares, NamesFunded, Token.NoneOverdrawn;
    Pools.PriceKeptTransitive(s.pool.value, m.pool.value, t.pool.value);
    MaintainedConserves(s, m, now);
  }

  // Shared steps

  lemma FromFundKeeps(s: State, now: int, owner: Name, amount: int)
    requires MaintInv(s, now) && TransferFromFund(s, owner, amount).Success?
    ensures var t := TransferFromFund(s, owner, amount).value;
      MaintInv(t, now) && t == s.(funds := t.funds) && Total(t.funds) == Total(s.funds) - amount && 0 < amount
  {
    hide PoolOk, BalancesOk, OrdersOk, InTimeOrder, WeightsAgree, StakesOk, ResourcesOk, RefundsOk,
         Token.NoneOverdrawn, Total;
    TotalUpdate(s.funds, owner, s.funds[owner] - amount);
  }

  /** Clearing a filled order hands its proceeds over. */
  lemma ClearOrderKeeps(s: State, now: int, owner: Name)
    requires MaintInv(s, now) && owner in s.orders && !s.orders[owner].open
    ensures var t := s.(orders := s.orders - {owner});
      MaintInv(t, now) && Proceeds(t.orders) == Proceeds(s.orders) - s.orders[owner].proceeds && 0 <= s.orders[owner].proceeds
  {
    hide PoolOk, BalancesOk, WeightsAgree, StakesOk, ResourcesOk, RefundsOk, Token.NoneOverdrawn, Total;
    ProceedsDrop(s.orders, owner);
  }

  lemma VotesKeep(s: State, now: int, votes: Votes)
    requires MaintInv(s, now)
    ensures MaintInv(s.(votes := votes), now)
    ensures RexSurplus(s.(votes := votes)) == RexSurplus(s)
    ensures StakeSurplus(s.(votes := votes)) == StakeSurplus(s)
  {
  }

  /** The state after the owner's filled order and other proceeds were paid out. */
  function Collected(s: State, owner: Name, proceeds: int): State {
    var filled := owner in s.orders && !s.orders[owner].open;
    var toFund := proceeds + if filled then s.orders[owner].proceeds else 0;
    s.(orders := if filled then s.orders - {owner} else s.orders,
       funds := if 0 < toFund then s.funds[owner := At(s.funds, owner) + toFund] else s.funds)
  }

  lemma CollectedKeeps(s: State, now: int, owner: Name, proceeds: int)
    requires MaintInv(s, now) && 0 <= proceeds
    ensures MaintInv(Collected(s, owner, proceeds), now)
    ensures RexSurplus(Collected(s, owner, proceeds)) == RexSurplus(s) - proceeds
  {
    hide MaintInv, Total;
    var filled := owner in s.orders && !s.orders[owner].open;
    var toFund := proceeds + if filled then s.orders[owner].proceeds else 0;
    if filled { ClearOrderKeeps(s, now, owner); }
    if 0 < toFund { ToFundKeeps(if filled then s.(orders := s.orders - {owner}) else s, now, owner, toFund); }
  }

  lemma UpdateRexAccountSteps(s: State, now: int, owner: Name, proceeds: int, stakeChange: int, force: bool)
    ensures var filled := owner in s.orders && !s.orders[owner].open;
      var toStake := stakeChange + if filled then s.orders[owner].stakeChange else 0;
      var inOrder := if owner in s.orders && s.orders[owner].open then s.orders[owner].requested else 0;
      var paid := Collected(s, owner, proceeds);
      var votes := Voting.UpdateVotingPower(s.votes, now, owner, toStake);
      UpdateRexAccount(s, now, owner, proceeds, stakeChange, force)
        == if !force && toStake == 0 then Success((paid, inOrder))
           else if votes.Success? then Success((paid.(votes := votes.value), inOrder))
           else Failure(votes.error)
  {
    hide Voting.UpdateVotingPower;
  }

  /** The owner collects a filled order along with `proceeds` already taken from the pool; an open
      order stays, and is reported. */
  lemma UpdateRexAccountKeeps(s: State, now: int, owner: Name, proceeds: int, stakeChange: int, force: bool)
    requires Whole(s, now) && 0 <= proceeds
    requires UpdateRexAccount(s, now, owner, proceeds, stakeChange, force).Success?
    ensures var (t, inOrder) := UpdateRexAccount(s, now, owner, proceeds, stakeChange, force).value;
      && Whole(t, now)
      && t == s.(orders := t.orders, funds := t.funds, votes := t.votes)
      && VotingProofs.SameUnpaid(s.votes.voters, t.votes.voters)
      && RexSurplus(t) == RexSurplus(s) - proceeds
      && inOrder == (if owner in t.orders then t.orders[owner].requested else 0)
      && (owner in t.orders <==> owner in s.orders && s.orders[owner].open)
      && (owner in t.orders ==> t.orders[owner].open)
      && (forall n :: n in t.orders ==> n in s.orders && t.orders[n] == s.orders[n])
  {
    hide MaintInv, VotingProofs.VoteInv, Total, Voting.UpdateVotingPower, RexSurplus, UpdateRexAccount, StakeSurplus;
    UpdateRexAccountSteps(s, now, owner, proceeds, stakeChange, force);
    CollectedKeeps(s, now, owner, proceeds);
    var paid := Collected(s, owner, proceeds);
    var toStake := stakeChange + if owner in s.orders && !s.orders[owner].open then s.orders[owner].stakeChange else 0;
    if force || toStake != 0 {
      VotingProofs.UpdateVotingPowerKeeps(s.votes, now, owner, toStake);
      VotesKeep(paid, now, Voting.UpdateVotingPower(s.votes, now, owner, toStake).value);
    }
  }

  /** What collecting an order books as stake. */
  function StakeBooked(s: State, owner: Name, stakeChange: int): int {
    stakeChange + if owner in s.orders && !s.orders[owner].open then s.orders[owner].stakeChange else 0
  }

  /** The voter's stake on record can take a change. */
  ghost predicate Bookable(votes: Votes, now: int, owner: Name, change: int) {
    var staked := change + if owner in votes.voters then votes.voters[owner].staked else 0;
    && 0 <= staked && (owner == B1 ==> Voting.B1Locked(now) <= staked)
    && (owner in votes.voters ==> VotingProofs.Votable(votes, votes.voters[owner].producers, false))
  }

  /** An owner can collect exactly when there is no stake change to book, or the voter's stake can take
      it: the stake on record may be too small, since unstaking into REX does not book the change. */
  lemma CollectsExactly(s: State, now: int, owner: Name, proceeds: int, stakeChange: int, force: bool)
    requires VotingProofs.VoteInv(s.votes, now)
    ensures var change := StakeBooked(s, owner, stakeChange);
      UpdateRexAccount(s, now, owner, proceeds, stakeChange, force).Success? <==>
        (force || change != 0 ==> Bookable(s.votes, now, owner, change))
  {
    hide VotingProofs.VoteInv, Voting.UpdateVotingPower, UpdateRexAccount, VotingProofs.Votable, Voting.B1Locked;
    UpdateRexAccountSteps(s, now, owner, proceeds, stakeChange, force);
    VotingProofs.UpdateVotingPowerKeeps(s.votes, now, owner, StakeBooked(s, owner, stakeChange));
  }

  lemma SurplusParts(s: State)
    ensures RexSurplus(s) == At(s.tokens, REX) - Total(s.funds) - Lendable(s.pool) - Escrow(s.cpuLoans) - Escrow(s.netLoans)
                             - Proceeds(s.orders)
  {
  }

  lemma EmptyBalance(now: int, stake: int)
    ensures Maturity.Healthy(Balance(stake, 0, 0, []), now)
  {
  }

  lemma PurchasedBalance(balances: map<Name, Balance>, now: int, owner: Name, received: int, stake: int)
    requires BalancesOk(balances, now) && InEpoch(now) && 0 <= received
    ensures var was := if owner in balances then balances[owner] else Balance(0, 0, 0, []);
      var b := Maturity.AddMaturing(was.(rex := was.rex + received, voteStake := stake), now, received);
      && Maturity.Healthy(b, now) && was.matured <= b.matured && b.rex == was.rex + received && b.voteStake == stake
      && BalancesOk(balances[owner := b], now)
      && Shares(balances[owner := b]) == Shares(balances) + received
  {
    hide Maturity.AddMaturing, Total, Maturity.Shape, Maturity.NoneNegative, Maturity.AmountOf, Shares;
    EmptyBalance(now, stake);
    var was := if owner in balances then balances[owner] else Balance(0, 0, 0, []);
    var b := was.(rex := was.rex + received, voteStake := stake);
    Maturity.AddMaturingKeeps(b, now, received, Seconds(now));
    SharesUpdate(balances, owner, Maturity.AddMaturing(b, now, received));
  }

  /** The pool and order tables after a purchase. */
  lemma PurchaseTables(s: State, now: int, owner: Name, payment: int, b: Balance)
    requires MaintInv(s, now) && 0 < payment
    requires var (pool, received) := Pools.AddPurchase(s.pool, payment).value;
      Shares(s.balances[owner := b]) == Shares(s.balances) + received
    requires owner in s.balances ==> s.balances[owner].matured <= b.matured
    ensures var pool := Pools.AddPurchase(s.pool, payment).value.0;
      var balances := s.balances[owner := b];
      && PoolOk(Some(pool), balances, s.cpuLoans, s.netLoans, now)
      && OrdersOk(s.orders, s.queue, balances, now)
      && pool.namebid <= At(s.tokens, NAMES)
  {
    hide WeightsAgree, StakesOk, ResourcesOk, RefundsOk, InTimeOrder, Total, BalancesOk, Pools.AddPurchase, Shares,
         Pools.PriceKept;
    Pools.AddPurchaseKeeps(s.pool, payment);
    if s.pool.None? { NoShares(s.balances); }
  }

  /** A purchase never aborts; the payment is owed to the lenders from then on. */
  lemma PurchaseKeeps(s: State, now: int, owner: Name, payment: int)
    requires MaintInv(s, now) && InEpoch(now) && 0 < payment
    ensures Purchase(s, now, owner, payment).Success?
    ensures var t := Purchase(s, now, owner, payment).value.0;
      && MaintInv(t, now) && t == s.(pool := t.pool, balances := t.balances)
      && RexSurplus(t) == RexSurplus(s) - payment
      && Pools.Available(t.pool)
      && PriceHeld(s.pool, t.pool)
      && t.balances.Keys == s.balances.Keys + {owner}
  {
    hide WeightsAgree, StakesOk, ResourcesOk, RefundsOk, InTimeOrder, Total, BalancesOk, Token.NoneOverdrawn, OrdersOk, LoansOk,
         Maturity.AddMaturing, Maturity.Healthy, Pools.AddPurchase, Proceeds, Shares, Pools.PriceKept;
    Pools.AddPurchaseKeeps(s.pool, payment);
    var (pool, received) := Pools.AddPurchase(s.pool, payment).value;
    var was := if owner in s.balances then s.balances[owner] else Balance(0, 0, 0, []);
    var stake := if owner in s.balances then Pools.ValueOf(pool, was.rex + received) else payment;
    var b := Maturity.AddMaturing(was.(rex := was.rex + received, voteStake := stake), now, received);
    PurchasedBalance(s.balances, now, owner, received, stake);
    PurchaseTables(s, now, owner, payment, b);
    var t := s.(pool := Some(pool), balances := s.balances[owner := b]);
    assert Purchase(s, now, owner, payment) == Success((t, stake - was.voteStake));
    assert MaintInv(t, now);
  }

  lemma NoShares(balances: map<Name, Balance>)
    requires balances == map[]
    ensures Shares(balances) == 0
  {
    assert SharesOf(balances) == map[];
  }

  // Actions on funds

  lemma DepositKeeps(s: State, now: int, owner: Name, amount: int)
    requires Whole(s, now) && User(owner) && Deposit(s, owner, amount).Success?
    ensures Sustained(s, Deposit(s, owner, amount).value, now)
  {
    hide PoolOk, BalancesOk, FundsOk, OrdersOk, InTimeOrder, StakeInv, VotingProofs.VoteInv, Total;
    Token.TransferMoves(s.tokens, owner, REX, amount);
    ToFundKeeps(s, now, owner, amount);
    var t := Deposit(s, owner, amount).value;
    assert t == s.(tokens := t.tokens, funds := t.funds);
    TokensKeep(s.(funds := t.funds), now, t.tokens);
    PriceHeldSame(s);
  }

  /** Tokens elsewhere may move freely. */
  lemma TokensKeep(s: State, now: int, tokens: Tokens)
    requires MaintInv(s, now) && Token.NoneOverdrawn(tokens) && At(tokens, NAMES) == At(s.tokens, NAMES)
    ensures MaintInv(s.(tokens := tokens), now)
  {
  }

  lemma PriceHeldSame(s: State)
    ensures PriceHeld(s.pool, s.pool)
  {
  }

  /** A withdrawal never finds the exchange short of tokens. */
  lemma WithdrawKeeps(s: State, now: int, owner: Name, amount: int)
    requires Whole(s, now) && User(owner) && Withdraw(s, now, owner, amount).Success?
    ensures Sustained(s, Withdraw(s, now, owner, amount).value, now)
  {
    hide MaintInv, VotingProofs.VoteInv, Total, UpdateRexAccount, TransferFromFund;
    UpdateRexAccountKeeps(s, now, owner, 0, 0, false);
    var updated := UpdateRexAccount(s, now, owner, 0, 0, false).value.0;
    FromFundKeeps(updated, now, owner, amount);
    var taken := TransferFromFund(updated, owner, amount).value;
    TokensNotOverdrawn(taken, now);
    Token.TransferMoves(taken.tokens, REX, owner, amount);
    var t := Withdraw(s, now, owner, amount).value;
    TokensKeep(taken, now, t.tokens);
  }

  lemma TokensNotOverdrawn(s: State, now: int)
    requires MaintInv(s, now)
    ensures Token.NoneOverdrawn(s.tokens)
  {
  }

  // Actions that buy

  /** What follows a purchase: maintenance, then the owner's account. */
  lemma AfterPurchase(s: State, bought: State, now: int, owner: Name, stakeChange: int, force: bool)
    requires Whole(bought, now) && Pools.Available(bought.pool) && PriceHeld(s.pool, bought.pool) && Conserved(s, bought)
    requires s.pool.Some? ==> Pools.Sound(s.pool.value)
    ensures RunRex(bought, now, MAINTENANCE).Success?
    ensures var m := RunRex(bought, now, MAINTENANCE).value;
      UpdateRexAccount(m, now, owner, 0, stakeChange, force).Success? ==>
        Sustained(s, UpdateRexAccount(m, now, owner, 0, stakeChange, force).value.0, now)
  {
    hide MaintInv, VotingProofs.VoteInv, Total, RexSurplus, StakeSurplus, UpdateRexAccount, RunRex, Pools.PriceKept;
    RunRexKeeps(bought, now, MAINTENANCE);
    var m := RunRex(bought, now, MAINTENANCE).value;
    MaintainedConserves(bought, m, now);
    PoolIsSound(bought, now);
    PoolIsSound(m, now);
    if UpdateRexAccount(m, now, owner, 0, stakeChange, force).Success? {
      UpdateRexAccountKeeps(m, now, owner, 0, stakeChange, force);
      var t := UpdateRexAccount(m, now, owner, 0, stakeChange, force).value.0;
      assert StakeSurplus(t) == StakeSurplus(m) by { StakeSurplusParts(t); StakeSurplusParts(m); }
      if Pools.Available(s.pool) && Pools.Available(t.pool) {
        Pools.PriceKeptTransitive(s.pool.value, bought.pool.value, m.pool.value);
      }
    }
  }

  lemma StakeSurplusParts(s: State)
    ensures StakeSurplus(s) == At(s.tokens, STAKE) - Total(StakesOf(s.delegations)) - Total(RefundsOf(s.refunds))
  {
  }

  lemma SoundPool(s: State, now: int)
    requires MaintInv(s, now)
    ensures s.pool.Some? ==> Pools.Sound(s.pool.value)
  {
  }

  lemma BuyRexKeeps(s: State, now: int, from: Name, amount: int)
    requires Whole(s, now) && InEpoch(now) && BuyRex(s, now, from, amount).Success?
    ensures Sustained(s, BuyRex(s, now, from, amount).value, now)
  {
    hide MaintInv, VotingProofs.VoteInv, Total, UpdateRexAccount, RunRex, Purchase, TransferFromFund, PriceHeld;
    FromFundKeeps(s, now, from, amount);
    var paid := TransferFromFund(s, from, amount).value;
    PurchaseKeeps(paid, now, from, amount);
    var (bought, stakeChange) := Purchase(paid, now, from, amount).value;
    SoundPool(s, now);
    AfterPurchase(s, bought, now, from, stakeChange, false);
  }

  /** Unstaked tokens leave the receiver's totals and the stake account together. */
  lemma UnstakeTables(s: State, now: int, owner: Name, receiver: Name, net: int, cpu: int)
    requires MaintInv(s, now)
    requires Staking.ChangeDelegation(s.delegations, owner, receiver, -net, -cpu).Success?
    ensures var r := Staking.UpdateResources(s.resources, receiver, -net, -cpu);
      var delegations := Staking.ChangeDelegation(s.delegations, owner, receiver, -net, -cpu).value;
      && r.Success?
      && MaintInv(s.(delegations := delegations, resources := r.value), now)
      && Total(StakesOf(delegations)) == Total(StakesOf(s.delegations)) - net - cpu
  {
    hide PoolOk, BalancesOk, OrdersOk, InTimeOrder, Total, Staking.ChangeDelegation, Staking.UpdateResources,
         Inbound, StakedTo;
    ChangeDelegationStakes(s.delegations, owner, receiver, -net, -cpu);
    UpdateResourcesWeights(s.resources, receiver, -net, -cpu);
    var delegations := Staking.ChangeDelegation(s.delegations, owner, receiver, -net, -cpu).value;
    InboundNonneg(delegations, Net, receiver);
    InboundNonneg(delegations, Cpu, receiver);
    LoansStakeNonneg(s, now, receiver);
  }

  lemma LoansStakeNonneg(s: State, now: int, receiver: Name)
    requires MaintInv(s, now)
    ensures 0 <= StakedTo(s.cpuLoans, receiver) && 0 <= StakedTo(s.netLoans, receiver)
  {
    StakedNonneg(s.cpuLoans, now, receiver);
    StakedNonneg(s.netLoans, now, receiver);
  }

  /** The state in which unstaked tokens have reached the exchange: what stakes were owed is now more
      than REX is owed, by the same amount. */
  lemma UnstakeKeeps(s: State, now: int, owner: Name, receiver: Name, net: int, cpu: int)
    requires MaintInv(s, now) && Unstake(s, owner, receiver, net, cpu).Success?
    ensures var t := Unstake(s, owner, receiver, net, cpu).value;
      && MaintInv(t, now) && 0 < net + cpu
      && RexSurplus(t) == RexSurplus(s) + net + cpu && StakeSurplus(t) == StakeSurplus(s)
      && Total(t.tokens) == Total(s.tokens)
      && (forall a :: PayAccount(a) ==> At(t.tokens, a) == At(s.tokens, a))
  {
    hide MaintInv, Total, Staking.ChangeDelegation, Staking.UpdateResources, Token.Transfer, Token.NoneOverdrawn;
    UnstakeTables(s, now, owner, receiver, net, cpu);
    var delegations := Staking.ChangeDelegation(s.delegations, owner, receiver, -net, -cpu).value;
    var resources := Staking.UpdateResources(s.resources, receiver, -net, -cpu).value;
    TokensNotOverdrawn(s, now);
    Token.TransferMoves(s.tokens, STAKE, REX, net + cpu);
    var tokens := Token.Transfer(s.tokens, STAKE, REX, net + cpu).value;
    var unbooked := s.(delegations := delegations, resources := resources);
    TokensKeep(unbooked, now, tokens);
    assert s.(delegations := delegations, resources := resources, tokens := tokens) == unbooked.(tokens := tokens);
  }

  /** Unstaking into REX moves the same amount from what stakes are owed to what REX owes. */
  lemma UnstakeToRexKeeps(s: State, now: int, owner: Name, receiver: Name, net: int, cpu: int)
    requires Whole(s, now) && InEpoch(now) && UnstakeToRex(s, now, owner, receiver, net, cpu).Success?
    ensures Sustained(s, UnstakeToRex(s, now, owner, receiver, net, cpu).value, now)
  {
    hide MaintInv, VotingProofs.VoteInv, Total, UpdateRexAccount, RunRex, Purchase, PriceHeld, RexSurplus, Unstake;
    UnstakeKeeps(s, now, owner, receiver, net, cpu);
    var unstaked := Unstake(s, owner, receiver, net, cpu).value;
    PurchaseKeeps(unstaked, now, owner, net + cpu);
    var (bought, stakeChange) := Purchase(unstaked, now, owner, net + cpu).value;
    SoundPool(s, now);
    AfterPurchase(s, bought, now, owner, 0, true);
  }

  // Actions that sell

  /** A balance may be replaced by a healthy one that still backs the owner's open order. */
  lemma BalanceRowKeeps(s: State, now: int, owner: Name, b: Balance)
    requires MaintInv(s, now) && owner in s.balances
    requires Maturity.Healthy(b, now) && b.rex == s.balances[owner].rex
    requires owner in s.orders && s.orders[owner].open ==> s.orders[owner].requested <= b.matured
    ensures MaintInv(s.(balances := s.balances[owner := b]), now)
    ensures RexSurplus(s.(balances := s.balances[owner := b])) == RexSurplus(s)
  {
    hide WeightsAgree, StakesOk, ResourcesOk, RefundsOk, InTimeOrder, LoansOk, Maturity.Healthy, Total, Token.NoneOverdrawn;
    SharesUpdate(s.balances, owner, b);
  }

  lemma MaturedRowKeeps(s: State, now: int, owner: Name)
    requires MaintInv(s, now) && InEpoch(now) && owner in s.balances
    ensures var b := s.balances[owner];
      var ready := Maturity.Mature(b, Seconds(now));
      && Maturity.Healthy(ready, now) && ready.rex == b.rex && b.matured <= ready.matured
      && MaintInv(s.(balances := s.balances[owner := ready]), now)
      && RexSurplus(s.(balances := s.balances[owner := ready])) == RexSurplus(s)
  {
    hide WeightsAgree, StakesOk, ResourcesOk, RefundsOk, InTimeOrder, LoansOk, Total, PoolOk, Maturity.Mature, Maturity.Shape,
         Maturity.NoneNegative, Maturity.AmountOf;
    Maturity.MatureHealthy(s.balances[owner], now);
    BalanceRowKeeps(s, now, owner, Maturity.Mature(s.balances[owner], Seconds(now)));
  }

  /** The tables after a direct sale, given that what is left still backs the owner's open order. */
  lemma SoldTables(s: State, now: int, owner: Name, b: Balance, rex: int)
    requires MaintInv(s, now) && s.pool.Some? && owner in s.balances
    requires Maturity.Healthy(b, now) && b.rex == s.balances[owner].rex && 0 < rex <= b.matured
    requires Pools.Sell(s.pool.value, b, rex).Success? && Pools.Sell(s.pool.value, b, rex).value.Filled?
    requires owner in s.orders && s.orders[owner].open ==> s.orders[owner].requested <= b.matured - rex
    ensures var sale := Pools.Sell(s.pool.value, b, rex).value;
      var sold := s.(pool := Some(sale.pool), balances := s.balances[owner := sale.balance]);
      && 0 <= sale.proceeds
      && MaintInv(sold, now) && RexSurplus(sold) == RexSurplus(s) + sale.proceeds
      && Pools.PriceKept(s.pool.value, sale.pool)
      && sale.balance.matured == b.matured - rex
  {
    hide WeightsAgree, StakesOk, ResourcesOk, RefundsOk, InTimeOrder, LoansOk, Total, Token.NoneOverdrawn, Maturity.Shape,
         Pools.Sell, Shares, Proceeds;
    ShareAtMost(s.balances, now, owner);
    Maturity.SumsNonneg(b.buckets, 0);
    Pools.SellKeeps(s.pool.value, b, rex);
    SharesUpdate(s.balances, owner, Pools.Sell(s.pool.value, b, rex).value.balance);
  }

  lemma {:induction false} EnqueueKeeps(queue: seq<Name>, orders: map<Name, Order>, after: map<Name, Order>, time: int, owner: Name)
    requires InTimeOrder(orders, queue) && owner !in queue
    requires TimeOf(after, owner) == time && forall n :: n in queue ==> TimeOf(after, n) == TimeOf(orders, n)
    ensures var queued := Enqueue(queue, orders, time, owner);
      && InTimeOrder(after, queued)
      && |queued| == |queue| + 1
      && forall n :: n in queued <==> n == owner || n in queue
    decreases |queue|
  {
    if queue != [] && !Earlier(time, owner, TimeOf(orders, queue[0]), queue[0]) {
      var rest := Enqueue(queue[1..], orders, time, owner);
      EnqueueKeeps(queue[1..], orders, after, time, owner);
      assert queue == [queue[0]] + queue[1..];
      forall i | 0 <= i < |rest| ensures Earlier(TimeOf(after, queue[0]), queue[0], TimeOf(after, rest[i]), rest[i]) {
        assert rest[i] in rest;
        if rest[i] != owner {
          var k :| 0 <= k < |queue[1..]| && queue[1..][k] == rest[i];
          assert queue[k + 1] == rest[i];
        }
      }
    }
  }

  /** A queued order is backed by what its owner has matured. */
  lemma QueueOrderKeeps(s: State, now: int, owner: Name, rex: int)
    requires MaintInv(s, now) && owner in s.balances && 0 < rex
    requires owner in s.orders ==> s.orders[owner].open
    requires QueueOrder(s, now, owner, rex).orders[owner].requested <= s.balances[owner].matured
    ensures var t := QueueOrder(s, now, owner, rex);
      && MaintInv(t, now) && t == s.(orders := t.orders, queue := t.queue)
      && Proceeds(t.orders) == Proceeds(s.orders)
  {
    hide PoolOk, WeightsAgree, StakesOk, ResourcesOk, RefundsOk, Total, Token.NoneOverdrawn, BalancesOk, Enqueue;
    var t := QueueOrder(s, now, owner, rex);
    ProceedsUpdate(s.orders, owner, t.orders[owner]);
    if owner !in s.orders {
      EnqueueKeeps(s.queue, s.orders, t.orders, now, owner);
    }
  }

  lemma SellRexKeeps(s: State, now: int, from: Name, rex: int)
    requires Whole(s, now) && InEpoch(now) && SellRex(s, now, from, rex).Success?
    ensures Sustained(s, SellRex(s, now, from, rex).value, now)
  {
    hide MaintInv, VotingProofs.VoteInv, Total, RexSurplus, StakeSurplus, UpdateRexAccount, RunRex, Pools.PriceKept,
         Pools.Sell, Maturity.Mature, Maturity.Healthy, Untouched, QueueOrder;
    RunRexKeeps(s, now, MAINTENANCE);
    var m := RunRex(s, now, MAINTENANCE).value;
    MaintainedWhole(s, m, now);
    MaturedRowKeeps(m, now, from);
    var b := Maturity.Mature(m.balances[from], Seconds(now));
    match Pools.Sell(m.pool.value, b, rex).value
    case Filled(pool, left, proceeds, stakeChange) =>
      SellFilledKeeps(s, m, now, from, rex, b);
    case Unfilled =>
      SellQueuedKeeps(s, m, now, from, rex, b);
  }

  lemma MaintainedWhole(s: State, m: State, now: int)
    requires Whole(s, now) && Maintained(s, m, now)
    ensures Whole(m, now)
  {
  }

  lemma SellFilledKeeps(s: State, m: State, now: int, from: Name, rex: int, b: Balance)
    requires Whole(s, now) && Maintained(s, m, now) && Whole(m, now) && from in m.balances
    requires Maturity.Healthy(b, now) && b.rex == m.balances[from].rex && 0 < rex <= b.matured
    requires Pools.Sell(m.pool.value, b, rex).Success? && Pools.Sell(m.pool.value, b, rex).value.Filled?
    requires var sale := Pools.Sell(m.pool.value, b, rex).value;
      var r := UpdateRexAccount(m.(pool := Some(sale.pool), balances := m.balances[from := sale.balance]),
                                now, from, sale.proceeds, sale.stakeChange, false);
      r.Success? && r.value.1 <= sale.balance.matured
    ensures var sale := Pools.Sell(m.pool.value, b, rex).value;
      var r := UpdateRexAccount(m.(pool := Some(sale.pool), balances := m.balances[from := sale.balance]),
                                now, from, sale.proceeds, sale.stakeChange, false);
      Sustained(s, r.value.0, now)
  {
    hide MaintInv, VotingProofs.VoteInv, Total, RexSurplus, StakeSurplus, UpdateRexAccount, Pools.PriceKept,
         Pools.Sell, Maturity.Healthy, Maintained;
    assert m.pool.Some? by { MaintainedPools(s, m, now); }
    var sale := Pools.Sell(m.pool.value, b, rex).value;
    var sold := m.(pool := Some(sale.pool), balances := m.balances[from := sale.balance]);
    UpdateRexAccountSteps(sold, now, from, sale.proceeds, sale.stakeChange, false);
    SaleTakes(m.pool.value, b, rex);
    SoldTables(m, now, from, b, rex);
    UpdateRexAccountKeeps(sold, now, from, sale.proceeds, sale.stakeChange, false);
    var t := UpdateRexAccount(sold, now, from, sale.proceeds, sale.stakeChange, false).value.0;
    assert StakeSurplus(t) == StakeSurplus(m) by { StakeSurplusParts(t); StakeSurplusParts(m); }
    AfterMaintenance(s, m, t, now);
  }

  lemma SaleTakes(p: Pool, b: Balance, rex: int)
    requires Pools.Sell(p, b, rex).Success? && Pools.Sell(p, b, rex).value.Filled?
    ensures Pools.Sell(p, b, rex).value.balance.matured == b.matured - rex
  {
  }

  lemma MaintainedPools(s: State, m: State, now: int)
    requires Maintained(s, m, now)
    ensures s.pool.Some? && m.pool.Some?
  {
  }

  lemma SellQueuedKeeps(s: State, m: State, now: int, from: Name, rex: int, b: Balance)
    requires Whole(s, now) && Maintained(s, m, now) && Whole(m, now) && from in m.balances && 0 < rex
    requires MaintInv(m.(balances := m.balances[from := b]), now)
    requires RexSurplus(m.(balances := m.balances[from := b])) == RexSurplus(m)
    requires var r := UpdateRexAccount(m.(balances := m.balances[from := b]), now, from, 0, 0, false);
      && r.Success?
      && QueueOrder(r.value.0, now, from, rex).orders[from].requested <= b.matured
    ensures var r := UpdateRexAccount(m.(balances := m.balances[from := b]), now, from, 0, 0, false);
      Sustained(s, QueueOrder(r.value.0, now, from, rex), now)
  {
    hide MaintInv, VotingProofs.VoteInv, Total, StakeSurplus, UpdateRexAccount, Pools.PriceKept, Maintained,
         QueueOrder, Proceeds;
    MaintainedPools(s, m, now);
    var unsold := m.(balances := m.balances[from := b]);
    UpdateRexAccountKeeps(unsold, now, from, 0, 0, false);
    var updated := UpdateRexAccount(unsold, now, from, 0, 0, false).value.0;
    QueueOrderKeeps(updated, now, from, rex);
    var t := QueueOrder(updated, now, from, rex);
    assert StakeSurplus(t) == StakeSurplus(m) by { StakeSurplusParts(t); StakeSurplusParts(m); }
    PriceKeptSame(m.pool.value);
    AfterMaintenance(s, m, t, now);
  }

  lemma PriceKeptSame(p: Pool)
    ensures Pools.PriceKept(p, p)
  {
  }

  lemma {:induction false} DequeueKeeps(queue: seq<Name>, orders: map<Name, Order>, after: map<Name, Order>, owner: Name)
    requires InTimeOrder(orders, queue)
    requires forall n :: n in queue && n != owner ==> TimeOf(after, n) == TimeOf(orders, n)
    ensures var rest := Dequeue(queue, owner);
      InTimeOrder(after, rest) && forall n :: n in rest <==> n in queue && n != owner
    decreases |queue|
  {
    if queue != [] {
      assert queue == [queue[0]] + queue[1..];
      if queue[0] == owner {
        forall i | 0 <= i < |queue[1..]| ensures queue[1..][i] != owner {
          assert queue[1..][i] == queue[i + 1];
        }
      } else {
        DequeueKeeps(queue[1..], orders, after, owner);
        var rest := Dequeue(queue[1..], owner);
        forall i | 0 <= i < |rest| ensures Earlier(TimeOf(after, queue[0]), queue[0], TimeOf(after, rest[i]), rest[i]) {
          assert rest[i] in rest;
          var k :| 0 <= k < |queue[1..]| && queue[1..][k] == rest[i];
          assert queue[k + 1] == rest[i];
        }
      }
    }
  }

  lemma CancelOrderKeeps(s: State, now: int, owner: Name)
    requires Whole(s, now) && CancelOrder(s, owner).Success?
    ensures Sustained(s, CancelOrder(s, owner).value, now)
  {
    hide PoolOk, WeightsAgree, StakesOk, ResourcesOk, RefundsOk, Total, Token.NoneOverdrawn, BalancesOk, Dequeue,
         VotingProofs.VoteInv;
    DequeueKeeps(s.queue, s.orders, s.orders - {owner}, owner);
    ProceedsDrop(s.orders, owner);
  }

  // Loans

  /** A new loan may be booked where loans are available. */
  lemma NewLoanKeeps(s: State, now: int, kind: LoanKind, from: Name, receiver: Name, payment: int, fund: int)
    requires MaintInv(s, now) && s.pool.Some? && 0 < s.pool.value.rex && 0 < payment && 0 <= fund
    requires Pools.BancorOutput(s.pool.value.rent, s.pool.value.unlent, payment).Success?
    requires payment < Pools.BancorOutput(s.pool.value.rent, s.pool.value.unlent, payment).value
    ensures var rented := Pools.BancorOutput(s.pool.value.rent, s.pool.value.unlent, payment).value;
      var pool := Pools.AddLoan(s.pool.value, payment, rented, true);
      var loan := Loan(from, receiver, payment, fund, rented, pool.loanNum, now + LOAN_TERM);
      var booked := WithLoans(s.(pool := Some(pool)), kind, Insert(LoansOf(s, kind), loan));
      var r := StakeTo(booked, kind, receiver, rented);
      && r.Success? && MaintInv(r.value, now) && r.value == booked.(resources := r.value.resources)
      && RexSurplus(r.value) == RexSurplus(s) - payment - fund
      && Pools.PriceKept(s.pool.value, pool)
  {
    hide StakesOk, ResourcesOk, RefundsOk, Token.NoneOverdrawn, OrdersOk, InTimeOrder, BalancesOk, Total, Pools.BancorOutput,
         Staking.UpdateResources, Inbound, Shares, Indexed, AllFair;
    var p := s.pool.value;
    Pools.AddLoanKeeps(p, payment, true);
    var rented := Pools.BancorOutput(p.rent, p.unlent, payment).value;
    var pool := Pools.AddLoan(p, payment, rented, true);
    var loan := Loan(from, receiver, payment, fund, rented, pool.loanNum, now + LOAN_TERM);
    LoansOkMore(s.cpuLoans, now, p.loanNum);
    LoansOkMore(s.netLoans, now, p.loanNum);
    InsertIndexed(LoansOf(s, kind), loan, pool.loanNum);
    InsertFair(LoansOf(s, kind), loan, now);
    forall a ensures StakedTo(Insert(LoansOf(s, kind), loan), a)
                  == StakedTo(LoansOf(s, kind), a) + if a == receiver then rented else 0 {
      InsertSums(LoansOf(s, kind), loan, a);
    }
    InsertSums(LoansOf(s, kind), loan, receiver);
    NewLoanWeights(s, now, kind, receiver, rented);
  }

  /** The numbers handed out so far stay below the next one. */
  lemma LoansOkMore(loans: seq<Loan>, now: int, lastNum: nat)
    requires LoansOk(loans, now, lastNum)
    ensures LoansOk(loans, now, lastNum + 1)
    ensures forall i :: 0 <= i < |loans| ==> loans[i].num != lastNum + 1
  {
  }

  lemma NewLoanWeights(s: State, now: int, kind: LoanKind, receiver: Name, rented: int)
    requires MaintInv(s, now) && 0 <= rented
    ensures var r := Staking.UpdateResources(s.resources, receiver, if kind == Net then rented else 0, if kind == Cpu then rented else 0);
      && r.Success? && ResourcesOk(r.value)
      && forall k, a :: Weight(r.value, k, a) == Weight(s.resources, k, a) + if a == receiver && k == kind then rented else 0
  {
    hide PoolOk, OrdersOk, InTimeOrder, BalancesOk, Inbound, Staking.UpdateResources;
    UpdateResourcesWeights(s.resources, receiver, if kind == Net then rented else 0, if kind == Cpu then rented else 0);
  }

  /** Renting moves the payment to the lenders, sets the fund aside, and stakes the rented tokens. */
  lemma RentKeeps(s: State, now: int, kind: LoanKind, from: Name, receiver: Name, payment: int, fund: int)
    requires Whole(s, now) && Rent(s, now, kind, from, receiver, payment, fund).Success?
    ensures Sustained(s, Rent(s, now, kind, from, receiver, payment, fund).value, now)
  {
    hide MaintInv, VotingProofs.VoteInv, Total, StakeSurplus, RunRex, Pools.PriceKept, Maintained,
         TransferFromFund, StakeTo, Pools.BancorOutput, Proceeds, Pools.AddLoan, Insert;
    SoundPool(s, now);
    RunRexKeeps(s, now, MAINTENANCE);
    var m := RunRex(s, now, MAINTENANCE).value;
    MaintainedPools(s, m, now);
    MaintainedWhole(s, m, now);
    FromFundKeeps(m, now, from, payment + fund);
    var paid := TransferFromFund(m, from, payment + fund).value;
    NewLoanKeeps(paid, now, kind, from, receiver, payment, fund);
    var t := Rent(s, now, kind, from, receiver, payment, fund).value;
    assert StakeSurplus(t) == StakeSurplus(m) by { StakeSurplusParts(t); StakeSurplusParts(m); }
    AfterMaintenance(s, m, t, now);
  }

  /** What a loan has set aside may change as long as it is not negative. */
  lemma LoanBalanceKeeps(s: State, now: int, kind: LoanKind, at: nat, balance: int)
    requires MaintInv(s, now) && at < |LoansOf(s, kind)| && 0 <= balance
    ensures var loans := LoansOf(s, kind);
      var t := WithLoans(s, kind, loans[at := loans[at].(balance := balance)]);
      MaintInv(t, now) && RexSurplus(t) == RexSurplus(s) + loans[at].balance - balance
  {
    hide StakesOk, ResourcesOk, RefundsOk, Token.NoneOverdrawn, OrdersOk, InTimeOrder, BalancesOk, Total, Inbound, Shares;
    var loans := LoansOf(s, kind);
    forall a ensures StakedTo(loans[at := loans[at].(balance := balance)], a) == StakedTo(loans, a) {
      RefundSums(loans, at, balance, a);
    }
    RefundSums(loans, at, balance, loans[at].receiver);
  }

  lemma FundLoanKeeps(s: State, now: int, kind: LoanKind, from: Name, num: nat, payment: int)
    requires Whole(s, now) && FundLoan(s, now, kind, from, num, payment).Success?
    ensures Sustained(s, FundLoan(s, now, kind, from, num, payment).value, now)
  {
    hide MaintInv, VotingProofs.VoteInv, Total, StakeSurplus, TransferFromFund, FindLoan, Pools.PriceKept, Proceeds, Escrow;
    FromFundKeeps(s, now, from, payment);
    var paid := TransferFromFund(s, from, payment).value;
    var at := FindLoan(paid, now, kind, from, num).value;
    var loans := LoansOf(paid, kind);
    LoansFair(paid, now, kind, at);
    LoanBalanceKeeps(paid, now, kind, at, loans[at].balance + payment);
    var t := FundLoan(s, now, kind, from, num, payment).value;
    assert StakeSurplus(t) == StakeSurplus(s) by { StakeSurplusParts(t); StakeSurplusParts(s); }
    PriceHeldSame(s);
  }

  lemma LoansFair(s: State, now: int, kind: LoanKind, at: nat)
    requires MaintInv(s, now) && at < |LoansOf(s, kind)|
    ensures Fair(LoansOf(s, kind)[at], now)
  {
  }

  lemma DefundLoanKeeps(s: State, now: int, kind: LoanKind, from: Name, num: nat, amount: int)
    requires Whole(s, now) && DefundLoan(s, now, kind, from, num, amount).Success?
    ensures Sustained(s, DefundLoan(s, now, kind, from, num, amount).value, now)
  {
    hide MaintInv, VotingProofs.VoteInv, Total, StakeSurplus, FindLoan, Pools.PriceKept, Proceeds, Escrow;
    var at := FindLoan(s, now, kind, from, num).value;
    var loans := LoansOf(s, kind);
    LoansFair(s, now, kind, at);
    LoanBalanceKeeps(s, now, kind, at, loans[at].balance - amount);
    var less := WithLoans(s, kind, loans[at := loans[at].(balance := loans[at].balance - amount)]);
    ToFundKeeps(less, now, from, amount);
    var t := DefundLoan(s, now, kind, from, num, amount).value;
    assert StakeSurplus(t) == StakeSurplus(s) by { StakeSurplusParts(t); StakeSurplusParts(s); }
    PriceHeldSame(s);
  }

  lemma SetRexKeeps(s: State, now: int, balance: int)
    requires Whole(s, now) && SetRex(s, balance).Success?
    ensures Sustained(s, SetRex(s, balance).value, now)
  {
    hide BalancesOk, FundsOk, OrdersOk, InTimeOrder, WeightsAgree, VotingProofs.VoteInv, Total, LoansOk;
  }

  // Actions on one balance

  /** Maintenance alone. */
  lemma RexExecKeeps(s: State, now: int, max: nat)
    requires Whole(s, now) && s.pool.Some?
    ensures RunRex(s, now, max).Success? && Sustained(s, RunRex(s, now, max).value, now)
  {
    hide MaintInv, VotingProofs.VoteInv, RunRex, Maintained;
    RunRexKeeps(s, now, max);
    MaintainedConserves(s, RunRex(s, now, max).value, now);
  }

  /** What an owner's row and open order look like in a state that keeps the invariant. */
  lemma OwnerRow(s: State, now: int, owner: Name)
    requires MaintInv(s, now)
    ensures owner in s.balances ==> Maturity.Healthy(s.balances[owner], now)
    ensures owner in s.orders && s.orders[owner].open ==>
      owner in s.balances && 0 < s.orders[owner].requested <= s.balances[owner].matured
  {
  }

  lemma UpdateRexKeeps(s: State, now: int, owner: Name)
    requires Whole(s, now) && InEpoch(now) && UpdateRex(s, now, owner).Success?
    ensures Sustained(s, UpdateRex(s, now, owner).value, now)
  {
    hide MaintInv, VotingProofs.VoteInv, Total, RexSurplus, StakeSurplus, UpdateRexAccount, RunRex, Pools.PriceKept,
         Maturity.Mature, Maturity.Healthy, Maintained;
    RunRexKeeps(s, now, MAINTENANCE);
    var m := RunRex(s, now, MAINTENANCE).value;
    MaintainedWhole(s, m, now);
    OwnerRow(m, now, owner);
    var b := m.balances[owner];
    var p := m.pool.value;
    var stake := if 0 < p.rex then Pools.ValueOf(p, b.rex) else 0;
    var valued := b.(voteStake := stake);
    RestakedHealthy(b, now, stake);
    BalanceRowKeeps(m, now, owner, valued);
    var revalued := m.(balances := m.balances[owner := valued]);
    UpdateRexAccountKeeps(revalued, now, owner, 0, stake - b.voteStake, true);
    var updated := UpdateRexAccount(revalued, now, owner, 0, stake - b.voteStake, true).value.0;
    OwnerRow(updated, now, owner);
    Maturity.MatureHealthy(valued, now);
    AfterRevalued(s, m, now, owner, valued, updated, Maturity.Mature(valued, Seconds(now)));
  }

  lemma RestakedHealthy(b: Balance, now: int, stake: int)
    requires Maturity.Healthy(b, now)
    ensures Maturity.Healthy(b.(voteStake := stake), now)
  {
  }

  /** Maintenance, then the owner's account, then a change of the owner's balance row. */
  lemma AfterRevalued(s: State, m: State, now: int, owner: Name, valued: Balance, updated: State, b: Balance)
    requires Whole(s, now) && Maintained(s, m, now) && Whole(updated, now)
    requires updated == m.(balances := m.balances[owner := valued], orders := updated.orders, funds := updated.funds, votes := updated.votes)
    requires RexSurplus(updated) == RexSurplus(m) && VotingProofs.SameUnpaid(m.votes.voters, updated.votes.voters)
    requires Maturity.Healthy(b, now) && b.rex == valued.rex
    requires owner in updated.orders && updated.orders[owner].open ==> updated.orders[owner].requested <= b.matured
    ensures Sustained(s, updated.(balances := updated.balances[owner := b]), now)
  {
    hide MaintInv, VotingProofs.VoteInv, Total, StakeSurplus, RexSurplus, Pools.PriceKept, Maintained, Maturity.Healthy;
    MaintainedPools(s, m, now);
    BalanceRowKeeps(updated, now, owner, b);
    var t := updated.(balances := updated.balances[owner := b]);
    assert StakeSurplus(t) == StakeSurplus(m) by { StakeSurplusParts(t); StakeSurplusParts(m); }
    PriceKeptSame(m.pool.value);
    AfterMaintenance(s, m, t, now);
  }

  lemma ConsolidateKeeps(s: State, now: int, owner: Name)
    requires Whole(s, now) && InEpoch(now) && Consolidate(s, now, owner).Success?
    ensures Sustained(s, Consolidate(s, now, owner).value, now)
  {
    hide MaintInv, VotingProofs.VoteInv, Total, RexSurplus, StakeSurplus, UpdateRexAccount, RunRex, Pools.PriceKept,
         Maturity.Consolidate, Maturity.Healthy, Maintained;
    RunRexKeeps(s, now, MAINTENANCE);
    var m := RunRex(s, now, MAINTENANCE).value;
    MaintainedWhole(s, m, now);
    UpdateRexAccountKeeps(m, now, owner, 0, 0, false);
    var (updated, inOrder) := UpdateRexAccount(m, now, owner, 0, 0, false).value;
    OwnerRow(updated, now, owner);
    HealthyMatured(m.balances[owner], now);
    Maturity.ConsolidateKeeps(m.balances[owner], now, inOrder, Seconds(now));
    assert m.balances == m.balances[owner := m.balances[owner]];
    AfterRevalued(s, m, now, owner, m.balances[owner], updated, Maturity.Consolidate(m.balances[owner], now, inOrder));
  }

  lemma HealthyMatured(b: Balance, now: int)
    requires Maturity.Healthy(b, now)
    ensures 0 <= b.matured
  {
  }

  /** The internal-error checks of the action cannot fail. */
  lemma MoveToSavingsKeeps(s: State, now: int, owner: Name, rex: int)
    requires Whole(s, now) && InEpoch(now) && MoveToSavings(s, now, owner, rex).Success?
    ensures Sustained(s, MoveToSavings(s, now, owner, rex).value, now)
  {
    hide MaintInv, VotingProofs.VoteInv, Total, RexSurplus, StakeSurplus, UpdateRexAccount, RunRex, Pools.PriceKept,
         Maturity.MoveToSavings, Maturity.Healthy, Maintained;
    RunRexKeeps(s, now, MAINTENANCE);
    var m := RunRex(s, now, MAINTENANCE).value;
    MaintainedWhole(s, m, now);
    UpdateRexAccountKeeps(m, now, owner, 0, 0, false);
    var (updated, inOrder) := UpdateRexAccount(m, now, owner, 0, 0, false).value;
    OwnerRow(updated, now, owner);
    HealthyMatured(m.balances[owner], now);
    Maturity.MoveToSavingsKeeps(m.balances[owner], now, rex, inOrder, Seconds(now));
    assert m.balances == m.balances[owner := m.balances[owner]];
    AfterRevalued(s, m, now, owner, m.balances[owner], updated, Maturity.MoveToSavings(m.balances[owner], now, rex, inOrder).value);
  }

  lemma MoveFromSavingsKeeps(s: State, now: int, owner: Name, rex: int)
    requires Whole(s, now) && InEpoch(now) && MoveFromSavings(s, now, owner, rex).Success?
    ensures Sustained(s, MoveFromSavings(s, now, owner, rex).value, now)
  {
    hide MaintInv, VotingProofs.VoteInv, Total, RexSurplus, StakeSurplus, UpdateRexAccount, RunRex, Pools.PriceKept,
         Maturity.MoveFromSavings, Maturity.Healthy, Maintained;
    RunRexKeeps(s, now, MAINTENANCE);
    var m := RunRex(s, now, MAINTENANCE).value;
    MaintainedPools(s, m, now);
    MaintainedWhole(s, m, now);
    OwnerRow(m, now, owner);
    Maturity.MoveFromSavingsKeeps(m.balances[owner], now, rex, Seconds(now));
    var b := Maturity.MoveFromSavings(m.balances[owner], now, rex).value;
    BalanceRowKeeps(m, now, owner, b);
    var moved := m.(balances := m.balances[owner := b]);
    UpdateRexAccountKeeps(moved, now, owner, 0, 0, false);
    var t := UpdateRexAccount(moved, now, owner, 0, 0, false).value.0;
    assert StakeSurplus(t) == StakeSurplus(m) by { StakeSurplusParts(t); StakeSurplusParts(m); }
    PriceKeptSame(m.pool.value);
    AfterMaintenance(s, m, t, now);
  }

  /** Dropping an empty fund or an empty balance loses nothing. */
  lemma DropFundKeeps(s: State, now: int, owner: Name)
    requires MaintInv(s, now) && owner in s.funds && s.funds[owner] == 0
    ensures var t := s.(funds := s.funds - {owner});
      MaintInv(t, now) && RexSurplus(t) == RexSurplus(s)
  {
    hide PoolOk, BalancesOk, OrdersOk, InTimeOrder, WeightsAgree, StakesOk, ResourcesOk, RefundsOk,
         Token.NoneOverdrawn, Total;
    TotalDrop(s.funds, owner);
  }

  lemma DropBalanceKeeps(s: State, now: int, owner: Name)
    requires MaintInv(s, now) && owner in s.balances && s.balances[owner].rex == 0
    ensures var t := s.(balances := s.balances - {owner});
      MaintInv(t, now) && RexSurplus(t) == RexSurplus(s)
  {
    hide InTimeOrder, WeightsAgree, StakesOk, ResourcesOk, RefundsOk, Token.NoneOverdrawn, Total, LoansOk, Maturity.Shape;
    SharesDrop(s.balances, owner);
    ShareAtMost(s.balances, now, owner);
  }

  /** Closing an account erases only empty rows. */
  lemma CloseRexKeeps(s: State, now: int, owner: Name)
    requires Whole(s, now) && CloseRex(s, now, owner).Success?
    ensures Sustained(s, CloseRex(s, now, owner).value, now)
  {
    hide MaintInv, VotingProofs.VoteInv, Total, RexSurplus, StakeSurplus, UpdateRexAccount, RunRex, Pools.PriceKept, Maintained,
         HasOwner;
    if s.pool.Some? { RunRexKeeps(s, now, MAINTENANCE); }
    var m := if s.pool.Some? then RunRex(s, now, MAINTENANCE).value else s;
    if s.pool.Some? { MaintainedWhole(s, m, now); MaintainedPools(s, m, now); }
    UpdateRexAccountKeeps(m, now, owner, 0, 0, false);
    var updated := UpdateRexAccount(m, now, owner, 0, 0, false).value.0;
    var idle := !HasOwner(updated.cpuLoans, owner) && !HasOwner(updated.netLoans, owner)
                && owner in updated.funds && updated.funds[owner] == 0;
    if idle { DropFundKeeps(updated, now, owner); }
    var closed := if idle then updated.(funds := updated.funds - {owner}) else updated;
    if owner in closed.balances { DropBalanceKeeps(closed, now, owner); }
    var t := CloseRex(s, now, owner).value;
    assert StakeSurplus(t) == StakeSurplus(m) by { StakeSurplusParts(t); StakeSurplusParts(m); }
    if s.pool.Some? {
      PriceKeptSame(m.pool.value);
      AfterMaintenance(s, m, t, now);
    }
  }
}
