/** What holds of the exchange, the stakes and the rewards in every run. */
module Theorems {
  import opened Outcomes
  import opened Arithmetic
  import opened Sums
  import opened Chain
  import opened Loans
  import opened Ledger
  import opened System
  import opened Exchange
  import opened RewardProofs
  import opened Runs
  import Maintenance
  import Maturity
  import Pools
  import Rex
  import Staking
  import Token
  import VotingProofs

  // Solvency

  /** Tokens simply sent to an account during a run. */
  function Gifts(s: State, events: seq<Event>, to: Name): int
    decreases |events|
  {
    if events == [] then 0
    else
      var r := Apply(s, events[0].now, events[0].action);
      (if r.Success? then Gift(events[0].action, to) else 0)
      + Gifts(Step(s, events[0].now, events[0].action), events[1..], to)
  }

  lemma StepSurplus(s: State, start: int, at: int, a: Action)
    requires Inv(s, start) && 0 <= start <= at && InEpoch(at) && Permitted(s, a)
    ensures var t := Step(s, at, a);
      var gifted := Apply(s, at, a).Success?;
      && RexSurplus(t) == RexSurplus(s) + (if gifted then Gift(a, REX) else 0)
      && StakeSurplus(t) == StakeSurplus(s) + (if gifted then Gift(a, STAKE) else 0)
      && PriceHeld(s.pool, t.pool)
      && (VoteRewardsSafe(s) && Creditable(s, a) ==> VoteRewardsSafe(t))
  {
    hide Inv, Apply, RexSurplus, StakeSurplus, Creditable, VoteRewardsSafe, PriceHeld;
    InvLater(s, start, at);
    if Apply(s, at, a).Success? { ApplyEffect(s, at, a); } else { PriceHeldSame(s); }
  }

  /** Over any run, tokens moved into the exchange account minus tokens moved out equal the change of
      all funds, lendable tokens, loan balances and uncollected proceeds together, but for tokens
      simply sent there; and the same of the stake account, its delegations and its refunds. */
  lemma {:induction false} RunConserves(s: State, start: int, events: seq<Event>)
    requires Inv(s, start) && Chronological(start, events) && AllPermitted(s, events)
    ensures var t := Run(s, events);
      && At(t.tokens, REX) - At(s.tokens, REX) == RexOwed(t) - RexOwed(s) + Gifts(s, events, REX)
      && At(t.tokens, STAKE) - At(s.tokens, STAKE) == StakeOwed(t) - StakeOwed(s) + Gifts(s, events, STAKE)
    decreases |events|
  {
    hide Inv, Step, Permitted, RexOwed, StakeOwed, Apply;
    if events != [] {
      var e := events[0];
      ChronologicalTail(start, events);
      StepKeepsInv(s, start, e.now, e.action);
      StepSurplus(s, start, e.now, e.action);
      RunConserves(Step(s, e.now, e.action), e.now, events[1..]);
    }
  }

  lemma OwedParts(s: State, now: int)
    requires Inv(s, now)
    ensures 0 <= Total(s.funds) && 0 <= Lendable(s.pool) && 0 <= Escrow(s.cpuLoans) && 0 <= Escrow(s.netLoans)
    ensures 0 <= Proceeds(s.orders)
    ensures forall n :: At(s.funds, n) <= Total(s.funds)
    ensures RexOwed(s) <= At(s.tokens, REX)
  {
    hide WeightsAgree, StakesOk, ResourcesOk, RefundsOk, BalancesOk, VotingProofs.VoteInv, PayInv, Backed, InTimeOrder;
    TotalNonneg(s.funds);
    forall n ensures At(s.funds, n) <= Total(s.funds) {
      TotalAtLeast(s.funds, n);
    }
    StakedNonneg(s.cpuLoans, now, 0);
    StakedNonneg(s.netLoans, now, 0);
    TotalNonneg(ProceedsOf(s.orders));
  }

  /** In every reachable state a withdrawal within the owner's fund finds the exchange account able to
      pay it. */
  lemma WithdrawNeverShort(s: State, now: int, owner: Name, amount: int)
    requires Inv(s, now) && User(owner)
    ensures Rex.Withdraw(s, now, owner, amount).Success? <==>
      && 0 < amount
      && Rex.UpdateRexAccount(s, now, owner, 0, 0, false).Success?
      && var funds := Rex.UpdateRexAccount(s, now, owner, 0, 0, false).value.0.funds;
         owner in funds && amount <= funds[owner]
    ensures Rex.Withdraw(s, now, owner, amount).Success? ==>
      var t := Rex.Withdraw(s, now, owner, amount).value;
      && At(t.tokens, owner) == At(s.tokens, owner) + amount
      && At(t.funds, owner) == At(Rex.UpdateRexAccount(s, now, owner, 0, 0, false).value.0.funds, owner) - amount
  {
    hide MaintInv, VotingProofs.VoteInv, PayInv, Total, RexOwed, Rex.UpdateRexAccount, Backed, StakeSurplus,
         Token.NoneOverdrawn;
    var r := Rex.UpdateRexAccount(s, now, owner, 0, 0, false);
    if r.Success? {
      UpdateRexAccountKeeps(s, now, owner, 0, 0, false);
      var updated := r.value.0;
      assert StakeSurplus(updated) == StakeSurplus(s) by { StakeSurplusParts(updated); StakeSurplusParts(s); }
      CollectedInv(s, updated, now);
      OwedParts(updated, now);
      assert RexOwed(updated) >= Total(updated.funds) by { SurplusParts(updated); }
      TokensNotOverdrawn(s, now);
      Token.TransferMoves(s.tokens, REX, owner, amount);
      if 0 < amount && owner in updated.funds && amount <= updated.funds[owner] {
        assert At(updated.funds, owner) <= Total(updated.funds);
        assert Token.Transfer(s.tokens, REX, owner, amount).Success?;
        assert Rex.TransferFromFund(updated, owner, amount).Success?;
      }
    }
  }

  lemma CollectedInv(s: State, t: State, now: int)
    requires Inv(s, now) && Whole(t, now) && t == s.(orders := t.orders, funds := t.funds, votes := t.votes)
    requires RexSurplus(t) == RexSurplus(s) && StakeSurplus(t) == StakeSurplus(s)
    ensures Inv(t, now)
  {
  }

  /** Unstaking into REX never finds the stake account short. */
  lemma UnstakeNeverShort(s: State, now: int, owner: Name, receiver: Name, net: int, cpu: int)
    requires Inv(s, now) && 0 <= net && 0 <= cpu && 0 < net + cpu
    requires Staking.ChangeDelegation(s.delegations, owner, receiver, -net, -cpu).Success?
    ensures Token.Transfer(s.tokens, STAKE, REX, net + cpu).Success?
  {
    hide RexInv, WeightsAgree, VotingProofs.VoteInv, PayInv, Backed, Total;
    var key := (owner, receiver);
    assert key in s.delegations && net + cpu <= At(StakesOf(s.delegations), key);
    TotalAtLeast(StakesOf(s.delegations), key);
    TotalNonneg(RefundsOf(s.refunds));
    Token.TransferMoves(s.tokens, STAKE, REX, net + cpu);
  }

  // Price

  /** There is REX after every step of the run. */
  ghost predicate AlwaysAvailable(s: State, events: seq<Event>)
    decreases |events|
  {
    Pools.Available(s.pool) &&
    (events == [] || AlwaysAvailable(Step(s, events[0].now, events[0].action), events[1..]))
  }

  lemma SoundInv(s: State, now: int)
    requires Inv(s, now)
    ensures s.pool.Some? ==> Pools.Sound(s.pool.value)
  {
  }

  /** The price of REX never falls in any run that leaves the pool non-empty. */
  lemma {:induction false} RunKeepsPrice(s: State, start: int, events: seq<Event>)
    requires Inv(s, start) && Chronological(start, events) && AllPermitted(s, events) && AlwaysAvailable(s, events)
    ensures Pools.Available(Run(s, events).pool) && Pools.PriceKept(s.pool.value, Run(s, events).pool.value)
    decreases |events|
  {
    hide Inv, Step, Permitted, Apply, Pools.PriceKept, Pools.Sound;
    if events == [] {
      PriceKeptSame(s.pool.value);
    } else {
      var e := events[0];
      var next := Step(s, e.now, e.action);
      ChronologicalTail(start, events);
      StepKeepsInv(s, start, e.now, e.action);
      StepSurplus(s, start, e.now, e.action);
      RunKeepsPrice(next, e.now, events[1..]);
      RunKeepsInv(next, e.now, events[1..]);
      SoundInv(s, start);
      SoundInv(next, e.now);
      SoundInv(Run(next, events[1..]), EndTime(e.now, events[1..]));
      PriceTransitive(s.pool.value, next.pool.value, Run(next, events[1..]).pool.value);
    }
  }

  lemma PriceTransitive(p: Pool, q: Pool, r: Pool)
    requires Pools.PriceKept(p, q) && Pools.PriceKept(q, r) && Pools.Sound(p) && Pools.Sound(q) && Pools.Sound(r)
    ensures Pools.PriceKept(p, r)
  {
    Pools.PriceKeptTransitive(p, q, r);
  }

  /** The payment of an action that buys REX. */
  function PaymentOf(a: Action): int
    requires a.BuyRex? || a.UnstakeToRex?
  {
    if a.BuyRex? then a.amount else a.net + a.cpu
  }

  /** The maintenance that follows a purchase in the same action never lowers the price it was made at. */
  lemma PurchaseThenMaintenance(s: State, now: int, owner: Name, payment: int)
    requires MaintInv(s, now) && InEpoch(now) && 0 < payment
    ensures Rex.Purchase(s, now, owner, payment).Success?
    ensures var bought := Rex.Purchase(s, now, owner, payment).value.0;
      && Pools.AddPurchase(s.pool, payment).Success?
      && bought.pool == Some(Pools.AddPurchase(s.pool, payment).value.0) && 0 < bought.pool.value.rex
      && Rex.RunRex(bought, now, Rex.MAINTENANCE).Success?
      && var m := Rex.RunRex(bought, now, Rex.MAINTENANCE).value;
         m.pool.Some? && Pools.PriceKept(bought.pool.value, m.pool.value) && Pools.Sound(bought.pool.value)
  {
    hide MaintInv, Rex.RunRex, Pools.AddPurchase, Pools.PriceKept, Pools.Sound, Maturity.AddMaturing, RexSurplus, PriceHeld,
         Maintenance.Untouched;
    PurchaseKeeps(s, now, owner, payment);
    var bought := Rex.Purchase(s, now, owner, payment).value.0;
    Maintenance.RunRexKeeps(bought, now, Rex.MAINTENANCE);
    Maintenance.PoolIsSound(bought, now);
  }

  /** The pool of a purchase, and the pool its action leaves. */
  lemma BuyingKeepsPrice(s: State, now: int, a: Action)
    requires Inv(s, now) && InEpoch(now) && (a.BuyRex? || a.UnstakeToRex?) && Apply(s, now, a).Success?
    ensures 0 < PaymentOf(a) && (s.pool.Some? ==> Pools.Sound(s.pool.value))
    ensures Pools.AddPurchase(s.pool, PaymentOf(a)).Success?
    ensures var bought := Pools.AddPurchase(s.pool, PaymentOf(a)).value.0;
      var t := Apply(s, now, a).value;
      0 < bought.rex && t.pool.Some? && Pools.PriceKept(bought, t.pool.value)
  {
    hide MaintInv, VotingProofs.VoteInv, PayInv, RexSurplus, StakeSurplus, Backed, Total, Rex.Purchase, Rex.RunRex, Rex.UpdateRexAccount,
         Rex.Unstake, Pools.AddPurchase, Pools.PriceKept, Pools.Sound, Rex.TransferFromFund;
    SoundPool(s, now);
    if a.BuyRex? {
      FromFundKeeps(s, now, a.owner, a.amount);
      PurchaseThenMaintenance(Rex.TransferFromFund(s, a.owner, a.amount).value, now, a.owner, a.amount);
    } else {
      UnstakeKeeps(s, now, a.owner, a.receiver, a.net, a.cpu);
      PurchaseThenMaintenance(Rex.Unstake(s, a.owner, a.receiver, a.net, a.cpu).value, now, a.owner, a.net + a.cpu);
    }
  }

  /** A purchase leaves at least as many shares as there were units to lend before it. */
  predicate SharesSuffice(pool: Option<Pool>, payment: int) {
    var r := Pools.AddPurchase(pool, payment);
    Pools.Available(pool) && r.Success? ==> pool.value.lendable <= r.value.0.rex
  }

  /** The run may follow: time goes on, its actions are permitted, and there is always REX. */
  ghost predicate Continues(t: State, now: int, events: seq<Event>) {
    Chronological(now, events) && AllPermitted(t, events) && AlwaysAvailable(t, events)
  }

  /** Whoever buys REX, out of its fund or with staked tokens, holds it at no less than the payment less
      one unit from the end of that action through any later run, provided that the purchase left at
      least as many shares as there were units to lend before. */
  lemma HeldValueNeverFalls(s: State, t: State, now: int, a: Action, events: seq<Event>)
    requires Inv(s, now) && InEpoch(now) && Permitted(s, a) && (a.BuyRex? || a.UnstakeToRex?)
    requires Apply(s, now, a) == Success(t) && Continues(t, now, events) && SharesSuffice(s.pool, PaymentOf(a))
    ensures Pools.AddPurchase(s.pool, PaymentOf(a)).Success? && Pools.Available(Run(t, events).pool)
    ensures PaymentOf(a) - 1 <= Pools.ValueOf(Run(t, events).pool.value, Pools.AddPurchase(s.pool, PaymentOf(a)).value.1)
  {
    hide Inv, Run, Apply, AllPermitted, Chronological, Permitted, Pools.AddPurchase, Pools.PriceKept, Pools.ValueOf, PaymentOf;
    BuyingKeepsPrice(s, now, a);
    Pools.AddPurchaseKeeps(s.pool, PaymentOf(a));
    Pools.BuyThenSellAtLeast(s.pool, PaymentOf(a));
    var (bought, received) := Pools.AddPurchase(s.pool, PaymentOf(a)).value;
    assert Pools.Available(t.pool);
    Pools.ValueKept(bought, t.pool.value, received);
    ApplyKeepsInv(s, now, a);
    RunKeepsPrice(t, now, events);
    Pools.ValueKept(t.pool.value, Run(t, events).pool.value, received);
  }

  lemma ApplyKeepsInv(s: State, now: int, a: Action)
    requires Inv(s, now) && InEpoch(now) && Permitted(s, a) && Apply(s, now, a).Success?
    ensures Inv(Apply(s, now, a).value, now)
  {
    hide Inv, Apply;
    ApplyEffect(s, now, a);
  }

  /** As the source's comment claims, with a supply within 4 * 10^14 units the REX total fits an
      asset, in every reachable state. */
  lemma RexStaysBelowLimit(s: State, now: int)
    requires Inv(s, now) && s.pool.Some? && s.supply <= 400_000_000_000_000
    ensures s.pool.value.rex < 0x4000_0000_0000_0000
    ensures s.pool.value.lendable <= s.supply
  {
    hide WeightsAgree, StakesOk, ResourcesOk, RefundsOk, BalancesOk, OrdersOk, VotingProofs.VoteInv, PayInv, Backed,
         InTimeOrder, Total;
    OwedParts(s, now);
    TotalAtLeast(s.tokens, REX);
    Pools.RexFitsAsset(s.pool.value);
  }

  // Emptiness

  /** The pool has no shares exactly when it has nothing to lend; then no loan runs and nothing is lent
      or unlent, so starting it over loses nothing. */
  lemma EmptyPool(s: State, now: int)
    requires Inv(s, now) && s.pool.Some?
    ensures s.pool.value.rex == 0 <==> s.pool.value.lendable == 0
    ensures s.pool.value.rex == 0 ==>
      && s.cpuLoans == [] && s.netLoans == [] && s.pool.value.lent == 0 && s.pool.value.unlent == 0
      && forall n :: n in s.balances ==> s.balances[n].rex == 0
  {
    hide WeightsAgree, StakesOk, ResourcesOk, RefundsOk, OrdersOk, VotingProofs.VoteInv, PayInv, Backed, InTimeOrder, Total,
         Maturity.Healthy;
    StakedNonneg(s.cpuLoans, now, 0);
    StakedNonneg(s.netLoans, now, 0);
    forall n | n in s.balances ensures 0 <= s.balances[n].rex <= s.pool.value.rex {
      ShareAtMost(s.balances, now, n);
    }
  }

  /** Neither internal check of a purchase can fail: buying aborts only if the payment is not
      positive, the votes do not suffice, the fund does not, or the vote stake is refused. */
  lemma PurchaseNeverRefused(s: State, now: int, owner: Name, payment: int)
    requires Inv(s, now) && InEpoch(now) && 0 < payment
    ensures Rex.Purchase(s, now, owner, payment).Success?
  {
    PurchaseKeeps(s, now, owner, payment);
  }

  // Maturities

  /** No reachable balance has more than five maturity buckets, or any bucket behind its savings. */
  lemma BucketsStayFew(s: State, now: int, n: Name)
    requires Inv(s, now) && InEpoch(now) && n in s.balances
    ensures var b := s.balances[n];
      && |Maturity.WithoutSavings(b).buckets| <= 5
      && (forall i :: 0 <= i < |b.buckets| && b.buckets[i].date == END_OF_DAYS ==> i == |b.buckets| - 1)
      && b.rex == b.matured + Maturity.AmountOf(b.buckets)
  {
    Maturity.FiveBuckets(s.balances[n], now);
  }

  // Votes and rewards

  ghost predicate AllCreditable(s: State, events: seq<Event>)
    decreases |events|
  {
    events == [] ||
    (Creditable(s, events[0].action) && AllCreditable(Step(s, events[0].now, events[0].action), events[1..]))
  }

  /** The voter reward bucket is never overdrawn in a run whose votes are all credited with stake
      that does not bring unpaid votes below zero. */
  lemma {:induction false} RunKeepsVoteRewards(s: State, start: int, events: seq<Event>)
    requires Inv(s, start) && Chronological(start, events) && AllPermitted(s, events)
    requires VoteRewardsSafe(s) && AllCreditable(s, events)
    ensures VoteRewardsSafe(Run(s, events))
    decreases |events|
  {
    hide Inv, Step, Permitted, Apply, Creditable, VoteRewardsSafe;
    if events != [] {
      var e := events[0];
      ChronologicalTail(start, events);
      StepKeepsInv(s, start, e.now, e.action);
      StepSurplus(s, start, e.now, e.action);
      RunKeepsVoteRewards(Step(s, e.now, e.action), e.now, events[1..]);
    }
  }

  /** At any later time, before anything else happens, the stored vote-pay triple stands for the shares
      of all producers, and the tally for the votes of all voters. */
  lemma TallyIsRecount(s: State, now: int, at: int)
    requires Inv(s, now) && now <= at
    ensures var v := s.votes;
      && v.totalShare + v.shareRate * (at - v.shareTime) == VotingProofs.AllShares(v.producers, at)
      && v.totalWeight == VotingProofs.AllVotes(v.producers)
      && forall p :: p in v.producers ==> v.producers[p].votes == VotingProofs.Support(v.voters, p)
  {
    hide MaintInv, PayInv, Total, Backed, RexSurplus, StakeSurplus;
    VotingProofs.AggregateIsSum(s.votes, now, at);
  }
}
