/** What an action brings its owner. */
module Settlement {
  import opened Outcomes
  import opened Arithmetic
  import opened Sums
  import opened Chain
  import opened Ledger
  import opened Rex
  import opened Exchange
  import Liveness
  import Loans
  import Maintenance
  import Maturity
  import Pools
  import RewardProofs
  import Rewards
  import System
  import Token
  import Voting
  import VotingProofs

  /** What an owner's filled order brings when it is collected. */
  function Collectable(s: State, owner: Name): int {
    if owner in s.orders then Uncollected(s.orders[owner]) else 0
  }

  /** Settling an account pays the given proceeds and those of a filled order to the owner's fund, and
      nothing to anybody else. */
  lemma AccountPays(s: State, now: int, owner: Name, proceeds: int, stakeChange: int, force: bool)
    requires MaintInv(s, now) && 0 <= proceeds && UpdateRexAccount(s, now, owner, proceeds, stakeChange, force).Success?
    ensures var t := UpdateRexAccount(s, now, owner, proceeds, stakeChange, force).value.0;
      && At(t.funds, owner) == At(s.funds, owner) + proceeds + Collectable(s, owner)
      && (forall n :: n != owner ==> At(t.funds, n) == At(s.funds, n))
      && (owner in t.orders <==> owner in s.orders && s.orders[owner].open)
      && (owner in t.orders ==> t.orders[owner] == s.orders[owner])
  {
    hide Voting.UpdateVotingPower, UpdateRexAccount, PoolOk, BalancesOk, InTimeOrder, WeightsAgree;
    UpdateRexAccountSteps(s, now, owner, proceeds, stakeChange, force);
  }

  /** A sale is paid to the owner's fund at the price after maintenance and taken off its holding; one
      that cannot be filled leaves the holding and waits in the owner's open order. */
  lemma SaleIsPaid(s: State, now: int, owner: Name, rex: int)
    requires Whole(s, now) && InEpoch(now) && Rex.SellRex(s, now, owner, rex).Success?
    ensures RunRex(s, now, MAINTENANCE).Success?
    ensures var m := RunRex(s, now, MAINTENANCE).value;
      var t := Rex.SellRex(s, now, owner, rex).value;
      && m.pool.Some? && m.pool.value.rex != 0 && owner in m.balances && owner in t.balances
      && (if Pools.ValueOf(m.pool.value, rex) <= m.pool.value.unlent - Pools.Reserve(m.pool.value) then
            && At(t.funds, owner) == At(m.funds, owner) + Pools.ValueOf(m.pool.value, rex) + Collectable(m, owner)
            && t.balances[owner].rex == m.balances[owner].rex - rex
          else
            && At(t.funds, owner) == At(m.funds, owner) + Collectable(m, owner)
            && t.balances[owner].rex == m.balances[owner].rex
            && owner in t.orders && t.orders[owner].open && t.orders[owner].requested == rex + OpenOf(m, owner))
  {
    hide MaintInv, VotingProofs.VoteInv, UpdateRexAccount, RunRex, Pools.Sell, Pools.ValueOf, Maturity.Mature, QueueOrder,
         Rex.SellRex, Maintenance.Untouched, RexSurplus, Pools.PriceKept;
    Liveness.SaleBalances(s, now, owner, rex);
    assert MaintInv(s, now);
    Maintenance.RunRexKeeps(s, now, MAINTENANCE);
    var m := RunRex(s, now, MAINTENANCE).value;
    MaintainedWhole(s, m, now);
    var b := Maturity.Mature(m.balances[owner], Seconds(now));
    MaturedRowKeeps(m, now, owner);
    SaleTerms(m, now, owner, rex);
    if Pools.Sell(m.pool.value, b, rex).value.Filled? {
      FilledIsPaid(s, m, now, owner, rex, b);
    } else {
      Liveness.SaleQueued(s, m, now, owner, rex, b);
      var unsold := m.(balances := m.balances[owner := b]);
      AccountPays(unsold, now, owner, 0, 0, false);
      QueueAdds(UpdateRexAccount(unsold, now, owner, 0, 0, false).value.0, now, owner, rex);
    }
  }

  /** The REX in an owner's open order. */
  function OpenOf(s: State, owner: Name): int {
    if owner in s.orders && s.orders[owner].open then s.orders[owner].requested else 0
  }

  /** The change of vote stake that a sale and a filled order bring can be booked. */
  ghost predicate MayBook(m: State, now: int, owner: Name, change: int) {
    StakeBooked(m, owner, change) != 0 ==> Bookable(m.votes, now, owner, StakeBooked(m, owner, change))
  }

  /** What a sale needs after maintenance: enough matured REX beside the open order, a price that is not
      nothing or else a place in the queue, and a stake on record that can take the change. */
  ghost predicate MaySell(m: State, now: int, owner: Name, rex: int) {
    m.pool.Some? && m.pool.value.rex != 0 && owner in m.balances && 0 < rex &&
    var p := m.pool.value;
    var ready := Maturity.Mature(m.balances[owner], Seconds(now));
    var price := Pools.ValueOf(p, rex);
    && rex + OpenOf(m, owner) <= ready.matured
    && (if price <= p.unlent - Pools.Reserve(p) then
          price != 0 && MayBook(m, now, owner, Pools.ValueOf(p, ready.rex) - price - ready.voteStake)
        else
          owner != B1 && MayBook(m, now, owner, 0))
  }

  lemma OpenNonneg(m: State, now: int, owner: Name)
    requires MaintInv(m, now)
    ensures 0 <= OpenOf(m, owner)
  {
  }

  lemma FilledAccepted(s: State, m: State, now: int, owner: Name, rex: int, ready: Balance)
    requires Whole(m, now) && RunRex(s, now, MAINTENANCE) == Success(m)
    requires owner in m.balances && ready == Maturity.Mature(m.balances[owner], Seconds(now)) && m.pool.Some? && m.pool.value.rex != 0
    requires 0 < rex <= ready.matured && Pools.ValueOf(m.pool.value, rex) <= m.pool.value.unlent - Pools.Reserve(m.pool.value)
    ensures Rex.SellRex(s, now, owner, rex).Success? <==> MaySell(m, now, owner, rex)
  {
    hide Whole, UpdateRexAccount, RunRex, Maturity.Mature, Bookable, Pools.ValueOf;
    assert VotingProofs.VoteInv(m.votes, now) by { WholeVotes(m, now); }
    var price := Pools.ValueOf(m.pool.value, rex);
    var sale := Pools.Sell(m.pool.value, ready, rex).value;
    var sold := m.(pool := Some(sale.pool), balances := m.balances[owner := sale.balance]);
    CollectsExactly(sold, now, owner, price, sale.stakeChange, false);
    UpdateRexAccountSteps(sold, now, owner, price, sale.stakeChange, false);
  }

  lemma UnfilledAccepted(s: State, m: State, now: int, owner: Name, rex: int, ready: Balance)
    requires Whole(m, now) && RunRex(s, now, MAINTENANCE) == Success(m)
    requires owner in m.balances && ready == Maturity.Mature(m.balances[owner], Seconds(now)) && m.pool.Some? && m.pool.value.rex != 0
    requires 0 < rex <= ready.matured && m.pool.value.unlent - Pools.Reserve(m.pool.value) < Pools.ValueOf(m.pool.value, rex)
    ensures Rex.SellRex(s, now, owner, rex).Success? <==> MaySell(m, now, owner, rex)
  {
    hide Whole, UpdateRexAccount, RunRex, Maturity.Mature, Bookable, Pools.ValueOf, QueueOrder, Pools.Reserve, VotingProofs.VoteInv;
    assert VotingProofs.VoteInv(m.votes, now) by { WholeVotes(m, now); }
    var unsold := m.(balances := m.balances[owner := ready]);
    CollectsExactly(unsold, now, owner, 0, 0, false);
    UpdateRexAccountSteps(unsold, now, owner, 0, 0, false);
    var r := UpdateRexAccount(unsold, now, owner, 0, 0, false);
    if r.Success? { QueueAdds(r.value.0, now, owner, rex); }
  }

  lemma WholeVotes(s: State, now: int)
    requires Whole(s, now)
    ensures VotingProofs.VoteInv(s.votes, now)
  {
  }

  lemma SaleNeeds(s: State, m: State, now: int, owner: Name, rex: int)
    requires RunRex(s, now, MAINTENANCE) == Success(m)
    requires Rex.SellRex(s, now, owner, rex).Success?
    ensures owner in m.balances && 0 < rex <= Maturity.Mature(m.balances[owner], Seconds(now)).matured
  {
    hide RunRex, Maturity.Mature, Pools.Sell, UpdateRexAccount, QueueOrder;
  }

  /** A sale is accepted exactly on these terms. */
  lemma SaleAccepted(s: State, now: int, owner: Name, rex: int)
    requires Whole(s, now) && InEpoch(now)
    ensures RunRex(s, now, MAINTENANCE).Success? <==> s.pool.Some?
    ensures Rex.SellRex(s, now, owner, rex).Success? <==>
      RunRex(s, now, MAINTENANCE).Success? && MaySell(RunRex(s, now, MAINTENANCE).value, now, owner, rex)
  {
    hide MaintInv, VotingProofs.VoteInv, RunRex, Rex.SellRex, Maturity.Mature, Pools.ValueOf, MayBook, Maintenance.Untouched, RexSurplus,
         Pools.PriceKept, Pools.Reserve;
    if s.pool.Some? {
      Maintenance.RunRexKeeps(s, now, MAINTENANCE);
      var m := RunRex(s, now, MAINTENANCE).value;
      MaintainedWhole(s, m, now);
      OpenNonneg(m, now, owner);
      if Rex.SellRex(s, now, owner, rex).Success? { SaleNeeds(s, m, now, owner, rex); }
      if owner in m.balances && 0 < rex <= Maturity.Mature(m.balances[owner], Seconds(now)).matured {
        var ready := Maturity.Mature(m.balances[owner], Seconds(now));
        SaleTerms(m, now, owner, rex);
        if Pools.ValueOf(m.pool.value, rex) <= m.pool.value.unlent - Pools.Reserve(m.pool.value) {
          FilledAccepted(s, m, now, owner, rex, ready);
        } else {
          UnfilledAccepted(s, m, now, owner, rex, ready);
        }
      }
    } else {
      NoPoolNoSale(s, now, owner, rex);
    }
  }

  lemma NoPoolNoSale(s: State, now: int, owner: Name, rex: int)
    requires s.pool.None?
    ensures RunRex(s, now, MAINTENANCE).Failure? && Rex.SellRex(s, now, owner, rex).Failure?
  {
  }

  lemma SaleTerms(m: State, now: int, owner: Name, rex: int)
    requires MaintInv(m, now) && InEpoch(now) && m.pool.Some? && owner in m.balances
    requires 0 < rex <= Maturity.Mature(m.balances[owner], Seconds(now)).matured
    ensures m.pool.value.rex != 0
    ensures var sell := Pools.Sell(m.pool.value, Maturity.Mature(m.balances[owner], Seconds(now)), rex);
      && sell.Success?
      && (sell.value.Filled? <==> Pools.ValueOf(m.pool.value, rex) <= m.pool.value.unlent - Pools.Reserve(m.pool.value))
      && (sell.value.Filled? ==>
            && sell.value.proceeds == Pools.ValueOf(m.pool.value, rex) && 0 <= sell.value.proceeds
            && sell.value.balance.rex == m.balances[owner].rex - rex)
  {
    hide WeightsAgree, InTimeOrder, Loans.LoansOk, Maturity.Mature, Maturity.Shape, Pools.Sell;
    var b := Maturity.Mature(m.balances[owner], Seconds(now));
    Maturity.MatureHealthy(m.balances[owner], now);
    ShareAtMost(m.balances, now, owner);
    Maturity.SumsNonneg(b.buckets, 0);
    Pools.SellKeeps(m.pool.value, b, rex);
  }

  lemma FilledIsPaid(s: State, m: State, now: int, owner: Name, rex: int, b: Balance)
    requires MaintInv(m, now) && RunRex(s, now, MAINTENANCE) == Success(m) && Rex.SellRex(s, now, owner, rex).Success?
    requires owner in m.balances && b == Maturity.Mature(m.balances[owner], Seconds(now)) && m.pool.Some?
    requires Pools.Sell(m.pool.value, b, rex).Success? && Pools.Sell(m.pool.value, b, rex).value.Filled?
    requires 0 <= Pools.Sell(m.pool.value, b, rex).value.proceeds
    ensures var sale := Pools.Sell(m.pool.value, b, rex).value;
      var t := Rex.SellRex(s, now, owner, rex).value;
      && owner in t.balances && t.balances[owner] == sale.balance
      && At(t.funds, owner) == At(m.funds, owner) + sale.proceeds + Collectable(m, owner)
  {
    hide MaintInv, Voting.UpdateVotingPower, UpdateRexAccount, RunRex, Pools.Sell, Maturity.Mature, Rex.SellRex;
    var sale := Pools.Sell(m.pool.value, b, rex).value;
    Liveness.SaleFilled(s, m, now, owner, rex, b);
    UpdateRexAccountSteps(Liveness.Sold(m, owner, b, rex), now, owner, sale.proceeds, sale.stakeChange, false);
    UncollectedNonneg(m, now, owner);
  }

  lemma UncollectedNonneg(s: State, now: int, owner: Name)
    requires MaintInv(s, now)
    ensures 0 <= Collectable(s, owner)
  {
  }

  lemma QueueAdds(u: State, now: int, owner: Name, rex: int)
    requires owner in u.orders ==> u.orders[owner].open
    ensures var t := QueueOrder(u, now, owner, rex);
      && owner in t.orders && t.orders[owner].open
      && t.orders[owner].requested == rex + OpenOf(u, owner) && t.funds == u.funds && t.balances == u.balances
  {
    hide Enqueue;
  }

  /** What the lenders gain when `amount` comes from an account: all of it, if there is REX; else nothing
      moves. */
  ghost predicate LendersGain(s: State, t: State, from: Name, amount: int) {
    && t == s.(pool := t.pool, tokens := t.tokens)
    && t.pool.Some? == s.pool.Some?
    && (s.pool.Some? ==>
          && Lendable(t.pool) == Lendable(s.pool) + (if Pools.Available(s.pool) then amount else 0)
          && t.pool.value.unlent == s.pool.value.unlent + (if Pools.Available(s.pool) then amount else 0)
          && t.pool.value.rex == s.pool.value.rex && t.pool.value.lent == s.pool.value.lent && t.pool.value.rent == s.pool.value.rent)
    && (forall a :: At(t.tokens, a) == At(s.tokens, a) + if !Pools.Available(s.pool) then 0
                                                         else if a == from then -amount
                                                         else if a == REX then amount else 0)
  }

  /** Maintenance passes the promised proceeds of name auctions on in full; afterwards none are promised. */
  lemma ProceedsAreSwept(s: State, now: int)
    requires MaintInv(s, now) && s.pool.Some?
    ensures SweepNamebids(s).Success? && SweepNamebids(s).value.pool.Some?
    ensures LendersGain(s, SweepNamebids(s).value, NAMES, s.pool.value.namebid)
    ensures SweepNamebids(s).value.pool.value.namebid == 0
  {
    hide WeightsAgree, InTimeOrder, StakesOk, ResourcesOk, RefundsOk, Total, OrdersOk, BalancesOk, Loans.LoansOk, Shares;
    Token.TransferMoves(s.tokens, NAMES, REX, s.pool.value.namebid);
  }

  /** A fee for trading RAM is paid in full by the trader, and goes to the lenders if there is REX, else to
      the fee account. */
  lemma RamFeeIsPassedOn(s: State, now: int, payer: Name, fee: int)
    requires MaintInv(s, now) && User(payer) && payer != RAMFEE && 0 < fee
    ensures System.PayRamFee(s, payer, fee).Success? <==> fee <= At(s.tokens, payer)
    ensures System.PayRamFee(s, payer, fee).Success? ==>
      var t := System.PayRamFee(s, payer, fee).value;
      && At(t.tokens, payer) == At(s.tokens, payer) - fee
      && Lendable(t.pool) == Lendable(s.pool) + (if Pools.Available(s.pool) then fee else 0)
      && (if Pools.Available(s.pool) then At(t.tokens, REX) == At(s.tokens, REX) + fee && At(t.tokens, RAMFEE) == At(s.tokens, RAMFEE)
          else At(t.tokens, RAMFEE) == At(s.tokens, RAMFEE) + fee && At(t.tokens, REX) == At(s.tokens, REX))
  {
    hide RexInv, StakeInv, Total, Token.Transfer, Token.NoneOverdrawn;
    TokensNotOverdrawn(s, now);
    Token.TransferMoves(s.tokens, payer, RAMFEE, fee);
    if fee <= At(s.tokens, payer) {
      var tokens := Token.Transfer(s.tokens, payer, RAMFEE, fee).value;
      HoldsNothingLess(s.tokens, RAMFEE);
      Token.TransferMoves(tokens, RAMFEE, REX, fee);
    }
  }

  lemma HoldsNothingLess(tokens: Tokens, a: Name)
    requires Token.NoneOverdrawn(tokens)
    ensures 0 <= At(tokens, a)
  {
  }

  /** Maintenance fills an order exactly if its value at the pool price fits what may leave the pool. A
      filled order waits for its owner with that value as proceeds and leaves the queue, and the owner's
      balance is less the REX; one that does not fit changes nothing. */
  lemma OrderIsPaid(s: State, now: int, at: nat)
    requires MaintInv(s, now) && s.pool.Some? && at < |s.queue|
    ensures FillOrder(s, at).Success? && s.queue[at] in s.orders && s.queue[at] in s.balances && s.pool.value.rex != 0
    ensures var owner := s.queue[at];
      var p, b, order := s.pool.value, s.balances[owner], s.orders[owner];
      var price := Pools.ValueOf(p, order.requested);
      var t := FillOrder(s, at).value;
      if price <= p.unlent - 2 * p.lent / 10 then
        && t.pool == Some(p.(rex := p.rex - order.requested, lendable := p.lendable - price, unlent := p.unlent - price))
        && t.queue == s.queue[..at] + s.queue[at + 1..]
        && t.balances == s.balances[owner := b.(rex := b.rex - order.requested, matured := b.matured - order.requested,
                                                voteStake := Pools.ValueOf(p, b.rex) - price)]
        && t.orders == s.orders[owner := order.(proceeds := price, open := false,
                                                stakeChange := Pools.ValueOf(p, b.rex) - price - b.voteStake)]
      else t == s
  {
    hide PoolOk, WeightsAgree, InTimeOrder, StakesOk, ResourcesOk, RefundsOk, Total, Token.NoneOverdrawn, Maturity.Shape, Pools.Sell,
         Pools.ValueOf, Maintenance.Maintained, Shares;
    Maintenance.FillOrderKeeps(s, now, at);
    var owner := s.queue[at];
    OrderTerms(s, now, at);
    SaleFigures(s.pool.value, s.balances[owner], s.orders[owner].requested);
  }

  lemma OrderTerms(s: State, now: int, at: nat)
    requires MaintInv(s, now) && s.pool.Some? && at < |s.queue| && s.queue[at] in s.orders && s.queue[at] in s.balances
    ensures Pools.Sound(s.pool.value) && s.pool.value.rex != 0
    ensures 0 < s.orders[s.queue[at]].requested <= s.pool.value.rex
  {
    hide WeightsAgree, InTimeOrder, Loans.LoansOk, Maturity.Shape;
    ShareAtMost(s.balances, now, s.queue[at]);
  }

  lemma SaleFigures(p: Pool, b: Balance, rex: int)
    requires Pools.Sound(p) && 0 < rex <= p.rex
    ensures var price := Pools.ValueOf(p, rex);
      Pools.Sell(p, b, rex)
        == Success(if price <= p.unlent - 2 * p.lent / 10 then
                     Pools.Filled(p.(rex := p.rex - rex, lendable := p.lendable - price, unlent := p.unlent - price),
                                  b.(rex := b.rex - rex, matured := b.matured - rex, voteStake := Pools.ValueOf(p, b.rex) - price),
                                  price, Pools.ValueOf(p, b.rex) - price - b.voteStake)
                   else Pools.Unfilled)
  {
  }

  /** A payment goes into the pool in full, and the owner gets all the REX the pool issues for it. */
  lemma PurchaseIsReceived(s: State, now: int, owner: Name, payment: int)
    requires MaintInv(s, now) && InEpoch(now) && 0 < payment
    ensures Purchase(s, now, owner, payment).Success?
    ensures var t := Purchase(s, now, owner, payment).value.0;
      && t.pool.Some? && owner in t.balances
      && Lendable(t.pool) == Lendable(s.pool) + payment
      && t.balances[owner].rex - RexOf(s, owner) == t.pool.value.rex - (if s.pool.Some? then s.pool.value.rex else 0)
      && t.balances.Keys == s.balances.Keys + {owner}
      && forall n :: n in s.balances && n != owner ==> t.balances[n] == s.balances[n]
  {
    hide MaintInv, Maturity.AddMaturing, Pools.AddPurchase, Pools.ValueOf, RexSurplus, Pools.Sound, PriceHeld, BalancesOk, Maturity.Healthy,
         Shares, Total, Pools.Available;
    assert (s.pool.Some? ==> Pools.Sound(s.pool.value)) && BalancesOk(s.balances, now) by { PurchaseParts(s, now); }
    PurchaseKeeps(s, now, owner, payment);
    Pools.AddPurchaseKeeps(s.pool, payment);
    var (pool, received) := Pools.AddPurchase(s.pool, payment).value;
    var stake := if owner in s.balances then Pools.ValueOf(pool, s.balances[owner].rex + received) else payment;
    PurchasedBalance(s.balances, now, owner, received, stake);
  }

  function RexOf(s: State, owner: Name): int {
    if owner in s.balances then s.balances[owner].rex else 0
  }

  lemma PurchaseParts(s: State, now: int)
    requires MaintInv(s, now)
    ensures (s.pool.Some? ==> Pools.Sound(s.pool.value)) && BalancesOk(s.balances, now)
  {
  }

  lemma PayOutReaches(s: State, from: Name, owner: Name, amount: int)
    requires Token.NoneOverdrawn(s.tokens) && PayAccount(from) && User(owner) && 0 <= amount
    requires Rewards.PayOut(s, from, owner, amount).Success?
    ensures var t := Rewards.PayOut(s, from, owner, amount).value;
      Token.NoneOverdrawn(t.tokens) && At(t.tokens, owner) == At(s.tokens, owner) + amount
  {
    hide Token.Transfer, Total;
    if 0 < amount { Token.TransferMoves(s.tokens, from, owner, amount); }
  }

  /** Everything that leaves the three buckets of a producer's claim reaches the producer. */
  lemma ProducerIsPaid(s: State, owner: Name, blockPay: int, witnessPay: int, oraclePay: int)
    requires Token.NoneOverdrawn(s.tokens) && User(owner) && 0 <= blockPay && 0 <= witnessPay && 0 <= oraclePay
    requires Rewards.PayProducer(s, owner, blockPay, witnessPay, oraclePay).Success?
    ensures var t := Rewards.PayProducer(s, owner, blockPay, witnessPay, oraclePay).value;
      At(t.tokens, owner) + Buckets(t.pay) == At(s.tokens, owner) + Buckets(s.pay)
  {
    hide Rewards.PayOut, Token.NoneOverdrawn;
    var booked := s.(pay := s.pay.(witnessBucket := s.pay.witnessBucket - witnessPay,
                                   blockBucket := s.pay.blockBucket - blockPay,
                                   oracleBucket := s.pay.oracleBucket - oraclePay));
    PayOutReaches(booked, BPAY, owner, blockPay);
    var s1 := Rewards.PayOut(booked, BPAY, owner, blockPay).value;
    PayOutReaches(s1, WPAY, owner, witnessPay);
    PayOutReaches(Rewards.PayOut(s1, WPAY, owner, witnessPay).value, ORACLE, owner, oraclePay);
  }

  /** The buckets a producer is paid from. */
  function Buckets(pay: Pay): int {
    pay.blockBucket + pay.witnessBucket + pay.oracleBucket
  }

  /** A producer's claim pays the producer what it takes out of the buckets, and a claim by a voter pays
      the voter what it takes out of its bucket. */
  lemma ClaimsReachOwners(s: State, now: int, owner: Name, share: int, total: int)
    requires Whole(s, now) && RewardProofs.PayInv(s.pay) && 0 < now && User(owner) && 0 <= share
    requires Rewards.ShareInflation(s, now).Success?
    ensures var filled := Rewards.ShareInflation(s, now).value;
      && (Rewards.ClaimRewards(s, now, owner, share, total).Success? ==>
            var t := Rewards.ClaimRewards(s, now, owner, share, total).value;
            At(t.tokens, owner) + Buckets(t.pay) == At(filled.tokens, owner) + Buckets(filled.pay))
      && (Rewards.ClaimVoterReward(s, now, owner).Success? ==>
            var t := Rewards.ClaimVoterReward(s, now, owner).value;
            At(t.tokens, owner) + t.pay.voteBucket == At(filled.tokens, owner) + filled.pay.voteBucket)
  {
    hide Whole, RewardProofs.PayInv, Rewards.ShareInflation, Rewards.ClaimRewards, Rewards.ClaimVoterReward,
         RewardProofs.Lockstep;
    RewardProofs.ShareInflationKeeps(s, now);
    if Rewards.ClaimRewards(s, now, owner, share, total).Success? { ProducerClaimReaches(s, now, owner, share, total); }
    if Rewards.ClaimVoterReward(s, now, owner).Success? { VoterClaimReaches(s, now, owner); }
  }

  lemma ProducerClaimReaches(s: State, now: int, owner: Name, share: int, total: int)
    requires Whole(s, now) && RewardProofs.PayInv(s.pay) && 0 < now && User(owner) && 0 <= share
    requires Rewards.ClaimRewards(s, now, owner, share, total).Success?
    ensures var filled := Rewards.ShareInflation(s, now).value;
      var t := Rewards.ClaimRewards(s, now, owner, share, total).value;
      At(t.tokens, owner) + Buckets(t.pay) == At(filled.tokens, owner) + Buckets(filled.pay)
  {
    hide Whole, Total, RexSurplus, StakeSurplus, RewardProofs.Lockstep, Rewards.PartOf, Rewards.SettleOracle, Rewards.ShareInflation,
         Rewards.PayProducer, Rewards.WitnessPart, RewardProofs.PayInv, Token.NoneOverdrawn;
    RewardProofs.ShareInflationKeeps(s, now);
    var filled := Rewards.ShareInflation(s, now).value;
    RewardProofs.ClaimDue(filled, now, owner);
    var p := filled.votes.producers[owner];
    var (pay, due) := Rewards.SettleOracle(filled.pay, owner,
                                           Rewards.PartOf(filled.pay.blockBucket, p.unpaidBlocks, filled.votes.unpaidBlocks));
    RewardProofs.BucketsNonneg(filled.pay);
    RewardProofs.WitnessPartFits(filled.pay.witnessBucket, share, total);
    assert Token.NoneOverdrawn(filled.tokens) by { WholeTokens(filled, now); }
    ProducerIsPaid(filled.(votes := Rewards.ClaimedVotes(filled.votes, now, owner), pay := pay), owner, due.blockPay,
                   Rewards.WitnessPart(filled.pay.witnessBucket, share, total), due.oraclePay);
  }

  lemma VoterClaimReaches(s: State, now: int, owner: Name)
    requires Whole(s, now) && RewardProofs.PayInv(s.pay) && User(owner) && Rewards.ClaimVoterReward(s, now, owner).Success?
    ensures var filled := Rewards.ShareInflation(s, now).value;
      var t := Rewards.ClaimVoterReward(s, now, owner).value;
      At(t.tokens, owner) + t.pay.voteBucket == At(filled.tokens, owner) + filled.pay.voteBucket
  {
    hide Whole, Total, RexSurplus, StakeSurplus, RewardProofs.Lockstep, Rewards.ShareInflation, Rewards.Divide, RewardProofs.PayInv,
         Token.NoneOverdrawn, Token.Transfer;
    RewardProofs.ShareInflationKeeps(s, now);
    var filled := Rewards.ShareInflation(s, now).value;
    assert Token.NoneOverdrawn(filled.tokens) by { WholeTokens(filled, now); }
    var voter := filled.votes.voters[owner];
    Token.TransferMoves(filled.tokens, VPAY, owner, Rewards.Divide(voter.unpaidVotes * filled.pay.voteBucket, filled.votes.unpaidVotes).value);
  }

  lemma WholeTokens(s: State, now: int)
    requires Whole(s, now)
    ensures Token.NoneOverdrawn(s.tokens)
  {
  }
}
