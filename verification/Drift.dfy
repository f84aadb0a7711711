/** How a voter's stake on record parts from the stakes behind it, and what comes of it. */
module Drift {
  import opened Outcomes
  import opened Arithmetic
  import opened Sums
  import opened Chain
  import opened Loans
  import opened Ledger
  import opened Rex
  import opened System
  import opened Exchange
  import opened RewardProofs
  import opened Runs
  import Maintenance
  import Maturity
  import Pools
  import Staking
  import Theorems
  import Token
  import opened Voting
  import opened VotingProofs

  // What unstaking into REX does not book

  /** Filling orders leaves alone who has none in the queue. */
  lemma {:induction false} FillOrdersSkip(s: State, at: nat, max: nat, n: Name)
    requires s.pool.Some? && at <= |s.queue| && n !in s.queue && FillOrders(s, at, max).Success?
    ensures var t := FillOrders(s, at, max).value;
      && (n in t.balances <==> n in s.balances) && (n in s.balances ==> t.balances[n] == s.balances[n])
      && (n in t.orders <==> n in s.orders) && (n in s.orders ==> t.orders[n] == s.orders[n])
    decreases max
  {
    hide FillOrder;
    if max != 0 && at != |s.queue| {
      FillOrderSkips(s, at, n);
      var next := FillOrder(s, at).value;
      FillOrdersSkip(next, if |next.queue| < |s.queue| then at else at + 1, max - 1, n);
    }
  }

  lemma FillOrderSkips(s: State, at: nat, n: Name)
    requires s.pool.Some? && at < |s.queue| && n !in s.queue && FillOrder(s, at).Success?
    ensures var t := FillOrder(s, at).value;
      && n !in t.queue
      && (n in t.balances <==> n in s.balances) && (n in s.balances ==> t.balances[n] == s.balances[n])
      && (n in t.orders <==> n in s.orders) && (n in s.orders ==> t.orders[n] == s.orders[n])
  {
    hide Pools.Sell;
  }

  /** So maintenance leaves the holding and the order of who has none in the queue as they are. */
  lemma RunRexSkips(s: State, now: int, max: nat, n: Name)
    requires MaintInv(s, now) && n !in s.queue && s.pool.Some?
    ensures RunRex(s, now, max).Success?
    ensures var t := RunRex(s, now, max).value;
      && t.votes == s.votes
      && (n in t.balances <==> n in s.balances) && (n in s.balances ==> t.balances[n] == s.balances[n])
      && (n in t.orders <==> n in s.orders) && (n in s.orders ==> t.orders[n] == s.orders[n])
  {
    hide MaintInv, Maintenance.Untouched, RexSurplus, Pools.PriceKept, SweepNamebids, ExpireLoans, FillOrders;
    Maintenance.SweepNamebidsKeeps(s, now);
    var swept := SweepNamebids(s).value;
    Maintenance.ExpireLoansKeeps(swept, now, Cpu, max);
    var cpu := ExpireLoans(swept, now, Cpu, max).value;
    Maintenance.ExpireLoansKeeps(cpu, now, Net, max);
    var net := ExpireLoans(cpu, now, Net, max).value;
    Maintenance.FillOrdersKeeps(net, now, 0, max);
    FillOrdersSkip(net, 0, max, n);
  }

  /** The value at which a purchase with staked tokens records a holding. */
  function RecordedValue(s: State, owner: Name, payment: int, rex: int): int {
    var r := Pools.AddPurchase(s.pool, payment);
    if owner in s.balances && r.Success? && r.value.0.rex != 0 then Pools.ValueOf(r.value.0, rex) else payment
  }

  lemma PurchaseRecords(s: State, now: int, owner: Name, payment: int)
    requires MaintInv(s, now) && InEpoch(now) && 0 < payment
    ensures Purchase(s, now, owner, payment).Success?
    ensures var t := Purchase(s, now, owner, payment).value.0;
      && t == s.(pool := t.pool, balances := t.balances) && owner in t.balances
      && t.balances[owner].voteStake == RecordedValue(s, owner, payment, t.balances[owner].rex)
  {
    hide MaintInv, Maturity.AddMaturing, Pools.AddPurchase, Pools.ValueOf, Pools.Sound, Pools.PriceKept, BalancesOk, Maturity.Healthy,
         Shares, Total, Pools.Available;
    assert (s.pool.Some? ==> Pools.Sound(s.pool.value)) && BalancesOk(s.balances, now) by { PoolAndBalances(s, now); }
    Pools.AddPurchaseKeeps(s.pool, payment);
    var (pool, received) := Pools.AddPurchase(s.pool, payment).value;
    var stake := if owner in s.balances then Pools.ValueOf(pool, s.balances[owner].rex + received) else payment;
    PurchasedBalance(s.balances, now, owner, received, stake);
  }

  lemma PoolAndBalances(s: State, now: int)
    requires MaintInv(s, now)
    ensures (s.pool.Some? ==> Pools.Sound(s.pool.value)) && BalancesOk(s.balances, now)
    ensures forall n :: n !in s.orders ==> n !in s.queue
  {
  }

  /** Unstaking into REX records the whole holding at its current value, but leaves the voter's stake as
      it was: all that the holding has gained since it was last valued is missing there. */
  lemma UnstakingUnbooked(s: State, t: State, now: int, owner: Name, receiver: Name, net: int, cpu: int)
    requires Whole(s, now) && InEpoch(now) && owner !in s.orders
    requires Rex.UnstakeToRex(s, now, owner, receiver, net, cpu) == Success(t)
    ensures owner in s.votes.voters && owner in t.votes.voters
    ensures t.votes.voters[owner].staked == s.votes.voters[owner].staked
    ensures owner in t.balances
    ensures t.balances[owner].voteStake == RecordedValue(s, owner, net + cpu, t.balances[owner].rex)
  {
    hide MaintInv, VoteInv, UpdateRexAccount, RunRex, Purchase, Unstake, RecordedValue, UpdateVotingPower;
    UnstakeKeeps(s, now, owner, receiver, net, cpu);
    var unstaked := Unstake(s, owner, receiver, net, cpu).value;
    UnstakersVote(s, owner, receiver, net, cpu);
    PurchaseKeeps(unstaked, now, owner, net + cpu);
    PurchaseRecords(unstaked, now, owner, net + cpu);
    var bought := Purchase(unstaked, now, owner, net + cpu).value.0;
    assert owner !in bought.queue by { PoolAndBalances(s, now); }
    RunRexSkips(bought, now, MAINTENANCE, owner);
    var m := RunRex(bought, now, MAINTENANCE).value;
    UpdateRexAccountSteps(m, now, owner, 0, 0, true);
    UpdateVotingPowerKeeps(m.votes, now, owner, 0);
    SameRecord(s, unstaked, owner, net + cpu, t.balances[owner].rex);
  }

  lemma UnstakersVote(s: State, owner: Name, receiver: Name, net: int, cpu: int)
    requires Unstake(s, owner, receiver, net, cpu).Success?
    ensures owner in s.votes.voters && 0 < net + cpu
  {
    hide Staking.ChangeDelegation, Staking.UpdateResources, Token.Transfer;
  }

  lemma SameRecord(s: State, t: State, owner: Name, payment: int, rex: int)
    requires t.pool == s.pool && t.balances == s.balances
    ensures RecordedValue(t, owner, payment, rex) == RecordedValue(s, owner, payment, rex)
  {
  }

  // Two states in which the stake on record is too small

  const NOW: int := 1_700_000_000 * SECOND
  const LATER: int := NOW + 5 * DAY
  const OWNER: Name := 1
  const HOLDER: Name := 2
  const PAID: Pay := Pay(0, 0, 0, 0, 0, 0, 0, 0, 30 * DAY, map[], 0)

  /** The least number of producers a buyer of REX votes for. */
  function Listed(): (names: seq<Name>)
    ensures |names| == 21 && Sorted(names)
    ensures forall p :: p in names <==> 100 <= p < 121
  {
    var names := seq(21, i => 100 + i);
    assert forall p | 100 <= p < 121 :: p in names by {
      forall p | 100 <= p < 121 ensures p in names { assert names[p - 100] == p; }
    }
    names
  }

  /** The owner votes for 21 producers with a weight; nobody else votes. */
  function OneVoter(staked: int, weight: int): Votes {
    Votes(map[OWNER := Voter(Listed(), staked, 0, 0, weight)],
          map p | p in Listed() :: Producer(weight, true, 0, NOW, 0, NOW),
          21 * weight, 0, 21 * weight, NOW, staked, 0, 0, 0)
  }

  lemma Single<K(!new)>(k: K, v: int)
    ensures Total(map[k := v]) == v
  {
    TotalUpdate(map[], k, v);
    assert map[][k := v] == map[k := v];
  }

  lemma Double(m: map<Name, int>, k: Name, l: Name)
    requires k != l && m.Keys == {k, l}
    ensures Total(m) == m[k] + m[l]
  {
    TotalRemove(m, k);
    TotalRemove(m - {k}, l);
    assert m - {k} - {l} == map[];
  }

  lemma {:induction false} EqualParts(m: map<Name, int>, n: nat, w: int)
    requires forall p :: p in m <==> 100 <= p < 100 + n
    requires forall p :: p in m ==> m[p] == w
    ensures Total(m) == n * w
    decreases n
  {
    if n == 0 {
      assert m == map[];
    } else {
      var last: Name := 99 + n;
      TotalRemove(m, last);
      EqualParts(m - {last}, n - 1, w);
      assert n * w == (n - 1) * w + w;
    }
  }

  lemma OneVoterSums(staked: int, weight: int)
    requires 0 <= weight
    ensures var v := OneVoter(staked, weight);
      && AllVotes(v.producers) == 21 * weight && LiveVotes(v.producers) == 21 * weight
      && AllShares(v.producers, NOW) == 0 && UnpaidBlocks(v.producers) == 0 && UnpaidVotes(v.voters) == 0
  {
    hide Total, Listed;
    var v := OneVoter(staked, weight);
    EqualParts(VotesOf(v.producers), 21, weight);
    EqualParts(RatesOf(v.producers), 21, weight);
    EqualParts(VotingProofs.SharesOf(v.producers, NOW), 21, 0);
    EqualParts(UnpaidBlocksOf(v.producers), 21, 0);
    assert UnpaidVotesOf(v.voters) == map[OWNER := 0];
    Single(OWNER, 0);
  }

  lemma OneVoterSupport(staked: int, weight: int, p: Name)
    requires 0 <= weight && p in Listed()
    ensures Support(OneVoter(staked, weight).voters, p) == weight
  {
    hide Total, Listed;
    assert Credits(OneVoter(staked, weight).voters, p) == map[OWNER := weight];
    Single(OWNER, weight);
  }

  lemma OneVoterInv(staked: int, weight: int)
    requires 0 <= weight
    ensures VoteInv(OneVoter(staked, weight), NOW)
  {
    hide AllVotes, LiveVotes, AllShares, UnpaidBlocks, UnpaidVotes, Support, Listed;
    var v := OneVoter(staked, weight);
    forall p | p in v.producers ensures v.producers[p].votes == Support(v.voters, p) {
      OneVoterSupport(staked, weight, p);
    }
    OneVoterSums(staked, weight);
  }

  /** The owner bought REX for 100 units, holds another 10 as staked tokens, and fees have doubled
      the pool since. */
  function Appreciated(): State {
    State(map[REX := 200, STAKE := 10], 210, 1000,
          Some(Pool(0, 200, INITIAL_RENT, 200, 1_000_000, 0, 0)),
          map[], map[OWNER := Balance(100, 1_000_000, 1_000_000, [])], map[], [], [], [],
          map[(OWNER, OWNER) := Stake(10, 0)], map[OWNER := Resources(10, 0, 0)], map[],
          OneVoter(110, 110), PAID)
  }

  /** The owner's order waits, two holders share the pool, and the owner's stake on record is used up. */
  function Exhausted(): State {
    State(map[REX := 30], 30, 1000,
          Some(Pool(0, 30, INITIAL_RENT, 30, 200_000, 0, 0)),
          map[], map[OWNER := Balance(3, 20_000, 20_000, []), HOLDER := Balance(27, 180_000, 180_000, [])],
          map[OWNER := Order(10_000, 0, 0, NOW, true)], [OWNER], [], [],
          map[], map[], map[],
          OneVoter(0, 0), PAID)
  }

  lemma NothingStaked(kind: LoanKind, r: Name)
    ensures Inbound(map[], kind, r) == 0
    ensures Total(StakesOf(map[])) == 0 && Total(RefundsOf(map[])) == 0 && Total<Name>(map[]) == 0
    ensures Proceeds(map[]) == 0
  {
    assert InboundOf(map[], kind, r) == map[];
    assert StakesOf(map[]) == map[] && RefundsOf(map[]) == map[] && ProceedsOf(map[]) == map[];
  }

  lemma NobodyPaid()
    ensures PayInv(PAID)
  {
    assert SuccessesOf(PAID.oracles) == map[];
  }

  lemma AppreciatedStakes()
    ensures StakeInv(Appreciated()) && StakeSurplus(Appreciated()) == 0
  {
    hide Total, Inbound, OneVoter;
    var s := Appreciated();
    forall kind, r ensures Inbound(s.delegations, kind, r) == if r == OWNER && kind == Net then 10 else 0 {
      NothingStaked(kind, r);
      InboundUpdate(map[], (OWNER, OWNER), Stake(10, 0), kind, r);
      assert map[][(OWNER, OWNER) := Stake(10, 0)] == s.delegations;
    }
    NothingStaked(Net, OWNER);
    assert StakesOf(s.delegations) == map[(OWNER, OWNER) := 10];
    Single((OWNER, OWNER), 10);
  }

  lemma AppreciatedRex()
    ensures RexInv(Appreciated(), NOW) && RexSurplus(Appreciated()) == 0
  {
    hide Total, OneVoter;
    var s := Appreciated();
    assert Ledger.SharesOf(s.balances) == map[OWNER := 1_000_000];
    Single(OWNER, 1_000_000);
    NothingStaked(Net, OWNER);
  }

  lemma AppreciatedInv()
    ensures Inv(Appreciated(), NOW)
  {
    hide Total, VoteInv, PayInv, RexInv, StakeInv, RexSurplus, StakeSurplus, OneVoter;
    OneVoterInv(110, 110);
    NobodyPaid();
    AppreciatedRex();
    AppreciatedStakes();
    Double(Appreciated().tokens, REX, STAKE);
  }

  lemma ExhaustedStakes()
    ensures StakeInv(Exhausted()) && StakeSurplus(Exhausted()) == 0
  {
    hide Total, Inbound, OneVoter;
    forall kind, r ensures Inbound(map[], kind, r) == 0 {
      NothingStaked(kind, r);
    }
    NothingStaked(Net, OWNER);
  }

  lemma ExhaustedRex()
    ensures RexInv(Exhausted(), NOW) && RexSurplus(Exhausted()) == 0
  {
    hide Total, OneVoter;
    var s := Exhausted();
    Double(Ledger.SharesOf(s.balances), OWNER, HOLDER);
    NothingStaked(Net, OWNER);
    assert ProceedsOf(s.orders) == map[OWNER := 0];
    Single(OWNER, 0);
  }

  lemma ExhaustedInv()
    ensures Inv(Exhausted(), NOW)
  {
    hide Total, VoteInv, PayInv, RexInv, StakeInv, RexSurplus, StakeSurplus, OneVoter;
    OneVoterInv(0, 0);
    NobodyPaid();
    ExhaustedRex();
    ExhaustedStakes();
    Single(REX, 30);
  }

  /** Without loans, orders and auction proceeds maintenance has nothing to do. */
  lemma QuietMaintenance(s: State, now: int, max: nat)
    requires s.pool.Some? && s.pool.value.namebid == 0 && s.cpuLoans == [] && s.netLoans == [] && s.queue == []
    ensures RunRex(s, now, max) == Success(s)
  {
  }

  /** The first REX to mature goes into a bucket of its own. */
  lemma FirstBucket(b: Balance, now: int, amount: int)
    requires b.buckets == []
    ensures Maturity.AddMaturing(b, now, amount) == b.(buckets := [Bucket(MaturityDate(now), amount)])
  {
  }

  /** The tables of the exchange once the owner has unstaked its other 10 units into REX. */
  ghost predicate HasUnstaked(t: State) {
    && t.pool == Some(Pool(0, 210, INITIAL_RENT, 210, 1_050_000, 0, 0))
    && t.balances == map[OWNER := Balance(210, 1_050_000, 1_000_000, [Bucket(MaturityDate(NOW), 50_000)])]
    && t.orders == map[] && t.queue == [] && t.cpuLoans == [] && t.netLoans == []
    && OWNER in t.votes.voters && t.votes.voters[OWNER].staked == 110
  }

  /** Appreciated, with the owner's tokens moved. */
  function Moved(): State {
    Appreciated().(delegations := map[], resources := map[], tokens := map[REX := 210, STAKE := 0])
  }

  lemma TokensMove()
    ensures Unstake(Appreciated(), OWNER, OWNER, 10, 0) == Success(Moved())
  {
    hide OneVoter, Listed;
    var s := Appreciated();
    assert MayBuyRex(s.votes, OWNER) by { OneVoterMayBuy(110, 110); }
    assert s.delegations - {(OWNER, OWNER)} == map[];
    assert s.resources - {OWNER} == map[];
    assert s.tokens[STAKE := 0][REX := 210] == map[REX := 210, STAKE := 0];
  }

  lemma OneVoterMayBuy(staked: int, weight: int)
    ensures MayBuyRex(OneVoter(staked, weight), OWNER)
    ensures OneVoter(staked, weight).voters[OWNER] == Voter(Listed(), staked, 0, 0, weight)
    ensures Votable(OneVoter(staked, weight), Listed(), true) && OWNER !in OneVoter(staked, weight).producers
  {
  }

  lemma OwnerBuys()
    ensures Purchase(Moved(), NOW, OWNER, 10).Success?
    ensures Purchase(Moved(), NOW, OWNER, 10).value.0
      == Moved().(pool := Some(Pool(0, 210, INITIAL_RENT, 210, 1_050_000, 0, 0)),
                  balances := map[OWNER := Balance(210, 1_050_000, 1_000_000, [Bucket(MaturityDate(NOW), 50_000)])])
  {
    hide OneVoter, Maturity.AddMaturing;
    FirstBucket(Balance(210, 1_050_000, 1_000_000, []), NOW, 50_000);
    assert Moved().balances[OWNER := Balance(210, 1_050_000, 1_000_000, [Bucket(MaturityDate(NOW), 50_000)])]
        == map[OWNER := Balance(210, 1_050_000, 1_000_000, [Bucket(MaturityDate(NOW), 50_000)])];
  }

  lemma OwnerUnstakes()
    ensures Rex.UnstakeToRex(Appreciated(), NOW, OWNER, OWNER, 10, 0).Success?
    ensures HasUnstaked(Rex.UnstakeToRex(Appreciated(), NOW, OWNER, OWNER, 10, 0).value)
  {
    hide OneVoter, Purchase, Unstake, RunRex, UpdateRexAccount, UpdateVotingPower, VoteInv;
    TokensMove();
    OwnerBuys();
    var bought := Purchase(Moved(), NOW, OWNER, 10).value.0;
    QuietMaintenance(bought, NOW, MAINTENANCE);
    UpdateRexAccountSteps(bought, NOW, OWNER, 0, 0, true);
    OneVoterInv(110, 110);
    OneVoterMayBuy(110, 110);
    UpdateVotingPowerKeeps(bought.votes, NOW, OWNER, 0);
  }

  /** Once all has matured the owner wants its 210 units, and cannot have them. */
  lemma SellingOutRefused(t: State)
    requires HasUnstaked(t)
    ensures Rex.SellRex(t, LATER, OWNER, 1_050_000) == Failure(NegativeVotingStake)
  {
    hide RunRex, UpdateRexAccount;
    QuietMaintenance(t, LATER, MAINTENANCE);
    var ready := Balance(210, 1_050_000, 1_050_000, []);
    assert Maturity.Mature(t.balances[OWNER], Seconds(LATER)) == ready by { AllMatures(t.balances[OWNER]); }
    var sale := Pools.Sell(t.pool.value, ready, 1_050_000).value;
    assert sale.Filled? && sale.proceeds == 210 && sale.stakeChange == -210;
    var sold := t.(pool := Some(sale.pool), balances := t.balances[OWNER := sale.balance]);
    UpdateRexAccountSteps(sold, LATER, OWNER, 210, -210, false);
  }

  lemma AllMatures(b: Balance)
    requires |b.buckets| == 1 && b.buckets[0].date == MaturityDate(NOW)
    ensures Maturity.Mature(b, Seconds(LATER)) == b.(matured := b.matured + b.buckets[0].amount, buckets := [])
  {
    assert MaturityDate(NOW) <= Seconds(LATER);
    assert b.buckets[1..] == [];
    hide MaturityDate;
  }

  lemma SellingOutAccepted()
    ensures Rex.SellRex(Appreciated(), NOW, OWNER, 1_000_000).Success?
  {
    hide RunRex, UpdateRexAccount, OneVoter, UpdateVotingPower, VoteInv;
    var s := Appreciated();
    QuietMaintenance(s, NOW, MAINTENANCE);
    var sale := Pools.Sell(s.pool.value, s.balances[OWNER], 1_000_000).value;
    assert sale.Filled? && sale.proceeds == 200 && sale.stakeChange == -100;
    var sold := s.(pool := Some(sale.pool), balances := s.balances[OWNER := sale.balance]);
    UpdateRexAccountSteps(sold, NOW, OWNER, 200, -100, false);
    OneVoterInv(110, 110);
    OneVoterMayBuy(110, 110);
    UpdateVotingPowerKeeps(s.votes, NOW, OWNER, -100);
  }

  /** Unstaking into REX can lock an owner in: before, the whole holding could be sold; after it and once
      everything has matured, selling out is refused because the stake on record lacks what the holding
      had gained. Both states keep the invariant. */
  lemma UnstakingLocksIn()
    ensures Inv(Appreciated(), NOW) && Apply(Appreciated(), NOW, Action.SellRex(OWNER, 1_000_000)).Success?
    ensures var r := Apply(Appreciated(), NOW, Action.UnstakeToRex(OWNER, OWNER, 10, 0));
      && r.Success? && Inv(r.value, NOW)
      && OWNER in r.value.balances && r.value.balances[OWNER].rex == 1_050_000
      && Apply(r.value, LATER, Action.SellRex(OWNER, 1_050_000)) == Failure(NegativeVotingStake)
  {
    hide Inv, Appreciated, Rex.UnstakeToRex, Rex.SellRex;
    AppreciatedInv();
    SellingOutAccepted();
    OwnerUnstakes();
    Theorems.ApplyKeepsInv(Appreciated(), NOW, Action.UnstakeToRex(OWNER, OWNER, 10, 0));
    SellingOutRefused(Rex.UnstakeToRex(Appreciated(), NOW, OWNER, OWNER, 10, 0).value);
  }

  // A filled order, revalued by a vote

  /** Exhausted, with the owner's order filled. */
  function Filled(): State {
    Exhausted().(
      pool := Some(Pool(0, 29, INITIAL_RENT, 29, 190_000, 0, 0)),
      balances := Exhausted().balances[OWNER := Balance(2, 10_000, 10_000, [])],
      orders := map[OWNER := Order(10_000, 1, -1, NOW, false)],
      queue := [])
  }

  lemma MaintenanceFills()
    ensures RunRex(Exhausted(), NOW, 1) == Success(Filled())
  {
    hide OneVoter;
    var s := Exhausted();
    assert SweepNamebids(s) == Success(s);
    assert ExpireLoans(s, NOW, Cpu, 1) == Success(s) && ExpireLoans(s, NOW, Net, 1) == Success(s);
    assert s.queue[..0] + s.queue[1..] == [];
    assert Pools.Sell(s.pool.value, s.balances[OWNER], 10_000)
        == Success(Pools.Filled(Filled().pool.value, Filled().balances[OWNER], 1, -1));
    assert s.orders[OWNER := Order(10_000, 1, -1, NOW, false)] == Filled().orders;
    assert FillOrder(s, 0) == Success(Filled());
    assert FillOrders(s, 0, 1) == FillOrders(Filled(), 0, 0);
  }

  lemma VoteRevalues()
    ensures CastVote(Filled(), NOW, OWNER, Listed()).Success?
    ensures var t := CastVote(Filled(), NOW, OWNER, Listed()).value;
      OWNER in t.votes.voters && t.votes.voters[OWNER].staked == -1 && t.votes.voters[OWNER].unpaidVotes == -1
  {
    hide OneVoter, UpdateVotes, VoteInv, Listed;
    var s := Filled();
    OneVoterMayBuy(0, 0);
    OneVoterInv(0, 0);
    var voter := Voter(Listed(), -1, 0, 0, 0);
    VoterRowKeeps(s.votes, NOW, OWNER, voter);
    var votes := s.votes.(voters := s.votes.voters[OWNER := voter]);
    assert votes == s.votes.(voters := s.votes.voters[OWNER := voter], unpaidVotes := s.votes.unpaidVotes + 0);
    assert Staking.UpdateRexStake(s, OWNER).votes == votes;
    UpdateVotesAccepts(votes, NOW, OWNER, Listed(), true);
    UpdateVotesTallies(votes, NOW, OWNER, Listed(), true);
  }

  /** Revaluing in a vote can make the stake on record negative, and the voter's credit with it: the
      order is filled at a value rounded down, and the rest is worth a unit less than was left on
      record. */
  lemma VoteCreditsNegative()
    ensures Inv(Exhausted(), NOW) && VoteRewardsSafe(Exhausted())
    ensures var filled := Apply(Exhausted(), NOW, Action.RexExec(1));
      && filled.Success? && VoteRewardsSafe(filled.value)
      && var voted := Apply(filled.value, NOW, Action.VoteProducers(OWNER, Listed()));
      && voted.Success? && Inv(voted.value, NOW)
      && OWNER in voted.value.votes.voters && voted.value.votes.voters[OWNER].unpaidVotes == -1
      && !VoteRewardsSafe(voted.value)
  {
    hide Inv, CastVote, RunRex, Listed;
    ExhaustedInv();
    MaintenanceFills();
    VoteRevalues();
    Theorems.ApplyKeepsInv(Exhausted(), NOW, Action.RexExec(1));
    Theorems.ApplyKeepsInv(Filled(), NOW, Action.VoteProducers(OWNER, Listed()));
  }
}
