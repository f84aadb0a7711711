/** What the actions on one balance do to it: savings, consolidation, revaluation, closing. */
module Savings {
  import opened Outcomes
  import opened Arithmetic
  import opened Sums
  import opened Chain
  import opened Ledger
  import opened Rex
  import opened Exchange
  import Drift
  import Loans
  import Maintenance
  import Maturity
  import Pools
  import Settlement
  import StakeRecord
  import Voting
  import VotingProofs

  /** One balance is replaced; all others are as maintenance left them. */
  ghost predicate OneBalance(m: State, t: State, owner: Name, b: Balance) {
    t.balances == m.balances[owner := b]
  }

  /** The state after maintenance, and what of it the actions rely on. */
  lemma Maintained(s: State, now: int, owner: Name)
    requires Whole(s, now)
    ensures RunRex(s, now, MAINTENANCE).Success? <==> s.pool.Some?
    ensures s.pool.Some? ==>
      var m := RunRex(s, now, MAINTENANCE).value;
      && Whole(m, now) && m.pool.Some? && VotingProofs.VoteInv(m.votes, now)
      && (owner in m.balances ==>
            Maturity.Healthy(m.balances[owner], now) && 0 <= Settlement.OpenOf(m, owner) <= m.balances[owner].matured)
      && Pools.Sound(m.pool.value)
  {
    hide MaintInv, VotingProofs.VoteInv, RunRex, Maintenance.Untouched, RexSurplus, Pools.PriceKept, Maturity.Healthy, Pools.Sound;
    if s.pool.Some? {
      Maintenance.RunRexKeeps(s, now, MAINTENANCE);
      var m := RunRex(s, now, MAINTENANCE).value;
      MaintainedWhole(s, m, now);
      if owner in m.balances { OpenIsMatured(m, now, owner); }
      Maintenance.PoolIsSound(m, now);
    } else {
      Settlement.NoPoolNoSale(s, now, owner, 1);
    }
  }

  lemma OpenIsMatured(m: State, now: int, owner: Name)
    requires MaintInv(m, now) && owner in m.balances
    ensures Maturity.Healthy(m.balances[owner], now)
    ensures 0 <= Settlement.OpenOf(m, owner) <= m.balances[owner].matured
  {
  }

  /** Settling without proceeds or a change of its own: it succeeds exactly when a filled order's change can
      be booked, leaves the balances alone, and reports the REX in an open order. */
  lemma Settles(m: State, now: int, owner: Name)
    requires VotingProofs.VoteInv(m.votes, now)
    ensures UpdateRexAccount(m, now, owner, 0, 0, false).Success? <==> Settlement.MayBook(m, now, owner, 0)
    ensures UpdateRexAccount(m, now, owner, 0, 0, false).Success? ==>
      var (t, inOrder) := UpdateRexAccount(m, now, owner, 0, 0, false).value;
      t.balances == m.balances && inOrder == Settlement.OpenOf(m, owner)
  {
    hide VotingProofs.VoteInv, UpdateRexAccount, Bookable;
    CollectsExactly(m, now, owner, 0, 0, false);
    UpdateRexAccountSteps(m, now, owner, 0, 0, false);
  }

  // Buying

  /** REX bought is sellable from today's maturity date on, beside what was there. */
  ghost predicate Joined(b: Balance, c: Balance, now: int, received: int) {
    && c.rex == b.rex + received && Maturity.SavingsOf(c) == Maturity.SavingsOf(b)
    && forall date :: Seconds(now) <= date < END_OF_DAYS ==>
         Maturity.SellableBy(c, date) == Maturity.SellableBy(b, date) + if MaturityDate(now) <= date then received else 0
  }

  lemma JoinsMaturing(b: Balance, now: int, received: int, stake: int)
    requires InEpoch(now) && Maturity.Healthy(b, now) && 0 <= received
    ensures Joined(b, Maturity.AddMaturing(b.(rex := b.rex + received, voteStake := stake), now, received), now, received)
  {
    hide Maturity.AddMaturing, Maturity.SavingsOf, Maturity.SellableBy, Maturity.Healthy;
    var grown := b.(rex := b.rex + received, voteStake := stake);
    Restaked(b, now, stake);
    Maturity.AddMaturingKeeps(grown, now, received, Seconds(now));
    forall date | Seconds(now) <= date < END_OF_DAYS
      ensures Maturity.SellableBy(Maturity.AddMaturing(grown, now, received), date)
           == Maturity.SellableBy(b, date) + if MaturityDate(now) <= date then received else 0
    {
      Maturity.AddMaturingKeeps(grown, now, received, date);
    }
  }

  lemma Restaked(b: Balance, now: int, stake: int)
    requires Maturity.Healthy(b, now)
    ensures var grown := b.(voteStake := stake);
      && Maturity.Healthy(grown, now)
      && (forall rex :: grown.(rex := rex).(rex := b.rex) == grown)
      && (forall rex :: Maturity.SavingsOf(grown.(rex := rex)) == Maturity.SavingsOf(b))
      && (forall rex, date :: Maturity.SellableBy(grown.(rex := rex), date) == Maturity.SellableBy(b, date))
  {
  }

  /** A buyer without an order ends with all the REX the pool issued for its payment, maturing at today's
      date, and nothing else of its balance has changed its date. */
  lemma BoughtRexMatures(s: State, t: State, now: int, from: Name, amount: int)
    requires Whole(s, now) && InEpoch(now) && from !in s.orders && Rex.BuyRex(s, now, from, amount) == Success(t)
    ensures Pools.AddPurchase(s.pool, amount).Success? && from in t.balances
    ensures Joined(if from in s.balances then s.balances[from] else Balance(0, 0, 0, []), t.balances[from], now,
                   Pools.AddPurchase(s.pool, amount).value.1)
  {
    hide MaintInv, VotingProofs.VoteInv, UpdateRexAccount, RunRex, Purchase, PriceHeld, RexSurplus, TransferFromFund, Pools.Available,
         Joined, Pools.AddPurchase;
    FromFundKeeps(s, now, from, amount);
    var paid := TransferFromFund(s, from, amount).value;
    PurchaseKeeps(paid, now, from, amount);
    PurchaseJoins(paid, now, from, amount);
    var bought := Purchase(paid, now, from, amount).value.0;
    Drift.PoolAndBalances(s, now);
    Drift.RunRexSkips(bought, now, MAINTENANCE, from);
  }

  lemma PurchaseJoins(s: State, now: int, owner: Name, payment: int)
    requires MaintInv(s, now) && InEpoch(now) && 0 < payment && Purchase(s, now, owner, payment).Success?
    ensures var t := Purchase(s, now, owner, payment).value.0;
      && t == s.(pool := t.pool, balances := t.balances)
      && Pools.AddPurchase(s.pool, payment).Success? && owner in t.balances
      && Joined(if owner in s.balances then s.balances[owner] else Balance(0, 0, 0, []), t.balances[owner], now,
                Pools.AddPurchase(s.pool, payment).value.1)
  {
    hide MaintInv, Maturity.AddMaturing, Pools.AddPurchase, Pools.ValueOf, Pools.Sound, Pools.PriceKept, Maturity.Healthy, Joined,
         Pools.Available;
    Drift.PoolAndBalances(s, now);
    Pools.AddPurchaseKeeps(s.pool, payment);
    var (pool, received) := Pools.AddPurchase(s.pool, payment).value;
    var was := if owner in s.balances then s.balances[owner] else Balance(0, 0, 0, []);
    EmptyBalance(now, 0);
    var stake := if owner in s.balances then Pools.ValueOf(pool, was.rex + received) else payment;
    JoinsMaturing(was, now, received, stake);
  }

  // To savings and back

  /** What moving to savings needs after maintenance. */
  ghost predicate MaySave(m: State, now: int, owner: Name, rex: int) {
    && owner in m.balances && 0 < rex && Settlement.MayBook(m, now, owner, 0)
    && rex + Settlement.OpenOf(m, owner) + Maturity.SavingsOf(m.balances[owner]) <= m.balances[owner].rex
  }

  /** What is sellable by each date once the furthest maturities have gone to savings. */
  ghost predicate SavedFrom(b: Balance, c: Balance, now: int, rex: int) {
    && c.rex == b.rex && c.voteStake == b.voteStake
    && Maturity.SavingsOf(c) == Maturity.SavingsOf(b) + rex
    && forall date :: Seconds(now) <= date < END_OF_DAYS ==>
         Maturity.SellableBy(c, date) == Min(Maturity.SellableBy(b, date), b.rex - Maturity.SavingsOf(b) - rex)
  }

  lemma SavesFurthest(b: Balance, now: int, rex: int, inOrder: int)
    requires InEpoch(now) && Maturity.Healthy(b, now) && 0 < rex && 0 <= inOrder <= b.matured
    ensures Maturity.MoveToSavings(b, now, rex, inOrder).Success? <==> rex + inOrder + Maturity.SavingsOf(b) <= b.rex
    ensures Maturity.MoveToSavings(b, now, rex, inOrder).Success? ==>
      SavedFrom(b, Maturity.MoveToSavings(b, now, rex, inOrder).value, now, rex)
  {
    hide Maturity.MoveToSavings, Maturity.Healthy, Maturity.SavingsOf, Maturity.SellableBy;
    Maturity.MoveToSavingsKeeps(b, now, rex, inOrder, Seconds(now));
    forall date | Seconds(now) <= date < END_OF_DAYS
      ensures Maturity.MoveToSavings(b, now, rex, inOrder).Success? ==>
        Maturity.SellableBy(Maturity.MoveToSavings(b, now, rex, inOrder).value, date)
          == Min(Maturity.SellableBy(b, date), b.rex - Maturity.SavingsOf(b) - rex)
    {
      Maturity.MoveToSavingsKeeps(b, now, rex, inOrder, date);
    }
  }

  /** Moving REX to savings is refused exactly when the owner has no balance, the amount is not positive,
      the account cannot be settled, or open order, savings and amount exceed the balance. Then exactly the
      amount is in savings, the furthest maturities having given it, and nobody else's balance differs. */
  lemma SavingsGrow(s: State, now: int, owner: Name, rex: int)
    requires Whole(s, now) && InEpoch(now)
    ensures RunRex(s, now, MAINTENANCE).Success? <==> s.pool.Some?
    ensures Rex.MoveToSavings(s, now, owner, rex).Success? <==>
      RunRex(s, now, MAINTENANCE).Success? && MaySave(RunRex(s, now, MAINTENANCE).value, now, owner, rex)
    ensures Rex.MoveToSavings(s, now, owner, rex).Success? ==>
      var m := RunRex(s, now, MAINTENANCE).value;
      var t := Rex.MoveToSavings(s, now, owner, rex).value;
      && owner in t.balances && OneBalance(m, t, owner, t.balances[owner])
      && SavedFrom(m.balances[owner], t.balances[owner], now, rex)
  {
    hide MaintInv, VotingProofs.VoteInv, RunRex, UpdateRexAccount, Maturity.MoveToSavings, Maturity.Healthy, Pools.Sound,
         Settlement.MayBook, Settlement.OpenOf, Maturity.SavingsOf, SavedFrom;
    Maintained(s, now, owner);
    if s.pool.Some? {
      var m := RunRex(s, now, MAINTENANCE).value;
      Settles(m, now, owner);
      if owner in m.balances && 0 < rex { SavesFurthest(m.balances[owner], now, rex, Settlement.OpenOf(m, owner)); }
    }
  }

  /** What moving out of savings needs after maintenance. */
  ghost predicate MayDraw(m: State, now: int, owner: Name, rex: int) {
    owner in m.balances && 0 < rex <= Maturity.SavingsOf(m.balances[owner]) && Settlement.MayBook(m, now, owner, 0)
  }

  /** REX out of savings is sellable from today's maturity date on, and nothing else changes its date. */
  ghost predicate DrawnFrom(b: Balance, c: Balance, now: int, rex: int) {
    && c.rex == b.rex && c.voteStake == b.voteStake
    && Maturity.SavingsOf(c) == Maturity.SavingsOf(b) - rex
    && forall date :: Seconds(now) <= date < END_OF_DAYS ==>
         Maturity.SellableBy(c, date) == Maturity.SellableBy(b, date) + if MaturityDate(now) <= date then rex else 0
  }

  lemma DrawsMaturing(b: Balance, now: int, rex: int)
    requires InEpoch(now) && Maturity.Healthy(b, now) && 0 < rex
    ensures Maturity.MoveFromSavings(b, now, rex).Success? <==> rex <= Maturity.SavingsOf(b)
    ensures Maturity.MoveFromSavings(b, now, rex).Success? ==> DrawnFrom(b, Maturity.MoveFromSavings(b, now, rex).value, now, rex)
  {
    hide Maturity.MoveFromSavings, Maturity.Healthy, Maturity.SavingsOf, Maturity.SellableBy;
    Maturity.MoveFromSavingsKeeps(b, now, rex, Seconds(now));
    forall date | Seconds(now) <= date < END_OF_DAYS
      ensures Maturity.MoveFromSavings(b, now, rex).Success? ==>
        Maturity.SellableBy(Maturity.MoveFromSavings(b, now, rex).value, date)
          == Maturity.SellableBy(b, date) + if MaturityDate(now) <= date then rex else 0
    {
      Maturity.MoveFromSavingsKeeps(b, now, rex, date);
    }
  }

  /** Moving REX out of savings is refused exactly beyond the savings, or when the account cannot be
      settled; the amount matures at today's date. */
  lemma SavingsShrink(s: State, now: int, owner: Name, rex: int)
    requires Whole(s, now) && InEpoch(now)
    ensures RunRex(s, now, MAINTENANCE).Success? <==> s.pool.Some?
    ensures Rex.MoveFromSavings(s, now, owner, rex).Success? <==>
      RunRex(s, now, MAINTENANCE).Success? && MayDraw(RunRex(s, now, MAINTENANCE).value, now, owner, rex)
    ensures Rex.MoveFromSavings(s, now, owner, rex).Success? ==>
      var m := RunRex(s, now, MAINTENANCE).value;
      var t := Rex.MoveFromSavings(s, now, owner, rex).value;
      && owner in t.balances && OneBalance(m, t, owner, t.balances[owner])
      && DrawnFrom(m.balances[owner], t.balances[owner], now, rex)
  {
    hide MaintInv, VotingProofs.VoteInv, RunRex, UpdateRexAccount, Maturity.MoveFromSavings, Maturity.Healthy, Pools.Sound,
         Settlement.MayBook, Settlement.OpenOf, Maturity.SavingsOf, DrawnFrom;
    Maintained(s, now, owner);
    if s.pool.Some? {
      var m := RunRex(s, now, MAINTENANCE).value;
      if owner in m.balances && 0 < rex {
        DrawsMaturing(m.balances[owner], now, rex);
        if rex <= Maturity.SavingsOf(m.balances[owner]) {
          var drawn := m.(balances := m.balances[owner := Maturity.MoveFromSavings(m.balances[owner], now, rex).value]);
          Settles(drawn, now, owner);
          SameBooking(m, drawn, now, owner);
        }
      }
    }
  }

  lemma SameBooking(m: State, n: State, now: int, owner: Name)
    requires m.orders == n.orders && m.votes == n.votes
    ensures Settlement.MayBook(m, now, owner, 0) == Settlement.MayBook(n, now, owner, 0)
  {
    hide Bookable;
  }

  // Consolidation

  /** All REX outside savings and the open order matures together, at today's maturity date. */
  ghost predicate Gathered(b: Balance, c: Balance, now: int, inOrder: int) {
    && c.rex == b.rex && c.voteStake == b.voteStake && Maturity.SavingsOf(c) == Maturity.SavingsOf(b)
    && forall date :: Seconds(now) <= date < END_OF_DAYS ==>
         Maturity.SellableBy(c, date) == if MaturityDate(now) <= date then b.rex - Maturity.SavingsOf(b) else inOrder
  }

  lemma Gathers(b: Balance, now: int, inOrder: int)
    requires InEpoch(now) && Maturity.Healthy(b, now) && 0 <= inOrder <= b.matured
    ensures Gathered(b, Maturity.Consolidate(b, now, inOrder), now, inOrder)
  {
    hide Maturity.Consolidate, Maturity.Healthy, Maturity.SavingsOf, Maturity.SellableBy;
    Maturity.ConsolidateKeeps(b, now, inOrder, Seconds(now));
    forall date | Seconds(now) <= date < END_OF_DAYS
      ensures Maturity.SellableBy(Maturity.Consolidate(b, now, inOrder), date)
           == if MaturityDate(now) <= date then b.rex - Maturity.SavingsOf(b) else inOrder
    {
      Maturity.ConsolidateKeeps(b, now, inOrder, date);
    }
  }

  /** Consolidating is refused exactly without a balance or when the account cannot be settled; the open
      order and savings stay as they are, and all else matures together. */
  lemma BalanceIsGathered(s: State, now: int, owner: Name)
    requires Whole(s, now) && InEpoch(now)
    ensures RunRex(s, now, MAINTENANCE).Success? <==> s.pool.Some?
    ensures Rex.Consolidate(s, now, owner).Success? <==>
      && RunRex(s, now, MAINTENANCE).Success?
      && var m := RunRex(s, now, MAINTENANCE).value; owner in m.balances && Settlement.MayBook(m, now, owner, 0)
    ensures Rex.Consolidate(s, now, owner).Success? ==>
      var m := RunRex(s, now, MAINTENANCE).value;
      var t := Rex.Consolidate(s, now, owner).value;
      && owner in t.balances && OneBalance(m, t, owner, t.balances[owner])
      && Gathered(m.balances[owner], t.balances[owner], now, Settlement.OpenOf(m, owner))
  {
    hide MaintInv, VotingProofs.VoteInv, RunRex, UpdateRexAccount, Maturity.Consolidate, Maturity.Healthy, Pools.Sound,
         Settlement.MayBook, Settlement.OpenOf, Gathered;
    Maintained(s, now, owner);
    if s.pool.Some? {
      var m := RunRex(s, now, MAINTENANCE).value;
      Settles(m, now, owner);
      if owner in m.balances { Gathers(m.balances[owner], now, Settlement.OpenOf(m, owner)); }
    }
  }

  // Revaluation

  /** Maturing takes in exactly the buckets that are due. */
  lemma {:induction false} MaturesDue(b: Balance, seconds: int)
    requires Maturity.Increasing(b.buckets)
    ensures var c := Maturity.Mature(b, seconds);
      && c.rex == b.rex && c.voteStake == b.voteStake
      && c.matured == Maturity.SellableBy(b, seconds)
      && (forall i :: 0 <= i < |c.buckets| ==> seconds < c.buckets[i].date)
      && (forall date :: seconds <= date ==> Maturity.SellableBy(c, date) == Maturity.SellableBy(b, date))
    decreases |b.buckets|
  {
    if b.buckets != [] && b.buckets[0].date <= seconds {
      MaturesDue(b.(matured := b.matured + b.buckets[0].amount, buckets := b.buckets[1..]), seconds);
    } else {
      Maturity.NoneDue(b.buckets, seconds);
    }
  }

  /** The value of a holding at the price of a pool; an empty pool values nothing. */
  function WorthIn(p: Pool, rex: int): int {
    if 0 < p.rex then Pools.ValueOf(p, rex) else 0
  }

  /** Revaluing is refused exactly without a balance or when the stake on record cannot take the change.
      The balance is then recorded at the current price, the stake has moved by as much, and all that is
      due has matured. */
  lemma HoldingIsRevalued(s: State, now: int, owner: Name)
    requires Whole(s, now) && InEpoch(now)
    ensures RunRex(s, now, MAINTENANCE).Success? <==> s.pool.Some?
    ensures Rex.UpdateRex(s, now, owner).Success? <==>
      && RunRex(s, now, MAINTENANCE).Success?
      && var m := RunRex(s, now, MAINTENANCE).value;
      && m.pool.Some? && owner in m.balances
      && var b := m.balances[owner];
      Bookable(m.votes, now, owner, StakeBooked(m, owner, WorthIn(m.pool.value, b.rex) - b.voteStake))
    ensures Rex.UpdateRex(s, now, owner).Success? ==>
      var m := RunRex(s, now, MAINTENANCE).value;
      var t := Rex.UpdateRex(s, now, owner).value;
      && owner in t.balances && OneBalance(m, t, owner, t.balances[owner])
      && var b, c := m.balances[owner], t.balances[owner];
      var worth := WorthIn(m.pool.value, b.rex);
      && c.rex == b.rex && c.voteStake == worth && c.matured == Maturity.SellableBy(b, Seconds(now))
      && StakeRecord.StakedBy(t.votes, owner) == StakeRecord.StakedBy(m.votes, owner) + StakeBooked(m, owner, worth - b.voteStake)
  {
    hide MaintInv, VotingProofs.VoteInv, RunRex, UpdateRexAccount, Maturity.Mature, Pools.Sound, Bookable, StakeBooked;
    Maintained(s, now, owner);
    if s.pool.Some? {
      var m := RunRex(s, now, MAINTENANCE).value;
      if owner in m.balances { RevaluesOwner(m, now, owner); }
    }
  }

  lemma RevaluesOwner(m: State, now: int, owner: Name)
    requires m.pool.Some? && owner in m.balances && VotingProofs.VoteInv(m.votes, now) && Maturity.Healthy(m.balances[owner], now)
    ensures var b := m.balances[owner];
      var worth := WorthIn(m.pool.value, b.rex);
      var valued := b.(voteStake := worth);
      var r := UpdateRexAccount(m.(balances := m.balances[owner := valued]), now, owner, 0, worth - b.voteStake, true);
      && (r.Success? <==> Bookable(m.votes, now, owner, StakeBooked(m, owner, worth - b.voteStake)))
      && (r.Success? ==>
            && r.value.0.balances == m.balances[owner := valued]
            && StakeRecord.StakedBy(r.value.0.votes, owner)
               == StakeRecord.StakedBy(m.votes, owner) + StakeBooked(m, owner, worth - b.voteStake))
      && Maturity.Mature(valued, Seconds(now)).rex == b.rex && Maturity.Mature(valued, Seconds(now)).voteStake == worth
      && Maturity.Mature(valued, Seconds(now)).matured == Maturity.SellableBy(b, Seconds(now))
  {
    hide VotingProofs.VoteInv, UpdateRexAccount, Maturity.Mature, Bookable, WorthIn;
    var b := m.balances[owner];
    var worth := WorthIn(m.pool.value, b.rex);
    var row := m.(balances := m.balances[owner := b.(voteStake := worth)]);
    CollectsExactly(row, now, owner, 0, worth - b.voteStake, true);
    UpdateRexAccountSteps(row, now, owner, 0, worth - b.voteStake, true);
    var change := StakeBooked(m, owner, worth - b.voteStake);
    if Voting.UpdateVotingPower(m.votes, now, owner, change).Success? {
      StakeRecord.VotingPowerMoves(m.votes, now, owner, change);
    }
    MaturesDue(b.(voteStake := worth), Seconds(now));
  }

  // Closing

  /** Closing an account is refused exactly when REX remains in it or it cannot be settled. It erases the
      balance and, unless something is in it or a loan of the owner remains, the fund; nothing else. */
  lemma AccountIsClosed(s: State, now: int, owner: Name)
    requires Whole(s, now) && InEpoch(now)
    ensures s.pool.Some? ==> RunRex(s, now, MAINTENANCE).Success?
    ensures var m := if s.pool.Some? then RunRex(s, now, MAINTENANCE).value else s;
      && (Rex.CloseRex(s, now, owner).Success? <==>
            Settlement.MayBook(m, now, owner, 0) && (owner in m.balances ==> m.balances[owner].rex == 0))
      && (Rex.CloseRex(s, now, owner).Success? ==>
            var t := Rex.CloseRex(s, now, owner).value;
            && t.balances == m.balances - {owner}
            && (owner in t.funds ==> t.funds[owner] != 0 || Loans.HasOwner(m.cpuLoans, owner) || Loans.HasOwner(m.netLoans, owner))
            && (owner in m.funds && (Loans.HasOwner(m.cpuLoans, owner) || Loans.HasOwner(m.netLoans, owner)) ==> owner in t.funds)
            && (forall n :: At(t.funds, n) == At(m.funds, n) + if n == owner then Settlement.Collectable(m, owner) else 0))
  {
    hide MaintInv, VotingProofs.VoteInv, RunRex, UpdateRexAccount, Maturity.Healthy, Pools.Sound, Settlement.MayBook, Loans.HasOwner,
         Rex.CloseRex, Settlement.OpenOf, Settlement.Collectable;
    Maintained(s, now, owner);
    var m := if s.pool.Some? then RunRex(s, now, MAINTENANCE).value else s;
    Settles(m, now, owner);
    CloseAccepts(s, m, now, owner);
    if Rex.CloseRex(s, now, owner).Success? {
      StakeRecord.CloseParts(s, m, now, owner);
      Settlement.AccountPays(m, now, owner, 0, 0, false);
      AccountFrame(m, now, owner);
    }
  }

  lemma AccountFrame(m: State, now: int, owner: Name)
    requires UpdateRexAccount(m, now, owner, 0, 0, false).Success?
    ensures var u := UpdateRexAccount(m, now, owner, 0, 0, false).value.0;
      u.cpuLoans == m.cpuLoans && u.netLoans == m.netLoans && m.funds.Keys <= u.funds.Keys
  {
    hide UpdateRexAccount, Voting.UpdateVotingPower;
    UpdateRexAccountSteps(m, now, owner, 0, 0, false);
  }

  lemma CloseAccepts(s: State, m: State, now: int, owner: Name)
    requires if s.pool.Some? then RunRex(s, now, MAINTENANCE) == Success(m) else m == s
    requires UpdateRexAccount(m, now, owner, 0, 0, false).Success? ==>
      UpdateRexAccount(m, now, owner, 0, 0, false).value.0.balances == m.balances
    ensures Rex.CloseRex(s, now, owner).Success? <==>
      UpdateRexAccount(m, now, owner, 0, 0, false).Success? && (owner in m.balances ==> m.balances[owner].rex == 0)
  {
    hide UpdateRexAccount, RunRex, Loans.HasOwner;
  }
}
