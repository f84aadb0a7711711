/** What renting costs: the product of the two connectors, rent and unlent, never falls while no
    sell order is filled. */
module Pricing {
  import opened Outcomes
  import opened Arithmetic
  import opened Chain
  import opened Loans
  import opened Ledger
  import opened Rex
  import opened Maintenance
  import Pools

  /** The rental pool is no cheaper to drain in `q` than in `p`. */
  predicate ProductKept(p: Pool, q: Pool) {
    p.rent * p.unlent <= q.rent * q.unlent
  }

  lemma ExpireLoanQueue(s: State, kind: LoanKind)
    requires s.pool.Some? && LoansOf(s, kind) != [] && ExpireLoan(s, kind).Success?
    ensures ExpireLoan(s, kind).value.queue == s.queue
  {
    hide StakeTo, Pools.RemoveLoan, Pools.BancorOutput, Insert;
  }

  lemma CloseLoanPool(s: State, kind: LoanKind, closed: Pool)
    requires LoansOf(s, kind) != [] && CloseLoan(s, kind, closed).Success?
    ensures CloseLoan(s, kind, closed).value.pool == Some(closed)
  {
    hide StakeTo;
  }

  lemma RenewLoanPool(s: State, kind: LoanKind, closed: Pool, rented: int)
    requires LoansOf(s, kind) != [] && RenewLoan(s, kind, closed, rented).Success?
    ensures RenewLoan(s, kind, closed, rented).value.pool
         == Some(Pools.AddLoan(closed, LoansOf(s, kind)[0].payment, rented, false))
  {
    hide StakeTo, Insert, Pools.AddLoan;
  }

  /** Neither closing nor renewing an expired loan lowers the product. */
  lemma ExpireLoanKeepsProduct(s: State, now: int, kind: LoanKind)
    requires MaintInv(s, now) && s.pool.Some? && LoansOf(s, kind) != [] && ExpireLoan(s, kind).Success?
    ensures ProductKept(s.pool.value, ExpireLoan(s, kind).value.pool.value)
  {
    hide MaintInv, CloseLoan, RenewLoan, Pools.RemoveLoan, Pools.BancorOutput, Pools.AddLoan, Pools.PriceKept, Staked, Escrow, StakedTo,
         Weight, LoansOk, Pools.Sound;
    var loan := LoansOf(s, kind)[0];
    HeadLoanParts(s, now, kind);
    PoolIsSound(s, now);
    Pools.RemoveLoanKeeps(s.pool.value, loan.staked);
    var closed := Pools.RemoveLoan(s.pool.value, loan.staked).value;
    Pools.AddLoanKeeps(closed, loan.payment, false);
    var rented := Pools.BancorOutput(closed.rent, closed.unlent, loan.payment).value;
    if Renews(s.(pool := Some(closed)), loan, rented) {
      RenewLoanPool(s, kind, closed, rented);
    } else {
      CloseLoanPool(s, kind, closed);
    }
  }

  lemma {:induction false} ExpireLoansKeepProduct(s: State, now: int, kind: LoanKind, max: nat)
    requires MaintInv(s, now) && s.pool.Some? && ExpireLoans(s, now, kind, max).Success?
    ensures var t := ExpireLoans(s, now, kind, max).value;
      ProductKept(s.pool.value, t.pool.value) && t.queue == s.queue
    decreases max
  {
    hide MaintInv, ExpireLoan, Untouched, RexSurplus, Pools.PriceKept;
    if max != 0 && LoansOf(s, kind) != [] && LoansOf(s, kind)[0].expiration <= now {
      ExpireLoanKeeps(s, now, kind);
      ExpireLoanKeepsProduct(s, now, kind);
      ExpireLoanQueue(s, kind);
      ExpireLoansKeepProduct(ExpireLoan(s, kind).value, now, kind, max - 1);
    }
  }

  /** With no order to fill, maintenance never lowers the product. */
  lemma RunRexKeepsProduct(s: State, now: int, max: nat)
    requires MaintInv(s, now) && s.pool.Some? && s.queue == []
    ensures RunRex(s, now, max).Success?
    ensures var t := RunRex(s, now, max).value;
      ProductKept(s.pool.value, t.pool.value) && t.queue == []
  {
    hide MaintInv, Untouched, RexSurplus, Pools.PriceKept, SweepNamebids, ExpireLoans, ProductKept;
    SweepNamebidsKeeps(s, now);
    var swept := SweepNamebids(s).value;
    ExpireLoansKeeps(swept, now, Cpu, max);
    ExpireLoansKeepProduct(swept, now, Cpu, max);
    var cpu := ExpireLoans(swept, now, Cpu, max).value;
    ExpireLoansKeeps(cpu, now, Net, max);
    ExpireLoansKeepProduct(cpu, now, Net, max);
    var net := ExpireLoans(cpu, now, Net, max).value;
    assert FillOrders(net, 0, max) == Success(net);
    ProductTransitive(s.pool.value, swept.pool.value, cpu.pool.value, net.pool.value);
  }

  lemma ProductTransitive(p: Pool, q: Pool, r: Pool, t: Pool)
    requires p.rent * p.unlent <= q.rent * q.unlent && ProductKept(q, r) && ProductKept(r, t)
    ensures ProductKept(p, t)
  {
  }

  /** Buying REX never lowers the product, not even where it starts the pool over. */
  lemma PurchaseKeepsProduct(p: Pool, payment: int)
    requires Pools.Sound(p) && 0 < payment
    ensures Pools.AddPurchase(Some(p), payment).Success?
    ensures ProductKept(p, Pools.AddPurchase(Some(p), payment).value.0)
  {
    Pools.AddPurchaseKeeps(Some(p), payment);
    var q := Pools.AddPurchase(Some(p), payment).value.0;
    if p.rex == 0 {
      assert p.unlent == 0;
    } else {
      MulLe(p.unlent, q.unlent, p.rent);
    }
  }

  lemma RentPool(s: State, now: int, kind: LoanKind, from: Name, receiver: Name, payment: int, fund: int)
    requires Rent(s, now, kind, from, receiver, payment, fund).Success?
    ensures var m := RunRex(s, now, MAINTENANCE).value;
      && RunRex(s, now, MAINTENANCE).Success? && 0 < payment && Pools.Available(m.pool)
      && var rented := Pools.BancorOutput(m.pool.value.rent, m.pool.value.unlent, payment);
      && rented.Success? && payment < rented.value
      && Rent(s, now, kind, from, receiver, payment, fund).value.pool
         == Some(Pools.AddLoan(m.pool.value, payment, rented.value, true))
  {
    hide RunRex, StakeTo, Pools.BancorOutput, Pools.AddLoan, Insert;
  }

  /** Renting, maintenance and all, never lowers the product, and always lends more than it costs. */
  lemma RentKeepsProduct(s: State, now: int, kind: LoanKind, from: Name, receiver: Name, payment: int, fund: int)
    requires MaintInv(s, now) && s.pool.Some? && s.queue == []
    requires Rent(s, now, kind, from, receiver, payment, fund).Success?
    ensures var t := Rent(s, now, kind, from, receiver, payment, fund).value;
      && t.pool.Some? && ProductKept(s.pool.value, t.pool.value)
      && RunRex(s, now, MAINTENANCE).Success?
      && payment < t.pool.value.lent - RunRex(s, now, MAINTENANCE).value.pool.value.lent
  {
    hide MaintInv, RunRex, Rent, Pools.BancorOutput, Pools.AddLoan, Untouched, RexSurplus, Pools.PriceKept, Pools.Sound;
    RunRexKeepsProduct(s, now, MAINTENANCE);
    RunRexKeeps(s, now, MAINTENANCE);
    var m := RunRex(s, now, MAINTENANCE).value;
    RentPool(s, now, kind, from, receiver, payment, fund);
    PoolIsSound(m, now);
    Pools.AddLoanKeeps(m.pool.value, payment, true);
  }

  /** What a renter gets for a payment is the floor of the Bancor formula, and never all there is. */
  lemma RentedIsFloor(p: Pool, payment: int)
    requires Pools.Sound(p) && 0 < payment
    ensures var rented := Pools.BancorOutput(p.rent, p.unlent, payment).value;
      && Pools.BancorOutput(p.rent, p.unlent, payment).Success?
      && 0 <= rented <= p.unlent && (0 < p.rent && 0 < p.unlent ==> rented < p.unlent)
      && rented * (p.rent + payment) <= p.unlent * payment < (rented + 1) * (p.rent + payment)
  {
    Pools.BancorShare(p.rent, p.unlent, payment);
    var rented := Pools.BancorOutput(p.rent, p.unlent, payment).value;
    MulNonneg(payment, p.unlent);
    FloorBounds(payment * p.unlent, payment + p.rent);
    if 0 < p.rent && 0 < p.unlent {
      MulPositive(p.unlent, p.rent);
      assert p.unlent * (payment + p.rent) == payment * p.unlent + p.unlent * p.rent;
      FloorAtMost(p.unlent - 1, payment * p.unlent, payment + p.rent);
    }
  }
}
