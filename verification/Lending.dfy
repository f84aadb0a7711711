/** What becomes of a loan: who took it, on what terms, and what maintenance does to it. */
module Lending {
  import opened Outcomes
  import opened Arithmetic
  import opened Sums
  import opened Chain
  import opened Loans
  import opened Ledger
  import opened Rex
  import opened Maintenance
  import Exchange
  import Pools
  import Staking
  import Token
  import VotingProofs

  // Prices

  /** The floor of the Bancor formula for a payment: what is had of `unlent` when `rent` was paid before. */
  function Price(rent: int, unlent: int, payment: int): int
    requires rent + payment != 0
  {
    payment * unlent / (rent + payment)
  }

  lemma BancorIsPrice(conin: int, conout: int, input: int)
    requires 0 <= conin && 0 <= conout && 0 < input
    ensures Pools.BancorOutput(conin, conout, input) == Success(Price(conin, conout, input))
  {
    MulNonneg(input, conout);
  }

  /** The pool while a loan is given back: its stake is unlent again, and the rent is what that sells for. */
  function RentAfter(p: Pool, loan: Loan): int
    requires p.unlent + loan.staked != 0
  {
    p.rent - Price(p.unlent, p.rent, loan.staked)
  }

  /** What a loan costs if it is taken again on the same payment. */
  function NextPrice(p: Pool, loan: Loan): int
    requires p.unlent + loan.staked != 0 && RentAfter(p, loan) + loan.payment != 0
  {
    Price(RentAfter(p, loan), p.unlent + loan.staked, loan.payment)
  }

  lemma RemovedPool(p: Pool, loan: Loan)
    requires Pools.Sound(p) && 0 < loan.staked <= p.lent
    ensures p.unlent + loan.staked != 0 && 0 <= RentAfter(p, loan)
    ensures Pools.RemoveLoan(p, loan.staked) == Success(p.(rent := RentAfter(p, loan), unlent := p.unlent + loan.staked,
                                                           lent := p.lent - loan.staked))
  {
    hide Price;
    BancorIsPrice(p.unlent, p.rent, loan.staked);
    Pools.RemoveLoanKeeps(p, loan.staked);
  }

  // One expired loan

  lemma {:induction false} InsertAdds(loans: seq<Loan>, loan: Loan)
    ensures multiset(Insert(loans, loan)) == multiset(loans) + multiset{loan}
  {
    if loans == [] || Before(loan, loans[0]) {
      assert multiset([loan] + loans) == multiset{loan} + multiset(loans);
    } else {
      InsertAdds(loans[1..], loan);
      assert loans == [loans[0]] + loans[1..];
      assert multiset(loans) == multiset{loans[0]} + multiset(loans[1..]);
    }
  }

  lemma HeadOut(before: seq<Loan>)
    requires before != []
    ensures multiset(before[1..]) == multiset(before) - multiset{before[0]}
  {
    assert before == [before[0]] + before[1..];
    assert multiset(before) == multiset{before[0]} + multiset(before[1..]);
  }

  /** Resource totals change for one receiver, by what one loan changes. */
  ghost predicate WeightMoves(before: map<Name, Resources>, after: map<Name, Resources>, kind: LoanKind, receiver: Name, delta: int) {
    forall k, a :: Weight(after, k, a) == Weight(before, k, a) + if k == kind && a == receiver then delta else 0
  }

  lemma StakeToMoves(s: State, kind: LoanKind, receiver: Name, delta: int)
    requires ResourcesOk(s.resources) && StakeTo(s, kind, receiver, delta).Success?
    ensures WeightMoves(s.resources, StakeTo(s, kind, receiver, delta).value.resources, kind, receiver, delta)
  {
    hide Staking.UpdateResources, ResourcesOk, Weight;
    UpdateResourcesWeights(s.resources, receiver, if kind == Net then delta else 0, if kind == Cpu then delta else 0);
  }

  /** Whether a loan whose term is over goes on: it covers its payment, the price is favourable, and no
      sell order waits. */
  predicate GoesOn(s: State, loan: Loan)
    requires s.pool.Some? && s.pool.value.unlent + loan.staked != 0 && RentAfter(s.pool.value, loan) + loan.payment != 0
  {
    loan.payment <= loan.balance && loan.payment < NextPrice(s.pool.value, loan) && s.queue == []
  }

  /** The terms of a loan that goes on: the same loan for another 30 days, for what the payment buys now. */
  function Renewed(p: Pool, loan: Loan): Loan
    requires p.unlent + loan.staked != 0 && RentAfter(p, loan) + loan.payment != 0
  {
    Loan(loan.from, loan.receiver, loan.payment, loan.balance - loan.payment, NextPrice(p, loan), loan.num,
         loan.expiration + 30 * 86_400 * 1_000_000)
  }

  function Other(kind: LoanKind): LoanKind {
    if kind == Cpu then Net else Cpu
  }

  /** A loan that goes on: one loan is exchanged for another of its number, all others stay. */
  ghost predicate LoanRenewed(s: State, t: State, kind: LoanKind, loan: Loan)
    requires s.pool.Some? && s.pool.value.unlent + loan.staked != 0 && RentAfter(s.pool.value, loan) + loan.payment != 0
  {
    var p := s.pool.value;
    var rented := NextPrice(p, loan);
    && multiset(LoansOf(t, kind)) == multiset(LoansOf(s, kind)) - multiset{loan} + multiset{Renewed(p, loan)}
    && LoansOf(t, Other(kind)) == LoansOf(s, Other(kind))
    && t.funds == s.funds
    && WeightMoves(s.resources, t.resources, kind, loan.receiver, rented - loan.staked)
    && t.pool == Some(p.(rent := RentAfter(p, loan) + loan.payment, unlent := p.unlent + loan.staked - rented + loan.payment,
                         lent := p.lent - loan.staked + rented, lendable := p.lendable + loan.payment))
  }

  /** A loan that does not: it is gone, its creator has back what it had set aside, its receiver is
      without its stake. */
  ghost predicate LoanClosed(s: State, t: State, kind: LoanKind, loan: Loan)
    requires s.pool.Some? && s.pool.value.unlent + loan.staked != 0
  {
    var p := s.pool.value;
    && multiset(LoansOf(t, kind)) == multiset(LoansOf(s, kind)) - multiset{loan}
    && LoansOf(t, Other(kind)) == LoansOf(s, Other(kind))
    && (forall n :: At(t.funds, n) == At(s.funds, n) + if n == loan.from then loan.balance else 0)
    && WeightMoves(s.resources, t.resources, kind, loan.receiver, -loan.staked)
    && t.pool == Some(p.(rent := RentAfter(p, loan), unlent := p.unlent + loan.staked, lent := p.lent - loan.staked))
  }

  lemma HeadTerms(s: State, now: int, kind: LoanKind)
    requires MaintInv(s, now) && s.pool.Some? && LoansOf(s, kind) != []
    ensures var loan := LoansOf(s, kind)[0];
      var p := s.pool.value;
      && 0 < loan.payment < loan.staked <= p.lent && 0 <= loan.balance && 0 < p.rex
      && p.unlent + loan.staked != 0 && 0 <= RentAfter(p, loan) && RentAfter(p, loan) + loan.payment != 0
      && Pools.Sound(p)
      && Pools.RemoveLoan(p, loan.staked) == Success(p.(rent := RentAfter(p, loan), unlent := p.unlent + loan.staked,
                                                        lent := p.lent - loan.staked))
      && multiset(LoansOf(s, kind)[1..]) == multiset(LoansOf(s, kind)) - multiset{loan}
  {
    hide MaintInv, Price, Pools.RemoveLoan, Staked, Escrow, StakedTo, Weight, LoansOk, RentAfter, Pools.Sound;
    HeadLoanParts(s, now, kind);
    PoolIsSound(s, now);
    var loans := LoansOf(s, kind);
    RemovedPool(s.pool.value, loans[0]);
    HeadOut(loans);
  }

  lemma RefundReaches(funds: map<Name, int>, loan: Loan)
    requires 0 <= loan.balance
    ensures forall n :: At(Refunded(funds, loan), n) == At(funds, n) + if n == loan.from then loan.balance else 0
  {
  }

  lemma ClosesAsStated(s: State, kind: LoanKind, closed: Pool)
    requires ResourcesOk(s.resources) && s.pool.Some? && LoansOf(s, kind) != [] && CloseLoan(s, kind, closed).Success?
    requires var loan := LoansOf(s, kind)[0];
      && 0 <= loan.balance && s.pool.value.unlent + loan.staked != 0
      && closed == s.pool.value.(rent := RentAfter(s.pool.value, loan), unlent := s.pool.value.unlent + loan.staked,
                                 lent := s.pool.value.lent - loan.staked)
      && multiset(LoansOf(s, kind)[1..]) == multiset(LoansOf(s, kind)) - multiset{loan}
    ensures LoanClosed(s, CloseLoan(s, kind, closed).value, kind, LoansOf(s, kind)[0])
  {
    hide ResourcesOk, StakeTo, RentAfter, Weight, Refunded, CloseLoan;
    var loan := LoansOf(s, kind)[0];
    CloseLoanSteps(s, kind, closed);
    RefundReaches(s.funds, loan);
    var booked := WithLoans(s.(funds := Refunded(s.funds, loan), pool := Some(closed)), kind, LoansOf(s, kind)[1..]);
    StakeToMoves(booked, kind, loan.receiver, -loan.staked);
  }

  lemma RelentPool(p: Pool, closed: Pool, loan: Loan, rented: int)
    requires p.unlent + loan.staked != 0 && p.lendable == p.lent + p.unlent
    requires closed == p.(rent := RentAfter(p, loan), unlent := p.unlent + loan.staked, lent := p.lent - loan.staked)
    ensures Pools.AddLoan(closed, loan.payment, rented, false)
         == p.(rent := RentAfter(p, loan) + loan.payment, unlent := p.unlent + loan.staked - rented + loan.payment,
               lent := p.lent - loan.staked + rented, lendable := p.lendable + loan.payment)
  {
    hide RentAfter;
  }

  lemma WithLoansParts(s: State, kind: LoanKind, loans: seq<Loan>)
    ensures var t := WithLoans(s, kind, loans);
      && LoansOf(t, kind) == loans && LoansOf(t, Other(kind)) == LoansOf(s, Other(kind))
      && t.funds == s.funds && t.pool == s.pool && t.resources == s.resources
  {
  }

  lemma SameTables(s: State, resources: map<Name, Resources>, kind: LoanKind)
    ensures LoansOf(s.(resources := resources), kind) == LoansOf(s, kind)
  {
  }

  lemma SamePoolTables(s: State, t: State, kind: LoanKind)
    requires t == s.(pool := t.pool)
    ensures LoansOf(t, kind) == LoansOf(s, kind) && LoansOf(t, Other(kind)) == LoansOf(s, Other(kind))
  {
  }

  lemma RenewSteps(s: State, kind: LoanKind, closed: Pool, rented: int)
    requires LoansOf(s, kind) != []
    ensures var loan := LoansOf(s, kind)[0];
      var renewed := Loan(loan.from, loan.receiver, loan.payment, loan.balance - loan.payment, rented, loan.num,
                          loan.expiration + LOAN_TERM);
      RenewLoan(s, kind, closed, rented)
        == StakeTo(WithLoans(s.(pool := Some(Pools.AddLoan(closed, loan.payment, rented, false))), kind,
                             Insert(LoansOf(s, kind)[1..], renewed)),
                   kind, loan.receiver, rented - loan.staked)
  {
    hide StakeTo, Insert, Pools.AddLoan;
  }

  lemma HeadReplaced(loans: seq<Loan>, renewed: Loan)
    requires loans != []
    ensures multiset(Insert(loans[1..], renewed)) == multiset(loans) - multiset{loans[0]} + multiset{renewed}
  {
    InsertAdds(loans[1..], renewed);
    HeadOut(loans);
  }

  lemma RenewsAsStated(s: State, kind: LoanKind, closed: Pool, rented: int)
    requires ResourcesOk(s.resources) && s.pool.Some? && LoansOf(s, kind) != [] && RenewLoan(s, kind, closed, rented).Success?
    requires var loan := LoansOf(s, kind)[0];
      && s.pool.value.unlent + loan.staked != 0 && RentAfter(s.pool.value, loan) + loan.payment != 0
      && s.pool.value.lendable == s.pool.value.lent + s.pool.value.unlent
      && closed == s.pool.value.(rent := RentAfter(s.pool.value, loan), unlent := s.pool.value.unlent + loan.staked,
                                 lent := s.pool.value.lent - loan.staked)
      && rented == NextPrice(s.pool.value, loan)
    ensures LoanRenewed(s, RenewLoan(s, kind, closed, rented).value, kind, LoansOf(s, kind)[0])
  {
    hide ResourcesOk, StakeTo, RentAfter, NextPrice, Insert, WeightMoves, Pools.AddLoan, RenewLoan, LoansOf, WithLoans, Other;
    var loan := LoansOf(s, kind)[0];
    var renewed := Renewed(s.pool.value, loan);
    RenewSteps(s, kind, closed, rented);
    HeadReplaced(LoansOf(s, kind), renewed);
    RelentPool(s.pool.value, closed, loan, rented);
    var relent := s.(pool := Some(Pools.AddLoan(closed, loan.payment, rented, false)));
    SamePoolTables(s, relent, kind);
    WithLoansParts(relent, kind, Insert(LoansOf(s, kind)[1..], renewed));
    var booked := WithLoans(relent, kind, Insert(LoansOf(s, kind)[1..], renewed));
    StakeToMoves(booked, kind, loan.receiver, rented - loan.staked);
    var t := RenewLoan(s, kind, closed, rented).value;
    SameTables(booked, t.resources, kind);
    SameTables(booked, t.resources, Other(kind));
  }

  /** An expired loan that covers its payment goes on for exactly another 30 days at the price of the
      moment, unless that is unfavourable or sell orders wait; then it is closed. */
  lemma ExpiredLoanSettles(s: State, now: int, kind: LoanKind)
    requires MaintInv(s, now) && s.pool.Some? && LoansOf(s, kind) != [] && LoansOf(s, kind)[0].expiration <= now
    ensures ExpireLoan(s, kind).Success?
    ensures var loan := LoansOf(s, kind)[0];
      && s.pool.value.unlent + loan.staked != 0 && RentAfter(s.pool.value, loan) + loan.payment != 0
      && (if GoesOn(s, loan) then LoanRenewed(s, ExpireLoan(s, kind).value, kind, loan)
          else LoanClosed(s, ExpireLoan(s, kind).value, kind, loan))
  {
    hide MaintInv, CloseLoan, RenewLoan, Pools.RemoveLoan, RentAfter, Pools.BancorOutput, LoanRenewed, LoanClosed, Untouched,
         RexSurplus, Pools.PriceKept, Pools.Sound, Price;
    ExpireLoanKeeps(s, now, kind);
    HeadTerms(s, now, kind);
    NumbersBelow(s, now);
    var loan := LoansOf(s, kind)[0];
    var closed := Pools.RemoveLoan(s.pool.value, loan.staked).value;
    assert 0 <= closed.unlent by { SoundParts(s.pool.value); }
    assert s.pool.value.lendable == s.pool.value.lent + s.pool.value.unlent by { SoundParts(s.pool.value); }
    BancorIsPrice(closed.rent, closed.unlent, loan.payment);
    if GoesOn(s, loan) {
      RenewsAsStated(s, kind, closed, NextPrice(s.pool.value, loan));
    } else {
      ClosesAsStated(s, kind, closed);
    }
  }

  lemma SoundParts(p: Pool)
    requires Pools.Sound(p)
    ensures p.lendable == p.lent + p.unlent && 0 <= p.unlent
  {
  }

  /** No two loans of a table have the same number. */
  lemma OneOfItsNumber(s: State, now: int, kind: LoanKind, a: Loan, b: Loan)
    requires MaintInv(s, now) && s.pool.Some? && a in LoansOf(s, kind) && b in LoansOf(s, kind) && a.num == b.num
    ensures a == b
  {
    var loans := LoansOf(s, kind);
    var i :| 0 <= i < |loans| && loans[i] == a;
    var j :| 0 <= j < |loans| && loans[j] == b;
  }

  /** The renewed loan is in the table, and no other has its number. */
  lemma RenewedStands(s: State, now: int, kind: LoanKind)
    requires MaintInv(s, now) && s.pool.Some? && LoansOf(s, kind) != [] && LoansOf(s, kind)[0].expiration <= now
    requires s.pool.value.unlent + LoansOf(s, kind)[0].staked != 0
    requires RentAfter(s.pool.value, LoansOf(s, kind)[0]) + LoansOf(s, kind)[0].payment != 0
    requires GoesOn(s, LoansOf(s, kind)[0])
    ensures ExpireLoan(s, kind).Success?
    ensures var renewed := Renewed(s.pool.value, LoansOf(s, kind)[0]);
      forall l :: l in LoansOf(ExpireLoan(s, kind).value, kind) && l.num == renewed.num <==> l == renewed
  {
    hide MaintInv, ExpireLoan, RentAfter, NextPrice, GoesOn, Untouched, RexSurplus, Pools.PriceKept;
    ExpiredLoanSettles(s, now, kind);
    ExpireLoanKeeps(s, now, kind);
    var t := ExpireLoan(s, kind).value;
    var renewed := Renewed(s.pool.value, LoansOf(s, kind)[0]);
    assert renewed in multiset(LoansOf(t, kind));
    forall l | l in LoansOf(t, kind) && l.num == renewed.num ensures l == renewed {
      OneOfItsNumber(t, now, kind, l, renewed);
    }
  }

  // A whole maintenance

  /** The same loan some terms later, each paid for out of what it had set aside. */
  predicate Prolonged(l: Loan, m: Loan, terms: nat) {
    && m == l.(staked := m.staked, balance := l.balance - terms * l.payment, expiration := l.expiration + terms * LOAN_TERM)
    && (terms == 0 ==> m == l)
  }

  /** A loan of the table is one of before, or one of before that was due and was prolonged. */
  ghost predicate Descends(before: seq<Loan>, m: Loan, now: int) {
    exists i, terms: nat :: 0 <= i < |before| && Prolonged(before[i], m, terms) && (0 < terms ==> before[i].expiration <= now)
  }

  /** What a maintenance may make of a table: every loan left descends from one of before, and whose term
      was not over is as it was. */
  ghost predicate Served(before: seq<Loan>, after: seq<Loan>, now: int) {
    && (forall m :: m in after ==> Descends(before, m, now))
    && (forall l :: l in before && now < l.expiration ==> l in after)
  }

  lemma ServedSame(loans: seq<Loan>, now: int)
    ensures Served(loans, loans, now)
  {
    forall m | m in loans ensures Descends(loans, m, now) {
      var i :| 0 <= i < |loans| && loans[i] == m;
      assert Prolonged(loans[i], m, 0);
    }
  }

  lemma ProlongedAgain(l: Loan, m: Loan, n: Loan, j: nat, k: nat)
    requires Prolonged(l, m, j) && Prolonged(m, n, k)
    ensures Prolonged(l, n, j + k)
  {
    assert (j + k) * l.payment == j * l.payment + k * l.payment;
    assert (j + k) * LOAN_TERM == j * LOAN_TERM + k * LOAN_TERM;
  }

  lemma ServedThrough(a: seq<Loan>, b: seq<Loan>, c: seq<Loan>, now: int)
    requires Served(a, b, now) && Served(b, c, now)
    ensures Served(a, c, now)
  {
    hide Prolonged;
    forall n | n in c ensures Descends(a, n, now) {
      var j, k: nat :| 0 <= j < |b| && Prolonged(b[j], n, k) && (0 < k ==> b[j].expiration <= now);
      assert b[j] in b;
      var i, h: nat :| 0 <= i < |a| && Prolonged(a[i], b[j], h) && (0 < h ==> a[i].expiration <= now);
      ProlongedAgain(a[i], b[j], n, h, k);
      if h == 0 && 0 < k { ProlongedNot(a[i], b[j]); }
    }
  }

  lemma ProlongedNot(l: Loan, m: Loan)
    requires Prolonged(l, m, 0)
    ensures m == l
  {
  }

  lemma ReplacedIsServed(before: seq<Loan>, after: seq<Loan>, loan: Loan, renewed: Loan, now: int)
    requires loan in before && loan.expiration <= now && Prolonged(loan, renewed, 1)
    requires multiset(after) == multiset(before) - multiset{loan} + multiset{renewed}
    ensures Served(before, after, now)
  {
    hide Prolonged;
    forall m | m in after ensures Descends(before, m, now) {
      assert m in multiset(after);
      if m == renewed {
        var i :| 0 <= i < |before| && before[i] == loan;
        assert Prolonged(before[i], m, 1);
      } else {
        assert m in multiset(before);
        StillThere(before, m, now);
      }
    }
    forall l | l in before && now < l.expiration ensures l in after {
      assert l in multiset(before) && l != loan;
      assert l in multiset(after);
    }
  }

  lemma StillThere(before: seq<Loan>, m: Loan, now: int)
    requires m in before
    ensures Descends(before, m, now)
  {
    var i :| 0 <= i < |before| && before[i] == m;
    assert Prolonged(before[i], m, 0);
  }

  lemma RemovedIsServed(before: seq<Loan>, after: seq<Loan>, loan: Loan, now: int)
    requires loan in before && loan.expiration <= now && multiset(after) == multiset(before) - multiset{loan}
    ensures Served(before, after, now)
  {
    hide Descends;
    forall m | m in after ensures Descends(before, m, now) {
      assert m in multiset(after);
      assert m in multiset(before);
      StillThere(before, m, now);
    }
    forall l | l in before && now < l.expiration ensures l in after {
      assert l in multiset(before) && l != loan;
      assert l in multiset(after);
    }
  }

  lemma ExpiredIsServed(s: State, now: int, kind: LoanKind)
    requires MaintInv(s, now) && s.pool.Some? && LoansOf(s, kind) != [] && LoansOf(s, kind)[0].expiration <= now
    ensures ExpireLoan(s, kind).Success?
    ensures Served(LoansOf(s, kind), LoansOf(ExpireLoan(s, kind).value, kind), now)
    ensures LoansOf(ExpireLoan(s, kind).value, Other(kind)) == LoansOf(s, Other(kind))
  {
    hide MaintInv, ExpireLoan, RentAfter, NextPrice, GoesOn, Served, WeightMoves, LoansOf;
    ExpiredLoanSettles(s, now, kind);
    var before, after := LoansOf(s, kind), LoansOf(ExpireLoan(s, kind).value, kind);
    if GoesOn(s, before[0]) {
      ReplacedIsServed(before, after, before[0], Renewed(s.pool.value, before[0]), now);
    } else {
      RemovedIsServed(before, after, before[0], now);
    }
  }

  lemma {:induction false} ExpiredAreServed(s: State, now: int, kind: LoanKind, max: nat)
    requires MaintInv(s, now) && s.pool.Some?
    ensures ExpireLoans(s, now, kind, max).Success?
    ensures Served(LoansOf(s, kind), LoansOf(ExpireLoans(s, now, kind, max).value, kind), now)
    ensures LoansOf(ExpireLoans(s, now, kind, max).value, Other(kind)) == LoansOf(s, Other(kind))
    decreases max
  {
    hide MaintInv, ExpireLoan, Served, Untouched, RexSurplus, Pools.PriceKept;
    if max == 0 || LoansOf(s, kind) == [] || now < LoansOf(s, kind)[0].expiration {
      ServedSame(LoansOf(s, kind), now);
    } else {
      ExpireLoanKeeps(s, now, kind);
      ExpiredIsServed(s, now, kind);
      var next := ExpireLoan(s, kind).value;
      ExpiredAreServed(next, now, kind, max - 1);
      ServedThrough(LoansOf(s, kind), LoansOf(next, kind), LoansOf(ExpireLoans(next, now, kind, max - 1).value, kind), now);
    }
  }

  /** Maintenance prolongs loans by whole terms of 30 days, each paid for, touches no loan before its
      time, and takes out no loan. */
  lemma LoansAreServed(s: State, now: int, max: nat)
    requires MaintInv(s, now) && s.pool.Some?
    ensures RunRex(s, now, max).Success?
    ensures forall kind :: Served(LoansOf(s, kind), LoansOf(RunRex(s, now, max).value, kind), now)
  {
    hide MaintInv, SweepNamebids, ExpireLoans, FillOrders, Served, Untouched, RexSurplus, Pools.PriceKept;
    SweepNamebidsKeeps(s, now);
    var swept := SweepNamebids(s).value;
    ExpireLoansKeeps(swept, now, Cpu, max);
    ExpiredAreServed(swept, now, Cpu, max);
    var cpu := ExpireLoans(swept, now, Cpu, max).value;
    ExpireLoansKeeps(cpu, now, Net, max);
    ExpiredAreServed(cpu, now, Net, max);
    var net := ExpireLoans(cpu, now, Net, max).value;
    FillOrdersKeeps(net, now, 0, max);
  }

  // All that is due

  function DueCount(loans: seq<Loan>, now: int): nat {
    if loans == [] then 0 else (if loans[0].expiration <= now then 1 else 0) + DueCount(loans[1..], now)
  }

  lemma {:induction false} DueWithout(loans: seq<Loan>, k: nat, now: int)
    requires k < |loans|
    ensures DueCount(loans, now) == DueCount(loans[..k] + loans[k + 1..], now) + if loans[k].expiration <= now then 1 else 0
  {
    var rest := loans[..k] + loans[k + 1..];
    if k == 0 {
      assert rest == loans[1..];
    } else {
      DueWithout(loans[1..], k - 1, now);
      assert rest[1..] == loans[1..][..k - 1] + loans[1..][k..];
    }
  }

  lemma CutOut(loans: seq<Loan>, k: nat)
    requires k < |loans|
    ensures multiset(loans[..k] + loans[k + 1..]) == multiset(loans) - multiset{loans[k]}
  {
    assert loans == loans[..k] + ([loans[k]] + loans[k + 1..]);
    assert multiset(loans) == multiset(loans[..k]) + multiset([loans[k]] + loans[k + 1..]);
    assert multiset([loans[k]] + loans[k + 1..]) == multiset{loans[k]} + multiset(loans[k + 1..]);
  }

  /** The number of due loans does not depend on the order of the table. */
  lemma {:induction false} DueOfSame(a: seq<Loan>, b: seq<Loan>, now: int)
    requires multiset(a) == multiset(b)
    ensures DueCount(a, now) == DueCount(b, now)
    decreases |a|
  {
    if a == [] {
      assert |multiset(b)| == |b|;
    } else {
      assert a[0] in multiset(b);
      var k :| 0 <= k < |b| && b[k] == a[0];
      HeadOut(a);
      CutOut(b, k);
      DueOfSame(a[1..], b[..k] + b[k + 1..], now);
      DueWithout(b, k, now);
    }
  }

  /** No loan is late by a whole term. */
  ghost predicate Recent(loans: seq<Loan>, now: int) {
    forall l :: l in loans ==> now < l.expiration + LOAN_TERM
  }

  lemma ReplacedDue(before: seq<Loan>, after: seq<Loan>, renewed: Loan, now: int)
    requires before != [] && before[0].expiration <= now < renewed.expiration && Recent(before, now)
    requires multiset(after) == multiset(before) - multiset{before[0]} + multiset{renewed}
    ensures Recent(after, now) && DueCount(after, now) == DueCount(before, now) - 1
  {
    HeadOut(before);
    var same := [renewed] + before[1..];
    assert multiset(same) == multiset{renewed} + multiset(before[1..]);
    assert same[1..] == before[1..];
    DueOfSame(after, same, now);
    StaysRecent(same, after, now);
  }

  lemma RemovedDue(before: seq<Loan>, after: seq<Loan>, now: int)
    requires before != [] && before[0].expiration <= now && Recent(before, now)
    requires multiset(after) == multiset(before) - multiset{before[0]}
    ensures Recent(after, now) && DueCount(after, now) == DueCount(before, now) - 1
  {
    HeadOut(before);
    DueOfSame(after, before[1..], now);
    StaysRecent(before[1..], after, now);
  }

  lemma OneLessDue(s: State, now: int, kind: LoanKind)
    requires MaintInv(s, now) && s.pool.Some? && LoansOf(s, kind) != [] && LoansOf(s, kind)[0].expiration <= now
    requires Recent(LoansOf(s, kind), now)
    ensures ExpireLoan(s, kind).Success?
    ensures var after := LoansOf(ExpireLoan(s, kind).value, kind);
      Recent(after, now) && DueCount(after, now) == DueCount(LoansOf(s, kind), now) - 1
  {
    hide MaintInv, ExpireLoan, RentAfter, NextPrice, GoesOn, WeightMoves, LoansOf, DueCount;
    ExpiredLoanSettles(s, now, kind);
    var before, after := LoansOf(s, kind), LoansOf(ExpireLoan(s, kind).value, kind);
    assert before[0] in before;
    if GoesOn(s, before[0]) {
      ReplacedDue(before, after, Renewed(s.pool.value, before[0]), now);
    } else {
      RemovedDue(before, after, now);
    }
  }

  lemma StaysRecent(a: seq<Loan>, b: seq<Loan>, now: int)
    requires Recent(a, now) && multiset(a) == multiset(b)
    ensures Recent(b, now)
  {
    forall l | l in b ensures now < l.expiration + LOAN_TERM {
      assert l in multiset(b);
      assert l in multiset(a);
    }
  }

  lemma {:induction false} NoneDue(loans: seq<Loan>, now: int)
    requires forall i :: 0 <= i < |loans| ==> now < loans[i].expiration
    ensures DueCount(loans, now) == 0
  {
    if loans != [] { NoneDue(loans[1..], now); }
  }

  lemma {:induction false} SomeDue(loans: seq<Loan>, now: int)
    requires DueCount(loans, now) == 0
    ensures forall l :: l in loans ==> now < l.expiration
  {
    if loans != [] {
      SomeDue(loans[1..], now);
      assert loans == [loans[0]] + loans[1..];
    }
  }

  /** The table is sorted: if its first loan is not due, none is. */
  lemma FirstIsFirst(s: State, now: int, kind: LoanKind)
    requires MaintInv(s, now) && s.pool.Some?
    requires LoansOf(s, kind) == [] || now < LoansOf(s, kind)[0].expiration
    ensures DueCount(LoansOf(s, kind), now) == 0
  {
    NoneDue(LoansOf(s, kind), now);
  }

  lemma {:induction false} ServesAllDue(s: State, now: int, kind: LoanKind, max: nat)
    requires MaintInv(s, now) && s.pool.Some? && Recent(LoansOf(s, kind), now)
    ensures ExpireLoans(s, now, kind, max).Success?
    ensures var after := LoansOf(ExpireLoans(s, now, kind, max).value, kind);
      DueCount(after, now) == Max(0, DueCount(LoansOf(s, kind), now) - max)
    decreases max
  {
    hide MaintInv, ExpireLoan, Recent, DueCount, Untouched, RexSurplus, Pools.PriceKept;
    if LoansOf(s, kind) == [] || now < LoansOf(s, kind)[0].expiration {
      FirstIsFirst(s, now, kind);
    } else if max != 0 {
      ExpireLoanKeeps(s, now, kind);
      OneLessDue(s, now, kind);
      ServesAllDue(ExpireLoan(s, kind).value, now, kind, max - 1);
    }
  }

  /** Maintenance serves as many due loans of each kind as it may: as long as no loan is late by a whole
      term, exactly that many fewer are due afterwards, and if it may serve all, none is. */
  lemma DueAreServed(s: State, now: int, max: nat)
    requires MaintInv(s, now) && s.pool.Some? && Recent(s.cpuLoans, now) && Recent(s.netLoans, now)
    ensures RunRex(s, now, max).Success?
    ensures var t := RunRex(s, now, max).value;
      && (forall kind :: DueCount(LoansOf(t, kind), now) == Max(0, DueCount(LoansOf(s, kind), now) - max))
      && (forall kind :: DueCount(LoansOf(s, kind), now) <= max ==> forall l :: l in LoansOf(t, kind) ==> now < l.expiration)
  {
    hide MaintInv, SweepNamebids, ExpireLoans, FillOrders, DueCount, Recent, Untouched, RexSurplus, Pools.PriceKept, Served;
    SweepNamebidsKeeps(s, now);
    var swept := SweepNamebids(s).value;
    ExpireLoansKeeps(swept, now, Cpu, max);
    ExpiredAreServed(swept, now, Cpu, max);
    ServesAllDue(swept, now, Cpu, max);
    var cpu := ExpireLoans(swept, now, Cpu, max).value;
    ExpireLoansKeeps(cpu, now, Net, max);
    ExpiredAreServed(cpu, now, Net, max);
    ServesAllDue(cpu, now, Net, max);
    var net := ExpireLoans(cpu, now, Net, max).value;
    FillOrdersKeeps(net, now, 0, max);
    var t := RunRex(s, now, max).value;
    forall kind | DueCount(LoansOf(s, kind), now) <= max ensures forall l :: l in LoansOf(t, kind) ==> now < l.expiration {
      SomeDue(LoansOf(t, kind), now);
    }
  }

  // New loans

  /** The loan that a renter is promised at the pool's prices. */
  function Promised(p: Pool, now: int, from: Name, receiver: Name, payment: int, fund: int): Loan
    requires p.rent + payment != 0
  {
    Loan(from, receiver, payment, fund, Price(p.rent, p.unlent, payment), p.loanNum + 1, now + 30 * 86_400 * 1_000_000)
  }

  lemma RentParts(s: State, t: State, now: int, kind: LoanKind, from: Name, receiver: Name, payment: int, fund: int)
    requires Rent(s, now, kind, from, receiver, payment, fund) == Success(t)
    ensures RunRex(s, now, MAINTENANCE).Success? && 0 < payment && 0 <= fund
    ensures var m := RunRex(s, now, MAINTENANCE).value;
      && m.pool.Some? && 0 < m.pool.value.rex && m.queue == []
      && Pools.BancorOutput(m.pool.value.rent, m.pool.value.unlent, payment).Success?
      && var rented := Pools.BancorOutput(m.pool.value.rent, m.pool.value.unlent, payment).value;
      var loan := Loan(from, receiver, payment, fund, rented, m.pool.value.loanNum + 1, now + LOAN_TERM);
      && payment < rented
      && TransferFromFund(m, from, payment + fund).Success?
      && var funds := TransferFromFund(m, from, payment + fund).value.funds;
      var booked := WithLoans(m.(funds := funds, pool := Some(Pools.AddLoan(m.pool.value, payment, rented, true))), kind,
                              Insert(LoansOf(m, kind), loan));
      StakeTo(booked, kind, receiver, rented) == Success(t)
  {
    hide RunRex, StakeTo, Pools.BancorOutput, Insert;
  }

  /** Whoever rents has exactly one new loan, with a number no loan had, on the terms of the pool; the
      payment and what is set aside have left its fund, and nobody else's loans or funds have changed. */
  lemma LoanIsTaken(s: State, t: State, now: int, kind: LoanKind, from: Name, receiver: Name, payment: int, fund: int)
    requires Exchange.Whole(s, now) && Rent(s, now, kind, from, receiver, payment, fund) == Success(t)
    ensures RunRex(s, now, MAINTENANCE).Success?
    ensures var m := RunRex(s, now, MAINTENANCE).value;
      && m.pool.Some? && m.pool.value.rent + payment != 0
      && var loan := Promised(m.pool.value, now, from, receiver, payment, fund);
      && t.pool.Some? && t.pool.value.loanNum == loan.num
      && (forall l :: l in m.cpuLoans || l in m.netLoans ==> l.num != loan.num)
      && multiset(LoansOf(t, kind)) == multiset(LoansOf(m, kind)) + multiset{loan}
      && LoansOf(t, Other(kind)) == LoansOf(m, Other(kind))
      && (forall n :: At(t.funds, n) == At(m.funds, n) - if n == from then payment + fund else 0)
      && WeightMoves(m.resources, t.resources, kind, receiver, loan.staked)
      && payment < loan.staked
  {
    hide MaintInv, VotingProofs.VoteInv, RunRex, Rent, StakeTo, Pools.BancorOutput, Insert, Price, Untouched, RexSurplus, Pools.PriceKept,
         Pools.Sound;
    RentParts(s, t, now, kind, from, receiver, payment, fund);
    RunRexKeeps(s, now, MAINTENANCE);
    var m := RunRex(s, now, MAINTENANCE).value;
    NumbersBelow(m, now);
    BancorIsPrice(m.pool.value.rent, m.pool.value.unlent, payment);
    var loan := Promised(m.pool.value, now, from, receiver, payment, fund);
    InsertAdds(LoansOf(m, kind), loan);
    var funds := TransferFromFund(m, from, payment + fund).value.funds;
    var booked := WithLoans(m.(funds := funds, pool := Some(Pools.AddLoan(m.pool.value, payment, loan.staked, true))), kind,
                            Insert(LoansOf(m, kind), loan));
    StakeToMoves(booked, kind, receiver, loan.staked);
  }

  lemma NumbersBelow(s: State, now: int)
    requires MaintInv(s, now) && s.pool.Some?
    ensures 0 <= s.pool.value.rent && 0 <= s.pool.value.unlent
    ensures ResourcesOk(s.resources)
    ensures forall l :: l in s.cpuLoans || l in s.netLoans ==> l.num <= s.pool.value.loanNum
  {
    forall l | l in s.cpuLoans || l in s.netLoans ensures l.num <= s.pool.value.loanNum {
      if l in s.cpuLoans {
        var i :| 0 <= i < |s.cpuLoans| && s.cpuLoans[i] == l;
      } else {
        var i :| 0 <= i < |s.netLoans| && s.netLoans[i] == l;
      }
    }
  }

  // Funding a loan

  /** A running loan of a creator. */
  predicate Runs(l: Loan, now: int, from: Name, num: nat) {
    l.num == num && l.from == from && now < l.expiration
  }

  /** The loan of a number is found exactly when the creator has one that runs. */
  lemma FindsRunning(s: State, now: int, kind: LoanKind, from: Name, num: nat)
    requires MaintInv(s, now)
    ensures FindLoan(s, now, kind, from, num).Success? <==> exists l :: l in LoansOf(s, kind) && Runs(l, now, from, num)
    ensures FindLoan(s, now, kind, from, num).Success? ==>
      var at := FindLoan(s, now, kind, from, num).value;
      && Runs(LoansOf(s, kind)[at], now, from, num)
      && forall i :: 0 <= i < |LoansOf(s, kind)| && LoansOf(s, kind)[i].num == num ==> i == at
  {
    hide BalancesOk, OrdersOk, InTimeOrder, FundsOk, StakeInv, Find, Token.NoneOverdrawn;
    var loans := LoansOf(s, kind);
    FindFinds(loans, num);
    if l :| l in loans && Runs(l, now, from, num) {
      var i :| 0 <= i < |loans| && loans[i] == l;
      var at := Find(loans, num).value;
      assert s.pool.Some?;
      OneOfItsNumber(s, now, kind, loans[at], l);
    }
    if FindLoan(s, now, kind, from, num).Success? {
      var at := FindLoan(s, now, kind, from, num).value;
      assert loans[at] in loans;
    }
  }

  /** A table in which one loan has `added` more set aside. */
  ghost predicate OneFunded(before: seq<Loan>, after: seq<Loan>, num: nat, added: int) {
    && |after| == |before|
    && forall i :: 0 <= i < |before| ==>
         after[i] == before[i].(balance := before[i].balance + if before[i].num == num then added else 0)
  }

  lemma FundedAt(loans: seq<Loan>, at: nat, num: nat, added: int)
    requires at < |loans| && loans[at].num == num
    requires forall i :: 0 <= i < |loans| && loans[i].num == num ==> i == at
    ensures OneFunded(loans, loans[at := loans[at].(balance := loans[at].balance + added)], num, added)
  {
  }

  /** Funding a loan takes the payment out of the creator's fund and sets it aside in that loan alone; it
      is refused exactly when the fund does not cover it or the creator has no such loan running. */
  lemma LoanIsFunded(s: State, now: int, kind: LoanKind, from: Name, num: nat, payment: int)
    requires MaintInv(s, now)
    ensures FundLoan(s, now, kind, from, num, payment).Success? <==>
      0 < payment && from in s.funds && payment <= s.funds[from] && exists l :: l in LoansOf(s, kind) && Runs(l, now, from, num)
    ensures FundLoan(s, now, kind, from, num, payment).Success? ==>
      var t := FundLoan(s, now, kind, from, num, payment).value;
      && OneFunded(LoansOf(s, kind), LoansOf(t, kind), num, payment) && LoansOf(t, Other(kind)) == LoansOf(s, Other(kind))
      && forall n :: At(t.funds, n) == At(s.funds, n) - if n == from then payment else 0
  {
    hide MaintInv, FindLoan, OneFunded;
    FindsRunning(s, now, kind, from, num);
    SameFind(s, now, kind, from, num, payment);
    if FindLoan(s, now, kind, from, num).Success? {
      FundedAt(LoansOf(s, kind), FindLoan(s, now, kind, from, num).value, num, payment);
    }
  }

  lemma SameFind(s: State, now: int, kind: LoanKind, from: Name, num: nat, payment: int)
    ensures TransferFromFund(s, from, payment).Success? ==>
      FindLoan(TransferFromFund(s, from, payment).value, now, kind, from, num) == FindLoan(s, now, kind, from, num)
  {
  }

  /** A running loan of the creator that holds an amount is the one that is found. */
  lemma FoundHolds(s: State, now: int, kind: LoanKind, from: Name, num: nat, amount: int)
    requires MaintInv(s, now)
    ensures (exists l :: l in LoansOf(s, kind) && Runs(l, now, from, num) && amount <= l.balance) <==>
      (FindLoan(s, now, kind, from, num).Success? && amount <= LoansOf(s, kind)[FindLoan(s, now, kind, from, num).value].balance)
  {
    hide MaintInv, FindLoan;
    FindsRunning(s, now, kind, from, num);
    var loans := LoansOf(s, kind);
    if l :| l in loans && Runs(l, now, from, num) && amount <= l.balance {
      var i :| 0 <= i < |loans| && loans[i] == l;
      assert i == FindLoan(s, now, kind, from, num).value;
    }
    if FindLoan(s, now, kind, from, num).Success? {
      assert loans[FindLoan(s, now, kind, from, num).value] in loans;
    }
  }

  /** Taking back what is set aside is refused exactly when it is not positive, the loan does not hold as
      much, or the creator has no such loan running. */
  lemma LoanIsDefunded(s: State, now: int, kind: LoanKind, from: Name, num: nat, amount: int)
    requires MaintInv(s, now)
    ensures DefundLoan(s, now, kind, from, num, amount).Success? <==>
      0 < amount && exists l :: l in LoansOf(s, kind) && Runs(l, now, from, num) && amount <= l.balance
    ensures DefundLoan(s, now, kind, from, num, amount).Success? ==>
      var t := DefundLoan(s, now, kind, from, num, amount).value;
      && OneFunded(LoansOf(s, kind), LoansOf(t, kind), num, -amount) && LoansOf(t, Other(kind)) == LoansOf(s, Other(kind))
      && forall n :: At(t.funds, n) == At(s.funds, n) + if n == from then amount else 0
  {
    hide MaintInv, FindLoan, OneFunded, Runs;
    FoundHolds(s, now, kind, from, num, amount);
    FindsRunning(s, now, kind, from, num);
    if FindLoan(s, now, kind, from, num).Success? {
      assert LoansOf(s, kind)[FindLoan(s, now, kind, from, num).value].num == num by { FoundNumber(s, now, kind, from, num); }
      FundedAt(LoansOf(s, kind), FindLoan(s, now, kind, from, num).value, num, -amount);
    }
  }

  lemma FoundNumber(s: State, now: int, kind: LoanKind, from: Name, num: nat)
    requires FindLoan(s, now, kind, from, num).Success?
    ensures LoansOf(s, kind)[FindLoan(s, now, kind, from, num).value].num == num
  {
  }

  /** A renter can have back at once what it set aside. */
  lemma RenterMayDefund(s: State, t: State, now: int, kind: LoanKind, from: Name, receiver: Name, payment: int, fund: int)
    requires Exchange.Whole(s, now) && 0 < fund && Rent(s, now, kind, from, receiver, payment, fund) == Success(t)
    ensures t.pool.Some? && DefundLoan(t, now, kind, from, t.pool.value.loanNum, fund).Success?
  {
    hide MaintInv, VotingProofs.VoteInv, RunRex, Rent, DefundLoan, Price, Exchange.Conserved, Exchange.PriceHeld;
    LoanIsTaken(s, t, now, kind, from, receiver, payment, fund);
    Exchange.RentKeeps(s, now, kind, from, receiver, payment, fund);
    var loan := Promised(RunRex(s, now, MAINTENANCE).value.pool.value, now, from, receiver, payment, fund);
    assert loan in multiset(LoansOf(t, kind));
    assert loan in LoansOf(t, kind) && Runs(loan, now, from, loan.num);
    LoanIsDefunded(t, now, kind, from, loan.num, fund);
  }
}
