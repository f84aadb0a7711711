/** A loan table in the order of its expiration index: by expiration, then by loan number. */
module Loans {
  import opened Outcomes
  import opened Chain

  predicate Before(a: Loan, b: Loan) {
    a.expiration < b.expiration || (a.expiration == b.expiration && a.num < b.num)
  }

  function Insert(loans: seq<Loan>, loan: Loan): seq<Loan> {
    if loans == [] || Before(loan, loans[0]) then [loan] + loans
    else [loans[0]] + Insert(loans[1..], loan)
  }

  /** The position of the loan with a number, if there is one. */
  function Find(loans: seq<Loan>, num: nat): (at: Option<nat>)
    ensures at.Some? ==> at.value < |loans| && loans[at.value].num == num
  {
    if loans == [] then None
    else if loans[0].num == num then Some(0)
    else
      var rest := Find(loans[1..], num);
      if rest.Some? then Some(rest.value + 1) else None
  }

  function HasOwner(loans: seq<Loan>, owner: Name): bool {
    exists i :: 0 <= i < |loans| && loans[i].from == owner
  }

  // Sums

  /** Tokens out on loan. */
  function Staked(loans: seq<Loan>): int {
    if loans == [] then 0 else loans[0].staked + Staked(loans[1..])
  }

  /** Tokens set aside for renewals. */
  function Escrow(loans: seq<Loan>): int {
    if loans == [] then 0 else loans[0].balance + Escrow(loans[1..])
  }

  /** Tokens out on loan for the benefit of one receiver. */
  function StakedTo(loans: seq<Loan>, receiver: Name): int {
    if loans == [] then 0
    else (if loans[0].receiver == receiver then loans[0].staked else 0) + StakedTo(loans[1..], receiver)
  }

  // The invariant of a table

  /** Sorted as the index sorts, with distinct numbers that have been handed out. */
  ghost predicate Indexed(loans: seq<Loan>, lastNum: nat) {
    && (forall i, j :: 0 <= i < j < |loans| ==> Before(loans[i], loans[j]) && loans[i].num != loans[j].num)
    && (forall i :: 0 <= i < |loans| ==> loans[i].num <= lastNum)
  }

  /** A loan lends more than was paid for it, sets nothing negative aside, and ends within 30 days. */
  predicate Fair(loan: Loan, now: int) {
    0 < loan.payment < loan.staked && 0 <= loan.balance && loan.expiration <= now + LOAN_TERM
  }

  ghost predicate AllFair(loans: seq<Loan>, now: int) {
    forall i :: 0 <= i < |loans| ==> Fair(loans[i], now)
  }

  ghost predicate LoansOk(loans: seq<Loan>, now: int, lastNum: nat) {
    Indexed(loans, lastNum) && AllFair(loans, now)
  }

  /** Every loan of the table ends by a time. */
  ghost predicate EndBy(loans: seq<Loan>, time: int) {
    forall i :: 0 <= i < |loans| ==> loans[i].expiration <= time
  }

  // Lemmas

  lemma {:induction false} InsertSums(loans: seq<Loan>, loan: Loan, receiver: Name)
    ensures Staked(Insert(loans, loan)) == Staked(loans) + loan.staked
    ensures Escrow(Insert(loans, loan)) == Escrow(loans) + loan.balance
    ensures StakedTo(Insert(loans, loan), receiver)
         == StakedTo(loans, receiver) + if loan.receiver == receiver then loan.staked else 0
  {
    if loans != [] && !Before(loan, loans[0]) {
      InsertSums(loans[1..], loan, receiver);
    } else {
      assert ([loan] + loans)[1..] == loans;
    }
  }

  lemma {:induction false} InsertMembers(loans: seq<Loan>, loan: Loan)
    ensures |Insert(loans, loan)| == |loans| + 1
    ensures forall l :: l in Insert(loans, loan) <==> l == loan || l in loans
  {
    if loans != [] && !Before(loan, loans[0]) {
      InsertMembers(loans[1..], loan);
      assert loans == [loans[0]] + loans[1..];
    }
  }

  /** Inserting a loan with a new number keeps the index order. */
  lemma {:induction false} InsertIndexed(loans: seq<Loan>, loan: Loan, lastNum: nat)
    requires Indexed(loans, lastNum) && loan.num <= lastNum
    requires forall i :: 0 <= i < |loans| ==> loans[i].num != loan.num
    ensures Indexed(Insert(loans, loan), lastNum)
  {
    if loans != [] && !Before(loan, loans[0]) {
      var rest := Insert(loans[1..], loan);
      InsertIndexed(loans[1..], loan, lastNum);
      InsertMembers(loans[1..], loan);
      forall i | 0 <= i < |rest| ensures Before(loans[0], rest[i]) && loans[0].num != rest[i].num {
        assert rest[i] in rest;
        if rest[i] != loan {
          var k :| 0 <= k < |loans[1..]| && loans[1..][k] == rest[i];
          assert loans[k + 1] == rest[i];
        }
      }
    }
  }

  lemma InsertFair(loans: seq<Loan>, loan: Loan, now: int)
    requires AllFair(loans, now) && Fair(loan, now)
    ensures AllFair(Insert(loans, loan), now)
  {
    InsertMembers(loans, loan);
    var all := Insert(loans, loan);
    forall i | 0 <= i < |all| ensures Fair(all[i], now) {
      assert all[i] in all;
    }
  }

  lemma {:induction false} StakedNonneg(loans: seq<Loan>, now: int, receiver: Name)
    requires AllFair(loans, now)
    ensures 0 <= StakedTo(loans, receiver) <= Staked(loans)
    ensures 0 <= Escrow(loans)
    ensures loans != [] ==> 0 < Staked(loans)
  {
    if loans != [] { StakedNonneg(loans[1..], now, receiver); }
  }

  /** Changing what one loan has set aside changes nothing else. */
  lemma {:induction false} RefundSums(loans: seq<Loan>, k: nat, balance: int, receiver: Name)
    requires k < |loans|
    ensures var after := loans[k := loans[k].(balance := balance)];
      && Staked(after) == Staked(loans)
      && StakedTo(after, receiver) == StakedTo(loans, receiver)
      && Escrow(after) == Escrow(loans) - loans[k].balance + balance
  {
    var after := loans[k := loans[k].(balance := balance)];
    if k > 0 {
      RefundSums(loans[1..], k - 1, balance, receiver);
      assert after[1..] == loans[1..][k - 1 := loans[k].(balance := balance)];
    } else {
      assert after[1..] == loans[1..];
    }
  }

  /** A number that is in the table is found at its only position. */
  lemma {:induction false} FindFinds(loans: seq<Loan>, num: nat)
    ensures Find(loans, num).Some? <==> exists i :: 0 <= i < |loans| && loans[i].num == num
  {
    if loans != [] && loans[0].num != num {
      FindFinds(loans[1..], num);
      if i :| 0 <= i < |loans| && loans[i].num == num {
        assert loans[1..][i - 1].num == num;
      }
    }
  }
}
