/** The maturity buckets of one REX balance: a deque of dated amounts whose last entry may be
    the savings bucket, dated at the end of days. */
module Maturity {
  import opened Outcomes
  import opened Arithmetic
  import opened Chain

  function Last(buckets: seq<Bucket>): Bucket
    requires buckets != []
  {
    buckets[|buckets| - 1]
  }

  function AllButLast(buckets: seq<Bucket>): seq<Bucket>
    requires buckets != []
  {
    buckets[..|buckets| - 1]
  }

  predicate HasSavings(buckets: seq<Bucket>) {
    buckets != [] && Last(buckets).date == END_OF_DAYS
  }

  // Operations

  /** Moves the buckets that have reached their date into the matured amount. */
  function Mature(b: Balance, seconds: int): Balance
    decreases |b.buckets|
  {
    if b.buckets != [] && b.buckets[0].date <= seconds then
      Mature(b.(matured := b.matured + b.buckets[0].amount, buckets := b.buckets[1..]), seconds)
    else b
  }

  function SavingsOf(b: Balance): int {
    if HasSavings(b.buckets) then Last(b.buckets).amount else 0
  }

  /** Takes the savings bucket off for the time other buckets are processed. */
  function WithoutSavings(b: Balance): Balance {
    if HasSavings(b.buckets) then b.(buckets := AllButLast(b.buckets)) else b
  }

  /** Adds to the last bucket if it has the given date, else appends a bucket. */
  function AddBucket(buckets: seq<Bucket>, date: int, amount: int): seq<Bucket> {
    if buckets != [] && Last(buckets).date == date then
      AllButLast(buckets) + [Bucket(date, Last(buckets).amount + amount)]
    else buckets + [Bucket(date, amount)]
  }

  function PutSavings(b: Balance, amount: int): Balance {
    if amount == 0 then b else b.(buckets := AddBucket(b.buckets, END_OF_DAYS, amount))
  }

  /** Books REX into the bucket of today's maturity date. */
  function AddMaturing(b: Balance, now: int, amount: int): Balance {
    var matured := Mature(WithoutSavings(b), Seconds(now));
    PutSavings(matured.(buckets := AddBucket(matured.buckets, MaturityDate(now), amount)), SavingsOf(b))
  }

  function AmountOf(buckets: seq<Bucket>): int {
    if buckets == [] then 0 else buckets[0].amount + AmountOf(buckets[1..])
  }

  /** Gathers everything but savings and the REX of an open order into one new bucket. */
  function Consolidate(b: Balance, now: int, inOrder: int): Balance {
    var rest := WithoutSavings(b);
    var total := rest.matured - inOrder + AmountOf(rest.buckets);
    var gathered := rest.(matured := inOrder, buckets := if total > 0 then [Bucket(MaturityDate(now), total)] else []);
    PutSavings(gathered, SavingsOf(b))
  }

  /** Takes `need` from the buckets, the furthest first; yields what is left of both. */
  function TakeFurthest(buckets: seq<Bucket>, need: int): (seq<Bucket>, int)
    decreases |buckets|, if need <= 0 then 0 else need
  {
    if buckets == [] || need <= 0 then (buckets, need)
    else
      var taken := Min(need, Last(buckets).amount);
      if Last(buckets).amount - taken == 0 then TakeFurthest(AllButLast(buckets), need - taken)
      else TakeFurthest(AllButLast(buckets) + [Bucket(Last(buckets).date, Last(buckets).amount - taken)], need - taken)
  }

  /** Moves REX to savings: buckets give first, the furthest date before nearer ones, then matured REX. */
  function MoveToSavings(b: Balance, now: int, amount: int, inOrder: int): Result<Balance> {
    var savings := SavingsOf(b);
    :- Need(amount + inOrder + savings <= b.rex, InsufficientRex);
    var ready := Mature(WithoutSavings(b), Seconds(now));
    var (buckets, left) := TakeFurthest(ready.buckets, amount);
    var taken := ready.(buckets := buckets, matured := ready.matured - Max(left, 0));
    :- Need(left <= 0 || inOrder <= taken.matured, SavingsLogicError);
    :- Need(0 <= left, SavingsProgrammerError);
    Success(PutSavings(taken, savings + amount))
  }

  /** Moves REX out of savings into the bucket of today's maturity date. */
  function MoveFromSavings(b: Balance, now: int, amount: int): Result<Balance> {
    var savings := SavingsOf(b);
    :- Need(amount <= savings, InsufficientRex);
    var ready := Mature(WithoutSavings(b), Seconds(now));
    var added := ready.(buckets := AddBucket(ready.buckets, MaturityDate(now), amount));
    Success(PutSavings(added, savings - amount))
  }

  // Shape of the deque

  ghost predicate Increasing(buckets: seq<Bucket>) {
    forall i, j :: 0 <= i < j < |buckets| ==> buckets[i].date < buckets[j].date
  }

  ghost predicate NoneNegative(buckets: seq<Bucket>) {
    forall i :: 0 <= i < |buckets| ==> 0 <= buckets[i].amount
  }

  ghost predicate DayBoundary(date: int, now: int) {
    date % DAY_SECONDS == 0 && date <= MaturityDate(now)
  }

  /** Dates increase strictly; all but savings are day boundaries, none later than today's
      maturity date, and they lie within four days of each other. */
  ghost predicate Shape(buckets: seq<Bucket>, now: int) {
    && Increasing(buckets)
    && (forall i :: 0 <= i < |buckets| ==> buckets[i].date == END_OF_DAYS || DayBoundary(buckets[i].date, now))
    && (forall i, j :: 0 <= i < j < |buckets| && buckets[j].date != END_OF_DAYS ==>
          buckets[j].date - buckets[i].date <= 4 * DAY_SECONDS)
  }

  ghost predicate Healthy(b: Balance, now: int) {
    && b.rex == b.matured + AmountOf(b.buckets)
    && 0 <= b.matured
    && NoneNegative(b.buckets)
    && Shape(b.buckets, now)
  }

  /** The buckets that `Mature` leaves: every date is still ahead, within the maturity window. */
  ghost predicate Pending(buckets: seq<Bucket>, now: int) {
    && Increasing(buckets)
    && NoneNegative(buckets)
    && forall i :: 0 <= i < |buckets| ==> Seconds(now) < buckets[i].date && DayBoundary(buckets[i].date, now)
  }

  // Sums over buckets

  function DueBy(buckets: seq<Bucket>, date: int): int {
    if buckets == [] then 0
    else (if buckets[0].date <= date then buckets[0].amount else 0) + DueBy(buckets[1..], date)
  }

  /** What the owner can sell by a date if nothing else is bought, moved or sold. */
  function SellableBy(b: Balance, date: int): int {
    b.matured + DueBy(b.buckets, date)
  }

  lemma {:induction false} SumsOfLast(buckets: seq<Bucket>, date: int)
    requires buckets != []
    ensures AmountOf(buckets) == AmountOf(AllButLast(buckets)) + Last(buckets).amount
    ensures DueBy(buckets, date)
         == DueBy(AllButLast(buckets), date) + if Last(buckets).date <= date then Last(buckets).amount else 0
  {
    if |buckets| > 1 {
      SumsOfLast(buckets[1..], date);
      assert AllButLast(buckets)[1..] == AllButLast(buckets[1..]);
    }
  }

  lemma {:induction false} SumsNonneg(buckets: seq<Bucket>, date: int)
    requires NoneNegative(buckets)
    ensures 0 <= DueBy(buckets, date) <= AmountOf(buckets)
  {
    if buckets != [] { SumsNonneg(buckets[1..], date); }
  }

  lemma {:induction false} AllDue(buckets: seq<Bucket>, date: int)
    requires forall i :: 0 <= i < |buckets| ==> buckets[i].date <= date
    ensures DueBy(buckets, date) == AmountOf(buckets)
  {
    if buckets != [] { AllDue(buckets[1..], date); }
  }

  lemma {:induction false} NoneDue(buckets: seq<Bucket>, date: int)
    requires forall i :: 0 <= i < |buckets| ==> date < buckets[i].date
    ensures DueBy(buckets, date) == 0
  {
    if buckets != [] { NoneDue(buckets[1..], date); }
  }

  lemma SumsOfAdded(buckets: seq<Bucket>, added: int, amount: int, date: int)
    ensures AmountOf(AddBucket(buckets, added, amount)) == AmountOf(buckets) + amount
    ensures DueBy(AddBucket(buckets, added, amount), date)
         == DueBy(buckets, date) + if added <= date then amount else 0
  {
    var result := AddBucket(buckets, added, amount);
    SumsOfLast(result, date);
    if buckets != [] && Last(buckets).date == added {
      SumsOfLast(buckets, date);
      assert AllButLast(result) == AllButLast(buckets);
    } else {
      assert AllButLast(result) == buckets;
    }
  }

  // Each operation on the deque

  lemma WithoutSavingsParts(b: Balance, now: int, date: int)
    requires InEpoch(now) && Healthy(b, now) && date < END_OF_DAYS
    ensures var rest := WithoutSavings(b).buckets;
      && Shape(rest, now) && NoneNegative(rest) && 0 <= SavingsOf(b)
      && (forall i :: 0 <= i < |rest| ==> rest[i].date != END_OF_DAYS)
      && AmountOf(b.buckets) == AmountOf(rest) + SavingsOf(b)
      && DueBy(b.buckets, date) == DueBy(rest, date)
  {
    if HasSavings(b.buckets) { SumsOfLast(b.buckets, date); }
  }

  /** Maturing keeps the owner's total and what can be sold by any date from now on. */
  lemma {:induction false} MatureKeeps(b: Balance, now: int, date: int)
    requires 0 <= b.matured && Shape(b.buckets, now) && NoneNegative(b.buckets)
    requires forall i :: 0 <= i < |b.buckets| ==> b.buckets[i].date != END_OF_DAYS
    requires Seconds(now) <= date
    ensures var ready := Mature(b, Seconds(now));
      && ready.rex == b.rex && ready.voteStake == b.voteStake
      && b.matured <= ready.matured && Pending(ready.buckets, now)
      && ready.matured + AmountOf(ready.buckets) == b.matured + AmountOf(b.buckets)
      && SellableBy(ready, date) == SellableBy(b, date)
    decreases |b.buckets|
  {
    if b.buckets != [] && b.buckets[0].date <= Seconds(now) {
      MatureKeeps(b.(matured := b.matured + b.buckets[0].amount, buckets := b.buckets[1..]), now, date);
    }
  }

  /** Day boundaries inside the maturity window are at most four days apart. */
  lemma WindowSpan(first: int, second: int, now: int)
    requires first % DAY_SECONDS == 0 && second % DAY_SECONDS == 0
    requires Seconds(now) < first && second <= MaturityDate(now)
    ensures second - first <= 4 * DAY_SECONDS
  {
    var day := Seconds(now) / DAY_SECONDS;
    assert day * DAY_SECONDS < first;
    assert day < first / DAY_SECONDS && second / DAY_SECONDS <= day + 5;
  }

  lemma PendingShape(buckets: seq<Bucket>, now: int)
    requires Pending(buckets, now)
    ensures Shape(buckets, now)
  {
    forall i, j | 0 <= i < j < |buckets| ensures buckets[j].date - buckets[i].date <= 4 * DAY_SECONDS {
      assert DayBoundary(buckets[i].date, now) && DayBoundary(buckets[j].date, now);
      WindowSpan(buckets[i].date, buckets[j].date, now);
    }
  }

  /** Maturing keeps a balance healthy; savings are never reached. */
  lemma {:induction false} MatureHealthy(b: Balance, now: int)
    requires InEpoch(now) && Healthy(b, now)
    ensures var ready := Mature(b, Seconds(now));
      && Healthy(ready, now) && ready.rex == b.rex && ready.voteStake == b.voteStake && b.matured <= ready.matured
    decreases |b.buckets|
  {
    if b.buckets != [] && b.buckets[0].date <= Seconds(now) {
      MatureHealthy(b.(matured := b.matured + b.buckets[0].amount, buckets := b.buckets[1..]), now);
    }
  }

  /** Pending buckets plus a savings bucket have the required shape. */
  lemma PutSavingsShape(b: Balance, amount: int, now: int, date: int)
    requires InEpoch(now) && Pending(b.buckets, now) && 0 <= b.matured && 0 <= amount
    requires b.rex == b.matured + AmountOf(b.buckets) + amount
    requires date < END_OF_DAYS
    ensures Healthy(PutSavings(b, amount), now)
    ensures SellableBy(PutSavings(b, amount), date) == SellableBy(b, date)
    ensures SavingsOf(PutSavings(b, amount)) == amount
  {
    PendingShape(b.buckets, now);
    assert b.buckets == [] || DayBoundary(Last(b.buckets).date, now);
    if amount != 0 {
      SumsOfAdded(b.buckets, END_OF_DAYS, amount, date);
      assert AddBucket(b.buckets, END_OF_DAYS, amount) == b.buckets + [Bucket(END_OF_DAYS, amount)];
    }
  }

  lemma AddMaturityBucket(buckets: seq<Bucket>, now: int, amount: int)
    requires Pending(buckets, now) && 0 <= amount
    ensures Pending(AddBucket(buckets, MaturityDate(now), amount), now)
  {
    assert buckets == [] || DayBoundary(Last(buckets).date, now);
  }

  // The promises of the operations

  /** REX bought now matures in (now + 4 days, now + 5 days], at the end of a day. */
  lemma MaturityWindow(now: int)
    requires 0 <= now
    ensures Seconds(now) + 4 * DAY_SECONDS < MaturityDate(now) <= Seconds(now) + 5 * DAY_SECONDS
    ensures MaturityDate(now) % DAY_SECONDS == 0
  {
  }

  lemma {:induction false} DaysApart(buckets: seq<Bucket>, now: int, k: nat)
    requires Shape(buckets, now) && k < |buckets| && buckets[k].date != END_OF_DAYS
    requires forall i :: 0 <= i <= k ==> buckets[i].date != END_OF_DAYS
    ensures buckets[0].date + k * DAY_SECONDS <= buckets[k].date
  {
    if k > 0 {
      DaysApart(buckets, now, k - 1);
      assert DayBoundary(buckets[k - 1].date, now) && DayBoundary(buckets[k].date, now);
      assert buckets[k - 1].date < buckets[k].date;
    }
  }

  /** A balance holds at most five maturity buckets, and at most one savings bucket, at the back. */
  lemma FiveBuckets(b: Balance, now: int)
    requires InEpoch(now) && Healthy(b, now)
    ensures |WithoutSavings(b).buckets| <= 5
    ensures forall i :: 0 <= i < |b.buckets| && b.buckets[i].date == END_OF_DAYS ==> i == |b.buckets| - 1
  {
    WithoutSavingsParts(b, now, 0);
    var rest := WithoutSavings(b).buckets;
    if |rest| > 5 { DaysApart(rest, now, 5); }
  }

  /** Buying adds to what matures at today's maturity date, and to nothing sellable sooner. */
  lemma AddMaturingKeeps(b: Balance, now: int, amount: int, date: int)
    requires InEpoch(now) && 0 <= amount && Seconds(now) <= date < END_OF_DAYS
    requires Healthy(b.(rex := b.rex - amount), now)
    ensures var b' := AddMaturing(b, now, amount);
      && Healthy(b', now) && b'.rex == b.rex && b'.voteStake == b.voteStake
      && b.matured <= b'.matured && SavingsOf(b') == SavingsOf(b)
      && SellableBy(b', date) == SellableBy(b, date) + if MaturityDate(now) <= date then amount else 0
  {
    WithoutSavingsParts(b.(rex := b.rex - amount), now, date);
    MatureKeeps(WithoutSavings(b), now, date);
    var ready := Mature(WithoutSavings(b), Seconds(now));
    AddMaturityBucket(ready.buckets, now, amount);
    SumsOfAdded(ready.buckets, MaturityDate(now), amount, date);
    PutSavingsShape(ready.(buckets := AddBucket(ready.buckets, MaturityDate(now), amount)), SavingsOf(b), now, date);
  }

  /** One new bucket, or none, with everything that was neither in savings nor in an open order. */
  lemma GatheredBucket(rest: Balance, now: int, inOrder: int, date: int)
    requires InEpoch(now) && 0 <= inOrder <= rest.matured && NoneNegative(rest.buckets)
    ensures var total := rest.matured - inOrder + AmountOf(rest.buckets);
      var buckets := if total > 0 then [Bucket(MaturityDate(now), total)] else [];
      && Pending(buckets, now) && AmountOf(buckets) == total
      && DueBy(buckets, date) == if MaturityDate(now) <= date then total else 0
  {
    SumsNonneg(rest.buckets, date);
    MaturityWindow(now);
  }

  /** Consolidation leaves the open order sellable and everything else but savings to mature together. */
  lemma ConsolidateKeeps(b: Balance, now: int, inOrder: int, date: int)
    requires InEpoch(now) && Healthy(b, now) && 0 <= inOrder <= b.matured && Seconds(now) <= date < END_OF_DAYS
    ensures var b' := Consolidate(b, now, inOrder);
      && Healthy(b', now) && b'.rex == b.rex && b'.voteStake == b.voteStake
      && b'.matured == inOrder && SavingsOf(b') == SavingsOf(b)
      && SellableBy(b', date) == if MaturityDate(now) <= date then b.rex - SavingsOf(b) else inOrder
  {
    hide AmountOf, DueBy, MaturityDate, Seconds, Pending, Shape, NoneNegative;
    WithoutSavingsParts(b, now, date);
    var rest := WithoutSavings(b);
    GatheredBucket(rest, now, inOrder, date);
    var total := rest.matured - inOrder + AmountOf(rest.buckets);
    var gathered := rest.(matured := inOrder, buckets := if total > 0 then [Bucket(MaturityDate(now), total)] else []);
    PutSavingsShape(gathered, SavingsOf(b), now, date);
  }

  /** `TakeFurthest` empties buckets from the back: what is due by any date is capped, never shifted. */
  lemma {:induction false} TakeFurthestCaps(buckets: seq<Bucket>, need: int, date: int)
    requires Increasing(buckets) && NoneNegative(buckets) && 0 <= need
    ensures var (rest, left) := TakeFurthest(buckets, need);
      && left == Max(0, need - AmountOf(buckets))
      && AmountOf(rest) == AmountOf(buckets) - (need - left)
      && DueBy(rest, date) == Min(DueBy(buckets, date), AmountOf(buckets) - (need - left))
      && NoneNegative(rest) && |rest| <= |buckets|
      && (forall i :: 0 <= i < |rest| ==> rest[i].date == buckets[i].date)
    decreases |buckets|, need
  {
    SumsNonneg(buckets, date);
    if buckets != [] && need > 0 {
      var last := Last(buckets);
      var taken := Min(need, last.amount);
      var init := AllButLast(buckets);
      SumsOfLast(buckets, date);
      if last.amount - taken == 0 {
        TakeFurthestCaps(init, need - taken, date);
        SumsNonneg(init, date);
      } else {
        var shrunk := init + [Bucket(last.date, last.amount - taken)];
        SumsOfLast(shrunk, date);
        assert AllButLast(shrunk) == init;
        assert TakeFurthest(shrunk, 0) == (shrunk, 0);
        SumsNonneg(init, date);
      }
      if last.date <= date { AllDue(init, date); }
    }
  }

  lemma TakeFurthestPending(buckets: seq<Bucket>, need: int, now: int)
    requires Pending(buckets, now) && 0 <= need
    ensures Pending(TakeFurthest(buckets, need).0, now)
  {
    TakeFurthestCaps(buckets, need, 0);
    var rest := TakeFurthest(buckets, need).0;
    forall i | 0 <= i < |rest| ensures Seconds(now) < rest[i].date && DayBoundary(rest[i].date, now) {
      assert rest[i].date == buckets[i].date;
    }
  }

  /** The balance every savings operation works on: matured, with savings set aside. */
  lemma ReadyParts(b: Balance, now: int, date: int)
    requires InEpoch(now) && Healthy(b, now) && Seconds(now) <= date < END_OF_DAYS
    ensures var ready := Mature(WithoutSavings(b), Seconds(now));
      && ready.rex == b.rex && ready.voteStake == b.voteStake
      && b.matured <= ready.matured && 0 <= SavingsOf(b) && Pending(ready.buckets, now)
      && ready.matured + AmountOf(ready.buckets) + SavingsOf(b) == b.rex
      && SellableBy(ready, date) == SellableBy(b, date)
  {
    WithoutSavingsParts(b, now, date);
    MatureKeeps(WithoutSavings(b), now, date);
  }

  /** What is taken comes off the furthest buckets, then off the matured REX. */
  lemma TakenParts(ready: Balance, now: int, amount: int, date: int)
    requires 0 <= ready.matured && 0 < amount <= ready.matured + AmountOf(ready.buckets)
    requires Pending(ready.buckets, now)
    ensures var (buckets, left) := TakeFurthest(ready.buckets, amount);
      var taken := ready.(buckets := buckets, matured := ready.matured - Max(left, 0));
      && Pending(buckets, now) && 0 <= left && 0 <= taken.matured
      && (0 < left ==> taken.matured == ready.matured + AmountOf(ready.buckets) - amount)
      && taken.matured + AmountOf(buckets) == ready.matured + AmountOf(ready.buckets) - amount
      && SellableBy(taken, date) == Min(SellableBy(ready, date), ready.matured + AmountOf(ready.buckets) - amount)
  {
    TakeFurthestCaps(ready.buckets, amount, date);
    TakeFurthestPending(ready.buckets, amount, now);
    SumsNonneg(ready.buckets, date);
  }

  /** Moving to savings takes the furthest maturities first: by every date from now on the owner
      can sell the lesser of what was sellable before and of all non-savings REX that remains.
      Neither internal-error check can fail. */
  lemma MoveToSavingsKeeps(b: Balance, now: int, amount: int, inOrder: int, date: int)
    requires InEpoch(now) && Healthy(b, now) && 0 < amount && 0 <= inOrder <= b.matured
    requires Seconds(now) <= date < END_OF_DAYS
    ensures MoveToSavings(b, now, amount, inOrder).Success? <==> amount + inOrder + SavingsOf(b) <= b.rex
    ensures amount + inOrder + SavingsOf(b) <= b.rex ==>
      var b' := MoveToSavings(b, now, amount, inOrder).value;
      && Healthy(b', now) && b'.rex == b.rex && b'.voteStake == b.voteStake
      && inOrder <= b'.matured && SavingsOf(b') == SavingsOf(b) + amount
      && SellableBy(b', date) == Min(SellableBy(b, date), b.rex - SavingsOf(b) - amount)
  {
    hide Mature, TakeFurthest, DueBy, AmountOf, MaturityDate, Seconds, Pending, Shape;
    if amount + inOrder + SavingsOf(b) <= b.rex {
      ReadyParts(b, now, date);
      var ready := Mature(WithoutSavings(b), Seconds(now));
      TakenParts(ready, now, amount, date);
      var (buckets, left) := TakeFurthest(ready.buckets, amount);
      var taken := ready.(buckets := buckets, matured := ready.matured - left);
      PutSavingsShape(taken, SavingsOf(b) + amount, now, date);
      assert MoveToSavings(b, now, amount, inOrder) == Success(PutSavings(taken, SavingsOf(b) + amount));
    }
  }

  /** Moving out of savings makes the REX sellable at today's maturity date, no sooner. */
  lemma MoveFromSavingsKeeps(b: Balance, now: int, amount: int, date: int)
    requires InEpoch(now) && Healthy(b, now) && 0 < amount && Seconds(now) <= date < END_OF_DAYS
    ensures MoveFromSavings(b, now, amount).Success? <==> amount <= SavingsOf(b)
    ensures amount <= SavingsOf(b) ==>
      var b' := MoveFromSavings(b, now, amount).value;
      && Healthy(b', now) && b'.rex == b.rex && b'.voteStake == b.voteStake
      && b.matured <= b'.matured && SavingsOf(b') == SavingsOf(b) - amount
      && SellableBy(b', date) == SellableBy(b, date) + if MaturityDate(now) <= date then amount else 0
  {
    if amount <= SavingsOf(b) {
      ReadyParts(b, now, date);
      var ready := Mature(WithoutSavings(b), Seconds(now));
      AddMaturityBucket(ready.buckets, now, amount);
      SumsOfAdded(ready.buckets, MaturityDate(now), amount, date);
      PutSavingsShape(ready.(buckets := AddBucket(ready.buckets, MaturityDate(now), amount)), SavingsOf(b) - amount, now, date);
    }
  }

  /** Time passing never spoils a balance. */
  lemma HealthyLater(b: Balance, now: int, later: int)
    requires Healthy(b, now) && 0 <= now <= later
    ensures Healthy(b, later)
  {
    assert Seconds(now) <= Seconds(later);
    assert MaturityDate(now) <= MaturityDate(later);
    forall i | 0 <= i < |b.buckets| && b.buckets[i].date != END_OF_DAYS ensures DayBoundary(b.buckets[i].date, later) {
      assert DayBoundary(b.buckets[i].date, now);
    }
  }
}
