/** The pool totals: buying and selling REX at the pool price, renting at the Bancor price. */
module Pools {
  import opened Outcomes
  import opened Arithmetic
  import opened Chain

  // Operations

  /** The Bancor conversion of `input` from one connector to the other, rounded down and never negative. */
  function BancorOutput(conin: int, conout: int, input: int): Result<int> {
    if input + conin == 0 then Failure(DivisionByZero) else
    Success(Quotient(input * conout, input + conin))
  }

  /** Division toward zero, with negative results cut off. */
  function Quotient(a: int, b: int): int
    requires b != 0
  {
    if b < 0 then (if a > 0 then 0 else -a / -b) else if a < 0 then 0 else a / b
  }

  predicate Available(pool: Option<Pool>) {
    pool.Some? && 0 < pool.value.rex
  }

  /** Books a purchase of REX; yields the pool and the REX received. */
  function AddPurchase(pool: Option<Pool>, payment: int): Result<(Pool, int)> {
    match pool
    case None =>
      var received := payment * REX_RATIO;
      Success((Pool(0, payment, INITIAL_RENT, payment, received, 0, 0), received))
    case Some(p) =>
      if p.rex <= 0 then
        var received := payment * REX_RATIO;
        Success((p.(lendable := payment, lent := 0, unlent := payment, rent := INITIAL_RENT, rex := received), received))
      else
        :- Need(0 < p.lendable, EmptyLendablePool);
        var lendable := p.lendable + payment;
        var rex := lendable * p.rex / p.lendable;
        :- Need(0 <= lendable - p.lent, NegativeUnlent);
        Success((p.(lendable := lendable, rex := rex, unlent := lendable - p.lent), rex - p.rex))
  }

  /** Books a loan, new or renewed. */
  function AddLoan(p: Pool, payment: int, rented: int, isNew: bool): Pool {
    var unlent := p.unlent - rented + payment;
    var lent := p.lent + rented;
    p.(rent := p.rent + payment, unlent := unlent, lent := lent, lendable := unlent + lent,
       loanNum := if isNew then p.loanNum + 1 else p.loanNum)
  }

  /** Books the end of a loan. */
  function RemoveLoan(p: Pool, staked: int): Result<Pool> {
    var back :- BancorOutput(p.unlent, p.rent, staked);
    var unlent := p.unlent + staked;
    var lent := p.lent - staked;
    Success(p.(rent := p.rent - back, unlent := unlent, lent := lent, lendable := unlent + lent))
  }

  /** Fees go to the lenders. */
  function AddFee(p: Pool, amount: int): Pool {
    p.(unlent := p.unlent + amount, lendable := p.lendable + amount)
  }

  /** A fifth of what is lent must stay unlent when REX is sold. */
  function Reserve(p: Pool): int {
    2 * p.lent / 10
  }

  /** The value of an amount of REX at the pool price. */
  function ValueOf(p: Pool, rex: int): int
    requires p.rex != 0
  {
    rex * p.lendable / p.rex
  }

  datatype Sale = Filled(pool: Pool, balance: Balance, proceeds: int, stakeChange: int) | Unfilled

  /** Sells REX at the pool price if enough remains unlent. */
  function Sell(p: Pool, b: Balance, rex: int): Result<Sale> {
    if p.rex == 0 then Failure(DivisionByZero) else
    var proceeds := ValueOf(p, rex);
    if proceeds <= p.unlent - Reserve(p) then
      var lendable := p.lendable - proceeds;
      var voteStake := ValueOf(p, b.rex) - proceeds;
      Success(Filled(
                p.(rex := p.rex - rex, lendable := lendable, unlent := lendable - p.lent),
                b.(voteStake := voteStake, rex := b.rex - rex, matured := b.matured - rex),
                proceeds,
                voteStake - b.voteStake))
    else Success(Unfilled)
  }

  // The pool ledger

  /** What holds of the totals between actions: lendable splits into lent and unlent, nothing is
      negative, shares exist exactly when there is something to lend, at most 10000 per unit. */
  ghost predicate Sound(p: Pool) {
    && p.lendable == p.lent + p.unlent
    && 0 <= p.lent && 0 <= p.unlent && 0 <= p.rent && 0 <= p.namebid
    && 0 <= p.rex <= REX_RATIO * p.lendable
    && (p.rex == 0 ==> p.lendable == 0)
  }

  /** The price of REX did not fall from `p` to `q`. Nothing but a purchase refills an empty pool,
      so this relation is transitive. */
  ghost predicate PriceKept(p: Pool, q: Pool) {
    0 < q.rex ==> 0 < p.rex && p.lendable * q.rex <= q.lendable * p.rex
  }

  lemma PriceKeptTransitive(p: Pool, q: Pool, r: Pool)
    requires PriceKept(p, q) && PriceKept(q, r)
    requires 0 <= p.rex && 0 <= q.rex && 0 <= r.rex && 0 <= p.lendable && 0 <= q.lendable
    ensures PriceKept(p, r)
  {
    if 0 < r.rex {
      // p.lendable * r.rex * q.rex <= q.lendable * p.rex * r.rex <= r.lendable * p.rex * q.rex
      MulLe(p.lendable * q.rex, q.lendable * p.rex, r.rex);
      MulLe(q.lendable * r.rex, r.lendable * q.rex, p.rex);
      assert p.lendable * q.rex * r.rex == p.lendable * r.rex * q.rex;
      assert q.lendable * p.rex * r.rex == q.lendable * r.rex * p.rex;
      assert r.lendable * q.rex * p.rex == r.lendable * p.rex * q.rex;
      CancelLe(p.lendable * r.rex, r.lendable * p.rex, q.rex);
    }
  }

  /** A holding is worth no less after the price was kept. */
  lemma ValueKept(p: Pool, q: Pool, rex: int)
    requires PriceKept(p, q) && 0 < q.rex && 0 < p.rex && 0 <= rex
    ensures ValueOf(p, rex) <= ValueOf(q, rex)
  {
    var v := ValueOf(p, rex);
    FloorBounds(rex * p.lendable, p.rex);
    // v * p.rex * q.rex <= rex * p.lendable * q.rex <= rex * q.lendable * p.rex
    MulLe(v * p.rex, rex * p.lendable, q.rex);
    MulLe(p.lendable * q.rex, q.lendable * p.rex, rex);
    assert v * p.rex * q.rex == v * q.rex * p.rex;
    assert rex * p.lendable * q.rex == p.lendable * q.rex * rex;
    assert q.lendable * p.rex * rex == rex * q.lendable * p.rex;
    CancelLe(v * q.rex, rex * q.lendable, p.rex);
    FloorAtLeast(v, rex * q.lendable, q.rex);
  }

  /** As the comment on `rex_ratio` claims: a lendable amount within 4 * 10^14 units keeps the REX
      total within what an asset can hold. */
  lemma RexFitsAsset(p: Pool)
    requires Sound(p) && p.lendable <= 400_000_000_000_000
    ensures p.rex < 0x4000_0000_0000_0000
  {
  }

  // Each operation

  lemma BancorShare(conin: int, conout: int, input: int)
    requires 0 <= conin && 0 <= conout && 0 < input
    ensures BancorOutput(conin, conout, input).Success?
    ensures var out := BancorOutput(conin, conout, input).value;
      0 <= out <= conout && out * (input + conin) <= input * conout
  {
    MulNonneg(input, conout);
    FloorNonneg(input * conout, input + conin);
    FloorBounds(input * conout, input + conin);
    assert input * conout == conout * input;
    MulNonneg(conout, conin);
    FloorAtMost(conout, input * conout, input + conin) by {
      assert (conout + 1) * (input + conin) == conout * input + conout * conin + input + conin;
    }
  }

  /** Buying REX never fails on a sound pool and never lowers the price; the buyer pays into the
      pool in full. */
  lemma AddPurchaseKeeps(pool: Option<Pool>, payment: int)
    requires 0 < payment && (pool.Some? ==> Sound(pool.value))
    ensures AddPurchase(pool, payment).Success?
    ensures var (q, received) := AddPurchase(pool, payment).value;
      && Sound(q) && 0 < q.rex && 0 <= received
      && received == q.rex - (if pool.Some? then pool.value.rex else 0)
      && q.lendable == payment + (if pool.Some? then pool.value.lendable else 0)
      && q.lent == (if pool.Some? then pool.value.lent else 0)
      && q.namebid == (if pool.Some? then pool.value.namebid else 0)
      && q.loanNum == (if pool.Some? then pool.value.loanNum else 0)
      && (Available(pool) ==> PriceKept(pool.value, q) && q.rent == pool.value.rent)
  {
    if Available(pool) {
      var p := pool.value;
      var lendable := p.lendable + payment;
      var rex := lendable * p.rex / p.lendable;
      FloorBounds(lendable * p.rex, p.lendable);
      assert p.rex * p.lendable <= lendable * p.rex by { MulLe(p.lendable, lendable, p.rex); }
      FloorAtLeast(p.rex, lendable * p.rex, p.lendable);
      // rex * p.lendable <= lendable * p.rex <= lendable * REX_RATIO * p.lendable
      MulLe(p.rex, REX_RATIO * p.lendable, lendable);
      assert REX_RATIO * p.lendable * lendable == REX_RATIO * lendable * p.lendable;
      CancelLe(rex, REX_RATIO * lendable, p.lendable);
    }
  }

  /** What a payment buys: 10000 REX a unit where there is no REX, and the rent connector starts over; the
      whole part of its share of the pool where there is. */
  lemma PurchaseTerms(pool: Option<Pool>, payment: int)
    requires 0 < payment && (pool.Some? ==> Sound(pool.value))
    ensures AddPurchase(pool, payment).Success?
    ensures var (q, received) := AddPurchase(pool, payment).value;
      && (!Available(pool) ==>
            received == 10_000 * payment && q.rent == 20_000_0000 && q.lent == 0 && q.unlent == payment && q.lendable == payment)
      && (Available(pool) ==>
            var p := pool.value;
            received == payment * p.rex / p.lendable && q.rent == p.rent && q.unlent == p.unlent + payment && q.lent == p.lent)
  {
    AddPurchaseKeeps(pool, payment);
    if Available(pool) {
      var p := pool.value;
      var q := payment * p.rex / p.lendable;
      FloorBounds(payment * p.rex, p.lendable);
      assert (p.lendable + payment) * p.rex == p.rex * p.lendable + payment * p.rex;
      assert (p.rex + q) * p.lendable == p.rex * p.lendable + q * p.lendable;
      assert (p.rex + q + 1) * p.lendable == (p.rex + q) * p.lendable + p.lendable;
      FloorAtLeast(p.rex + q, (p.lendable + payment) * p.rex, p.lendable);
      FloorAtMost(p.rex + q, (p.lendable + payment) * p.rex, p.lendable);
    }
  }

  /** Renting keeps the pool sound, raises the price and never lowers `rent * unlent`. */
  lemma AddLoanKeeps(p: Pool, payment: int, isNew: bool)
    requires Sound(p) && 0 < p.rex && 0 < payment
    ensures BancorOutput(p.rent, p.unlent, payment).Success?
    ensures var rented := BancorOutput(p.rent, p.unlent, payment).value;
      var q := AddLoan(p, payment, rented, isNew);
      && 0 <= rented && Sound(q) && PriceKept(p, q)
      && q.rex == p.rex && q.lendable == p.lendable + payment && q.lent == p.lent + rented
      && q.rent == p.rent + payment && q.namebid == p.namebid
      && p.rent * p.unlent <= q.rent * q.unlent
  {
    BancorShare(p.rent, p.unlent, payment);
    var rented := BancorOutput(p.rent, p.unlent, payment).value;
    var q := AddLoan(p, payment, rented, isNew);
    MulLe(p.lendable, q.lendable, p.rex);
    RentalProduct(p.rent, p.unlent, payment, rented);
    MulNonneg(q.rent, payment);
    assert q.rent * q.unlent == (p.rent + payment) * (p.unlent - rented) + q.rent * payment;
  }

  /** Taking the Bancor output out of one connector and the input into the other keeps their product. */
  lemma RentalProduct(conin: int, conout: int, input: int, out: int)
    requires out * (input + conin) <= input * conout
    ensures conin * conout <= (conin + input) * (conout - out)
  {
    assert (conin + input) * (conout - out) == conin * conout + input * conout - out * (input + conin);
  }

  /** Closing a loan returns its stake to the unlent part: the pool stays sound at the same price,
      and `rent * unlent` does not fall. */
  lemma RemoveLoanKeeps(p: Pool, staked: int)
    requires Sound(p) && 0 < staked <= p.lent
    ensures RemoveLoan(p, staked).Success?
    ensures var q := RemoveLoan(p, staked).value;
      && Sound(q) && PriceKept(p, q)
      && q.rex == p.rex && q.lendable == p.lendable && q.lent == p.lent - staked
      && q.namebid == p.namebid && q.loanNum == p.loanNum
      && p.rent * p.unlent <= q.rent * q.unlent
  {
    BancorShare(p.unlent, p.rent, staked);
    var back := BancorOutput(p.unlent, p.rent, staked).value;
    RentalProduct(p.unlent, p.rent, staked, back);
  }

  lemma AddFeeKeeps(p: Pool, amount: int)
    requires Sound(p) && 0 < p.rex && 0 < amount
    ensures Sound(AddFee(p, amount)) && PriceKept(p, AddFee(p, amount))
    ensures p.rent * p.unlent <= AddFee(p, amount).rent * AddFee(p, amount).unlent
  {
    MulLe(p.lendable, p.lendable + amount, p.rex);
    MulLe(p.unlent, p.unlent + amount, p.rent);
  }

  /** Selling pays the pool price, keeps the price for those who stay, and leaves the reserve.
      Selling everything leaves nothing. */
  lemma SellKeeps(p: Pool, b: Balance, rex: int)
    requires Sound(p) && 0 < rex <= p.rex
    ensures Sell(p, b, rex).Success?
    ensures Sell(p, b, rex).value.Filled? <==> ValueOf(p, rex) <= p.unlent - Reserve(p)
    ensures p.lent == 0 ==> Sell(p, b, rex).value.Filled?
    ensures Sell(p, b, rex).value.Filled? ==>
      var sale := Sell(p, b, rex).value;
      var q := sale.pool;
      && Sound(q) && PriceKept(p, q) && 0 <= sale.proceeds
      && sale.proceeds == ValueOf(p, rex)
      && q.lendable == p.lendable - sale.proceeds && q.unlent == p.unlent - sale.proceeds
      && q.rex == p.rex - rex && q.lent == p.lent && Reserve(q) <= q.unlent
      && q.rent == p.rent && q.namebid == p.namebid && q.loanNum == p.loanNum
      && sale.balance == b.(rex := b.rex - rex, matured := b.matured - rex, voteStake := b.voteStake + sale.stakeChange)
      && sale.balance.voteStake == ValueOf(p, b.rex) - sale.proceeds
  {
    var proceeds := ValueOf(p, rex);
    MulNonneg(rex, p.lendable);
    FloorNonneg(rex * p.lendable, p.rex);
    FloorBounds(rex * p.lendable, p.rex);
    MulLe(rex, p.rex, p.lendable);
    assert p.rex * p.lendable == p.lendable * p.rex;
    CancelLe(proceeds, p.lendable, p.rex);
    var lendable := p.lendable - proceeds;
    // proceeds * p.rex <= rex * p.lendable, hence p.lendable * (p.rex - rex) <= lendable * p.rex
    assert p.lendable * (p.rex - rex) == p.lendable * p.rex - rex * p.lendable;
    assert lendable * p.rex == p.lendable * p.rex - proceeds * p.rex;
    SellLeavesShares(p, rex, proceeds);
  }

  lemma SellLeavesShares(p: Pool, rex: int, proceeds: int)
    requires Sound(p) && 0 < rex <= p.rex && proceeds == ValueOf(p, rex)
    ensures p.rex - rex <= REX_RATIO * (p.lendable - proceeds)
    ensures p.rex == rex ==> proceeds == p.lendable
  {
    FloorBounds(rex * p.lendable, p.rex);
    var lendable := p.lendable - proceeds;
    assert p.lendable * (p.rex - rex) <= lendable * p.rex by {
      assert p.lendable * (p.rex - rex) == p.lendable * p.rex - rex * p.lendable;
      assert lendable * p.rex == p.lendable * p.rex - proceeds * p.rex;
    }
    if rex == p.rex {
      assert rex * p.lendable == p.lendable * p.rex;
      FloorAtLeast(p.lendable, rex * p.lendable, p.rex);
      CancelLe(proceeds, p.lendable, p.rex);
    } else {
      // (p.rex - rex) * p.lendable <= lendable * p.rex <= lendable * REX_RATIO * p.lendable
      MulNonneg(p.lendable, p.rex - rex);
      assert 0 <= lendable by { CancelLe(0, lendable, p.rex); }
      MulLe(p.rex, REX_RATIO * p.lendable, lendable);
      assert REX_RATIO * p.lendable * lendable == REX_RATIO * lendable * p.lendable;
      CancelLe(p.rex - rex, REX_RATIO * lendable, p.lendable);
    }
  }

  // Across operations

  /** Renting and letting the loan expire leaves lendable up by exactly the payment and the rent
      connector strictly higher. */
  lemma RentThenExpire(p: Pool, payment: int)
    requires Sound(p) && 0 < p.rex && 0 < payment
    requires 0 < BancorOutput(p.rent, p.unlent, payment).value
    ensures var rented := BancorOutput(p.rent, p.unlent, payment).value;
      var q := RemoveLoan(AddLoan(p, payment, rented, true), rented).value;
      q.lendable == p.lendable + payment && q.lent == p.lent && p.rent < q.rent
  {
    AddLoanKeeps(p, payment, true);
    BancorShare(p.rent, p.unlent, payment);
    var rented := BancorOutput(p.rent, p.unlent, payment).value;
    var during := AddLoan(p, payment, rented, true);
    RemoveLoanKeeps(during, rented);
    BancorShare(during.unlent, during.rent, rented);
    var back := BancorOutput(during.unlent, during.rent, rented).value;
    // back * (p.unlent + payment) <= rented * (p.rent + payment) <= payment * p.unlent
    assert rented + during.unlent == p.unlent + payment;
    assert back * (p.unlent + payment) <= payment * p.unlent;
    assert payment * p.unlent < payment * (p.unlent + payment) by { MulLt(p.unlent, p.unlent + payment, payment); }
    CancelLt(back, payment, p.unlent + payment);
  }

  /** Selling the REX just bought never yields more than was paid. */
  lemma BuyThenSellAtMost(pool: Option<Pool>, payment: int)
    requires 0 < payment && (pool.Some? ==> Sound(pool.value))
    ensures var (q, received) := AddPurchase(pool, payment).value;
      0 < q.rex && ValueOf(q, received) <= payment
  {
    AddPurchaseKeeps(pool, payment);
    var (q, received) := AddPurchase(pool, payment).value;
    if Available(pool) {
      var p := pool.value;
      FloorBounds(q.lendable * p.rex, p.lendable);
      // received * q.lendable = (q.rex - p.rex) * q.lendable <= payment * q.rex
      assert q.rex * p.lendable <= q.lendable * p.rex;
      assert received * q.lendable == q.rex * q.lendable - q.lendable * p.rex;
      assert q.rex * q.lendable == q.rex * p.lendable + q.rex * payment;
      FloorBounds(received * q.lendable, q.rex);
      CancelLe(ValueOf(q, received), payment, q.rex);
    } else {
      assert received == q.rex && q.lendable == payment;
      FloorBounds(received * q.lendable, q.rex);
      assert received * q.lendable == payment * q.rex;
      CancelLe(ValueOf(q, received), payment, q.rex);
    }
  }

  /** And loses at most one unit, as long as there are at least as many shares as units in the pool. */
  lemma BuyThenSellAtLeast(pool: Option<Pool>, payment: int)
    requires 0 < payment && (pool.Some? ==> Sound(pool.value))
    requires Available(pool) ==> pool.value.lendable <= AddPurchase(pool, payment).value.0.rex
    ensures var (q, received) := AddPurchase(pool, payment).value;
      0 < q.rex && payment - 1 <= ValueOf(q, received)
  {
    AddPurchaseKeeps(pool, payment);
    var (q, received) := AddPurchase(pool, payment).value;
    if Available(pool) {
      var p := pool.value;
      FloorBounds(q.lendable * p.rex, p.lendable);
      // q.lendable * p.rex < (q.rex + 1) * p.lendable <= q.rex * p.lendable + q.rex
      assert received * q.lendable == q.rex * q.lendable - q.lendable * p.rex;
      assert q.rex * q.lendable == q.rex * p.lendable + q.rex * payment;
      assert (payment - 1) * q.rex == q.rex * payment - q.rex;
      FloorAtLeast(payment - 1, received * q.lendable, q.rex);
    } else {
      assert received * q.lendable == payment * q.rex;
      FloorAtLeast(payment - 1, received * q.lendable, q.rex) by {
        assert (payment - 1) * q.rex == payment * q.rex - q.rex;
      }
    }
  }
}
