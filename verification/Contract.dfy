/** The system contract as it works: one object whose actions change its tables step by step, proved
    to do what the functions of the other modules say. */
module Contract {
  import opened Outcomes
  import opened Arithmetic
  import opened Sums
  import opened Chain
  import Loans
  import Maturity
  import Pools
  import Rewards
  import Rex
  import Runs
  import Staking
  import System
  import Token
  import Voting

  /** How a step ended. */
  datatype Status = Done | Aborted(error: Abort) {

    predicate IsFailure() {
      Aborted?
    }

    function PropagateFailure(): Status
      requires Aborted?
    {
      this
    }
  }

  function Check(condition: bool, error: Abort): Status {
    if condition then Done else Aborted(error)
  }

  /** A step ended as its specification says: with that value, or for that reason. */
  predicate Ends<T(==)>(status: Status, value: T, spec: Result<T>) {
    match spec
    case Success(expected) => status == Done && value == expected
    case Failure(error) => status == Aborted(error)
  }

  class SystemContract {
    var tokens: Tokens
    var supply: int
    var maxSupply: int
    var pool: Option<Pool>
    var funds: map<Name, int>
    var balances: map<Name, Balance>
    var orders: map<Name, Order>
    var queue: seq<Name>
    var cpuLoans: seq<Loan>
    var netLoans: seq<Loan>
    var delegations: map<(Name, Name), Stake>
    var resources: map<Name, Resources>
    var refunds: map<Name, Refund>
    var votes: Votes
    var pay: Pay

    /** All tables and singletons as one value. */
    function St(): State
      reads this
    {
      State(tokens, supply, maxSupply, pool, funds, balances, orders, queue, cpuLoans, netLoans,
            delegations, resources, refunds, votes, pay)
    }

    constructor (s: State)
      ensures St() == s
    {
      tokens, supply, maxSupply := s.tokens, s.supply, s.maxSupply;
      pool, funds, balances, orders, queue := s.pool, s.funds, s.balances, s.orders, s.queue;
      cpuLoans, netLoans := s.cpuLoans, s.netLoans;
      delegations, resources, refunds := s.delegations, s.resources, s.refunds;
      votes, pay := s.votes, s.pay;
    }

    method RestoreExchange(s: State)
      modifies this`pool, this`funds, this`balances, this`orders, this`queue, this`cpuLoans, this`netLoans
      ensures pool == s.pool && funds == s.funds && balances == s.balances && orders == s.orders
      ensures queue == s.queue && cpuLoans == s.cpuLoans && netLoans == s.netLoans
    {
      pool, funds, balances, orders, queue := s.pool, s.funds, s.balances, s.orders, s.queue;
      cpuLoans, netLoans := s.cpuLoans, s.netLoans;
    }

    method RestoreRest(s: State)
      modifies this`tokens, this`supply, this`maxSupply, this`delegations, this`resources, this`refunds, this`votes, this`pay
      ensures tokens == s.tokens && supply == s.supply && maxSupply == s.maxSupply
      ensures delegations == s.delegations && resources == s.resources && refunds == s.refunds
      ensures votes == s.votes && pay == s.pay
    {
      tokens, supply, maxSupply := s.tokens, s.supply, s.maxSupply;
      delegations, resources, refunds := s.delegations, s.resources, s.refunds;
      votes, pay := s.votes, s.pay;
    }

    /** Takes every table back to a former state. */
    method Restore(s: State)
      modifies this
      ensures St() == s
    {
      RestoreExchange(s);
      RestoreRest(s);
    }

    // Tokens

    method SubBalance(owner: Name, amount: int) returns (status: Status)
      modifies this`tokens
      ensures status == Done <==> owner in old(tokens) && amount <= old(tokens)[owner]
      ensures status == Done ==> tokens == old(tokens)[owner := old(tokens)[owner] - amount]
      ensures status != Done ==>
        status == Aborted(if owner in old(tokens) then OverdrawnBalance else NoTokenBalance)
    {
      status := Done;
      :- Check(owner in tokens, NoTokenBalance);
      :- Check(amount <= tokens[owner], OverdrawnBalance);
      tokens := tokens[owner := tokens[owner] - amount];
      return Done;
    }

    method AddBalance(owner: Name, amount: int)
      modifies this`tokens
      ensures tokens == old(tokens)[owner := At(old(tokens), owner) + amount]
    {
      if owner in tokens {
        tokens := tokens[owner := tokens[owner] + amount];
      } else {
        tokens := tokens[owner := amount];
      }
    }

    method Transfer(from: Name, to: Name, amount: int) returns (status: Status)
      modifies this`tokens
      ensures Ends(status, tokens, Token.Transfer(old(tokens), from, to, amount))
    {
      status := Done;
      :- Check(from != to, TransferToSelf);
      :- Check(0 < amount, MustBePositive);
      :- SubBalance(from, amount);
      AddBalance(to, amount);
      return Done;
    }

    // Stakes

    method ChangeTotals(receiver: Name, net: int, cpu: int) returns (status: Status)
      modifies this`resources
      ensures Ends(status, resources, Staking.ChangeTotals(old(resources), receiver, net, cpu))
    {
      if receiver !in resources {
        resources := resources[receiver := Resources(net, cpu, 0)];
      } else {
        var row := resources[receiver];
        resources := resources[receiver := row.(net := row.net + net, cpu := row.cpu + cpu)];
      }
      :- Check(0 <= resources[receiver].net, NegativeNetTotal);
      :- Check(0 <= resources[receiver].cpu, NegativeCpuTotal);
      if resources[receiver] == Resources(0, 0, 0) {
        resources := resources - {receiver};
        assert resources == old(resources) - {receiver};
      }
      return Done;
    }

    method UpdateResources(receiver: Name, net: int, cpu: int) returns (status: Status)
      modifies this`resources
      ensures Ends(status, resources, Staking.UpdateResources(old(resources), receiver, net, cpu))
    {
      if net == 0 && cpu == 0 { return Done; }
      :- Check(receiver in resources || (0 <= net && 0 <= cpu), ResourceRowMissing);
      status := ChangeTotals(receiver, net, cpu);
    }

    method ChangeDelegation(from: Name, to: Name, net: int, cpu: int) returns (status: Status)
      modifies this`delegations
      ensures Ends(status, delegations, Staking.ChangeDelegation(old(delegations), from, to, net, cpu))
    {
      var key := (from, to);
      if key !in delegations {
        delegations := delegations[key := Stake(net, cpu)];
      } else {
        var row := delegations[key];
        delegations := delegations[key := Stake(row.net + net, row.cpu + cpu)];
      }
      :- Check(0 <= delegations[key].net, NegativeNetStake);
      :- Check(0 <= delegations[key].cpu, NegativeCpuStake);
      if delegations[key] == Stake(0, 0) {
        delegations := delegations - {key};
        assert delegations == old(delegations) - {key};
      }
      return Done;
    }

    // The pool

    method AddToRexPool(payment: int) returns (status: Status, received: int)
      modifies this`pool
      ensures match Pools.AddPurchase(old(pool), payment)
        case Success((bought, amount)) => status == Done && pool == Some(bought) && received == amount
        case Failure(error) => status == Aborted(error)
    {
      received := 0;
      if pool.None? {
        received := payment * REX_RATIO;
        pool := Some(Pool(0, payment, INITIAL_RENT, payment, received, 0, 0));
      } else if pool.value.rex <= 0 {
        received := payment * REX_RATIO;
        pool := Some(pool.value.(lendable := payment, lent := 0, unlent := payment, rent := INITIAL_RENT, rex := received));
      } else {
        :- Check(0 < pool.value.lendable, EmptyLendablePool);
        var s0, r0 := pool.value.lendable, pool.value.rex;
        var s1 := s0 + payment;
        var r1 := s1 * r0 / s0;
        received := r1 - r0;
        pool := Some(pool.value.(lendable := s1, rex := r1, unlent := s1 - pool.value.lent));
        :- Check(0 <= pool.value.unlent, NegativeUnlent);
      }
      return Done, received;
    }

    method AddLoanToRexPool(payment: int, rented: int, isNew: bool)
      requires pool.Some?
      modifies this`pool
      ensures pool == Some(Pools.AddLoan(old(pool).value, payment, rented, isNew))
    {
      var p := pool.value;
      p := p.(rent := p.rent + payment);
      p := p.(unlent := p.unlent - rented, lent := p.lent + rented);
      p := p.(unlent := p.unlent + payment);
      p := p.(lendable := p.unlent + p.lent);
      if isNew {
        p := p.(loanNum := p.loanNum + 1);
      }
      pool := Some(p);
    }

    method Quotient(a: int, b: int) returns (out: int)
      requires b != 0
      ensures out == Pools.Quotient(a, b)
    {
      out := 0;
      if 0 < b {
        if 0 <= a { out := a / b; }
      } else if a <= 0 {
        out := -a / -b;
      }
    }

    method BancorOutput(conin: int, conout: int, input: int) returns (status: Status, out: int)
      ensures Ends(status, out, Pools.BancorOutput(conin, conout, input))
    {
      hide Pools.Quotient;
      out := 0;
      :- Check(input + conin != 0, DivisionByZero);
      out := Quotient(input * conout, input + conin);
      return Done, out;
    }

    method RemoveLoanFromRexPool(staked: int) returns (status: Status)
      requires pool.Some?
      modifies this`pool
      ensures pool.Some? && Ends(status, pool.value, Pools.RemoveLoan(old(pool).value, staked))
    {
      var back :- BancorOutput(pool.value.unlent, pool.value.rent, staked);
      var p := pool.value;
      p := p.(rent := p.rent - back);
      p := p.(unlent := p.unlent + staked, lent := p.lent - staked);
      pool := Some(p.(lendable := p.unlent + p.lent));
      return Done;
    }

    // Funds and fees

    method TransferFromFund(owner: Name, amount: int) returns (status: Status)
      modifies this`funds
      ensures Ends(status, St(), Rex.TransferFromFund(old(St()), owner, amount))
    {
      status := Done;
      :- Check(0 < amount, MustBePositive);
      :- Check(owner in funds, MustDepositFirst);
      :- Check(amount <= funds[owner], InsufficientFunds);
      funds := funds[owner := funds[owner] - amount];
      return Done;
    }

    method TransferToFund(owner: Name, amount: int) returns (status: Status)
      modifies this`funds
      ensures Ends(status, St(), Rex.TransferToFund(old(St()), owner, amount))
    {
      status := Done;
      :- Check(0 < amount, MustBePositive);
      if owner !in funds {
        funds := funds[owner := amount];
      } else {
        funds := funds[owner := funds[owner] + amount];
      }
      return Done;
    }

    method ChannelToRex(from: Name, amount: int) returns (status: Status)
      modifies this`pool, this`tokens
      ensures Ends(status, St(), Rex.ChannelToRex(old(St()), from, amount))
    {
      if Pools.Available(pool) {
        pool := Some(pool.value.(unlent := pool.value.unlent + amount, lendable := pool.value.lendable + amount));
        :- Transfer(from, REX, amount);
      }
      return Done;
    }

    // Expired loans

    method SetLoans(kind: LoanKind, loans: seq<Loan>)
      modifies this`cpuLoans, this`netLoans
      ensures St() == Rex.WithLoans(old(St()), kind, loans)
    {
      if kind == Cpu { cpuLoans := loans; } else { netLoans := loans; }
    }

    /** Renews the first loan of a table, whose stake has been taken back into the pool. */
    method RenewLoan(kind: LoanKind, rented: int) returns (status: Status)
      requires pool.Some? && Rex.LoansOf(St(), kind) != []
      modifies this
      ensures Ends(status, St(), Rex.RenewLoan(old(St()), kind, old(pool).value, rented))
    {
      hide Staking.UpdateResources, Pools.AddLoan, Loans.Insert;
      var loans := Rex.LoansOf(St(), kind);
      var loan := loans[0];
      AddLoanToRexPool(loan.payment, rented, false);
      var renewed := loan.(staked := rented, expiration := loan.expiration + LOAN_TERM, balance := loan.balance - loan.payment);
      SetLoans(kind, Loans.Insert(loans[1..], renewed));
      status := StakeTo(kind, loan.receiver, rented - loan.staked);
    }

    /** Deletes the first loan of a table and refunds what it has set aside. */
    method CloseLoan(kind: LoanKind) returns (status: Status)
      requires pool.Some? && Rex.LoansOf(St(), kind) != []
      modifies this
      ensures Ends(status, St(), Rex.CloseLoan(old(St()), kind, old(pool).value))
    {
      hide Staking.UpdateResources;
      var loans := Rex.LoansOf(St(), kind);
      SetLoans(kind, loans[1..]);
      if 0 < loans[0].balance {
        status := TransferToFund(loans[0].from, loans[0].balance);
        assert status == Done;
      }
      status := StakeTo(kind, loans[0].receiver, -loans[0].staked);
    }

    method StakeTo(kind: LoanKind, receiver: Name, delta: int) returns (status: Status)
      modifies this`resources
      ensures Ends(status, St(), Rex.StakeTo(old(St()), kind, receiver, delta))
    {
      hide Staking.UpdateResources;
      if kind == Cpu {
        :- UpdateResources(receiver, 0, delta);
      } else {
        :- UpdateResources(receiver, delta, 0);
      }
      return Done;
    }

    /** Renews the first loan of a table if its terms allow, or deletes it. */
    method RenewOrClose(kind: LoanKind, rented: int) returns (status: Status)
      requires pool.Some? && Rex.LoansOf(St(), kind) != []
      modifies this
      ensures Ends(status, St(), RenewedOrClosed(old(St()), kind, rented))
    {
      hide Rex.RenewLoan, Rex.CloseLoan;
      var loan := Rex.LoansOf(St(), kind)[0];
      if loan.payment <= loan.balance && loan.payment < rented && Pools.Available(pool) && queue == [] {
        status := RenewLoan(kind, rented);
      } else {
        status := CloseLoan(kind);
      }
    }

    /** Renews or deletes the first loan of a table, whose term is over. */
    method ProcessExpiredLoan(kind: LoanKind) returns (status: Status)
      requires pool.Some? && Rex.LoansOf(St(), kind) != []
      modifies this
      ensures Ends(status, St(), Rex.ExpireLoan(old(St()), kind))
    {
      hide Pools.RemoveLoan, Pools.BancorOutput, RenewedOrClosed, Rex.ExpireLoan;
      ExpireLoanSteps(St(), kind);
      var loan := Rex.LoansOf(St(), kind)[0];
      :- RemoveLoanFromRexPool(loan.staked);
      var rented :- BancorOutput(pool.value.rent, pool.value.unlent, loan.payment);
      status := RenewOrClose(kind, rented);
    }

    method ProcessExpiredLoans(now: int, kind: LoanKind, max: nat) returns (status: Status)
      requires pool.Some?
      modifies this
      ensures Ends(status, St(), Rex.ExpireLoans(old(St()), now, kind, max))
    {
      hide Rex.ExpireLoan;
      var i := 0;
      while i < max && Rex.LoansOf(St(), kind) != [] && Rex.LoansOf(St(), kind)[0].expiration <= now
        invariant 0 <= i <= max && pool.Some?
        invariant Rex.ExpireLoans(old(St()), now, kind, max) == Rex.ExpireLoans(St(), now, kind, max - i)
      {
        :- ProcessExpiredLoan(kind);
        i := i + 1;
      }
      return Done;
    }

    // Sell orders

    /** Sells REX of a balance at the pool price, if enough stays unlent. */
    method FillRexOrder(owner: Name, rex: int) returns (status: Status, success: bool, proceeds: int, stakeChange: int)
      requires pool.Some? && owner in balances
      modifies this`pool, this`balances
      ensures match Pools.Sell(old(pool).value, old(balances)[owner], rex)
        case Failure(error) => status == Aborted(error)
        case Success(Filled(p, b, amount, change)) =>
          && status == Done && success && pool == Some(p) && balances == old(balances)[owner := b]
          && proceeds == amount && stakeChange == change
        case Success(Unfilled) =>
          && status == Done && !success && pool == old(pool) && balances == old(balances) && proceeds == 0 && stakeChange == 0
    {
      success, proceeds, stakeChange := false, 0, 0;
      var s0, r0 := pool.value.lendable, pool.value.rex;
      :- Check(r0 != 0, DivisionByZero);
      var p := rex * s0 / r0;
      var r1, s1 := r0 - rex, s0 - p;
      var unlentLowerBound := 2 * pool.value.lent / 10;
      var availableUnlent := pool.value.unlent - unlentLowerBound;
      if p <= availableUnlent {
        var b := balances[owner];
        var stakeValue := b.rex * s0 / r0;
        pool := Some(pool.value.(rex := r1, lendable := s1, unlent := s1 - pool.value.lent));
        balances := balances[owner := b.(voteStake := stakeValue - p, rex := b.rex - rex, matured := b.matured - rex)];
        success, proceeds, stakeChange := true, p, balances[owner].voteStake - b.voteStake;
      }
      return Done, success, proceeds, stakeChange;
    }

    /** Tries to fill the order at a position of the queue. */
    method ProcessSellOrder(at: nat) returns (status: Status)
      requires pool.Some? && at < |queue|
      modifies this
      ensures Ends(status, St(), Rex.FillOrder(old(St()), at))
    {
      hide Pools.Sell;
      var owner := queue[at];
      if owner in orders && owner in balances {
        var success, proceeds, stakeChange :- FillRexOrder(owner, orders[owner].requested);
        if success {
          orders := orders[owner := orders[owner].(proceeds := proceeds, stakeChange := stakeChange, open := false)];
          queue := queue[..at] + queue[at + 1..];
        }
      }
      return Done;
    }

    /** Tries to fill up to `max` orders, the oldest first. */
    method ProcessSellOrders(max: nat) returns (status: Status)
      requires pool.Some?
      modifies this
      ensures Ends(status, St(), Rex.FillOrders(old(St()), 0, max))
    {
      hide Rex.FillOrder;
      var i, at := 0, 0;
      while i < max && at < |queue|
        invariant 0 <= i <= max && 0 <= at <= |queue| && pool.Some?
        invariant Rex.FillOrders(old(St()), 0, max) == Rex.FillOrders(St(), at, max - i)
      {
        var waiting := |queue|;
        :- ProcessSellOrder(at);
        if |queue| == waiting { at := at + 1; }
        i := i + 1;
      }
      return Done;
    }

    /** The maintenance. */
    method RunRex(now: int, max: nat) returns (status: Status)
      modifies this
      ensures Ends(status, St(), Rex.RunRex(old(St()), now, max))
    {
      hide Rex.ChannelToRex, Rex.ExpireLoans, Rex.FillOrders;
      :- Check(pool.Some?, RexNotInitialized);
      if 0 < pool.value.namebid {
        :- ChannelToRex(NAMES, pool.value.namebid);
        assert pool.Some? by { ChannelKeepsPool(old(St()), NAMES, old(pool).value.namebid); }
        pool := Some(pool.value.(namebid := 0));
      }
      :- ProcessExpiredLoans(now, Cpu, max);
      :- ProcessExpiredLoans(now, Net, max);
      status := ProcessSellOrders(max);
    }

    // Votes

    method UpdateTotalShare(now: int, shareDelta: int, rateDelta: int)
      modifies this`votes
      ensures votes == Voting.UpdateTotalShare(old(votes), now, shareDelta, rateDelta)
      ensures votes.voters == old(votes).voters && votes.producers == old(votes).producers
    {
      var delta := 0;
      if votes.shareTime < now {
        delta := votes.shareRate * (now - votes.shareTime);
      }
      delta := delta + shareDelta;
      if delta < 0 && votes.totalShare < -delta {
        votes := votes.(totalShare := 0);
      } else {
        votes := votes.(totalShare := votes.totalShare + delta);
      }
      if rateDelta < 0 && votes.shareRate < -rateDelta {
        votes := votes.(shareRate := 0);
      } else {
        votes := votes.(shareRate := votes.shareRate + rateDelta);
      }
      votes := votes.(shareTime := now);
    }

    method CheckSorted(names: seq<Name>) returns (status: Status)
      ensures status == if Voting.Sorted(names) then Done else Aborted(ProducersNotSorted)
    {
      var i := 1;
      while i < |names|
        invariant 1 <= i && forall j :: 0 < j < i && j < |names| ==> names[j - 1] < names[j]
      {
        :- Check(names[i - 1] < names[i], ProducersNotSorted);
        i := i + 1;
      }
      return Done;
    }

    method CastEach(deltas: Voting.Deltas, names: seq<Name>, weight: int, isNew: bool) returns (cast: Voting.Deltas)
      ensures cast == Voting.Cast(deltas, names, weight, isNew)
    {
      cast := deltas;
      var i := 0;
      while i < |names|
        invariant 0 <= i <= |names|
        invariant Voting.Cast(deltas, names, weight, isNew) == Voting.Cast(cast, names[i..], weight, isNew)
      {
        var change := if names[i] in cast then cast[names[i]].change else 0;
        cast := cast[names[i] := Voting.Delta(change + weight, isNew)];
        assert names[i..][1..] == names[i + 1..];
        i := i + 1;
      }
    }

    /** One producer's part of a vote; yields what it adds to the rate of shares and to the shares of
        producers that dropped out. */
    method ApplyDelta(now: int, name: Name, delta: Voting.Delta) returns (rateDelta: int, inactive: int)
      requires name in votes.producers
      modifies this`votes
      ensures var t := Voting.ApplyDelta(Voting.Tally(old(votes).producers, old(votes).totalWeight, 0, 0), name, delta, now);
        && votes == old(votes).(producers := t.producers, totalWeight := t.totalWeight)
        && rateDelta == t.rateDelta && inactive == t.inactiveShare
    {
      rateDelta, inactive := 0, 0;
      var p := votes.producers[name];
      var initVotes := p.votes;
      p := p.(votes := p.votes + delta.change);
      if p.votes < 0 { p := p.(votes := 0); }
      var crossed := p.lastClaim + Voting.SHARE_CUTOFF <= now;
      var updatedAfter := p.lastClaim + Voting.SHARE_CUTOFF <= p.lastShare;
      var rate := if updatedAfter then 0 else initVotes;
      var share := p.share;
      if 0 < rate && p.lastShare < now {
        share := share + rate * (now - p.lastShare);
      }
      p := p.(share := if crossed && !updatedAfter then 0 else share, lastShare := now);
      votes := votes.(producers := votes.producers[name := p], totalWeight := votes.totalWeight + delta.change);
      if !crossed {
        rateDelta := delta.change;
      } else if !updatedAfter {
        inactive := share;
        rateDelta := -initVotes;
      }
    }

    method ApplyDeltas(now: int, deltas: Voting.Deltas, voting: bool) returns (status: Status, rateDelta: int, inactive: int)
      modifies this`votes
      ensures match Voting.ApplyDeltas(Voting.Tally(old(votes).producers, old(votes).totalWeight, 0, 0), deltas, now, voting)
        case Failure(error) => status == Aborted(error)
        case Success(t) =>
          && status == Done && votes == old(votes).(producers := t.producers, totalWeight := t.totalWeight)
          && rateDelta == t.rateDelta && inactive == t.inactiveShare
    {
      hide Voting.ApplyDelta;
      rateDelta, inactive := 0, 0;
      var rest := deltas;
      while rest != map[]
        invariant votes == old(votes).(producers := votes.producers, totalWeight := votes.totalWeight)
        invariant Voting.ApplyDeltas(Voting.Tally(old(votes).producers, old(votes).totalWeight, 0, 0), deltas, now, voting)
               == Voting.ApplyDeltas(Voting.Tally(votes.producers, votes.totalWeight, rateDelta, inactive), rest, now, voting)
        decreases |rest|
      {
        var name := Voting.Least(rest.Keys);
        var delta := rest[name];
        if name in votes.producers {
          :- Check(!voting || votes.producers[name].active || !delta.isNew, ProducerInactive);
          DeltaAdds(Voting.Tally(votes.producers, votes.totalWeight, rateDelta, inactive), name, delta, now);
          var rateChange, dropped := ApplyDelta(now, name, delta);
          rateDelta, inactive := rateDelta + rateChange, inactive + dropped;
        } else {
          :- Check(!delta.isNew, ProducerNotRegistered);
        }
        rest := rest - {name};
      }
      return Done, rateDelta, inactive;
    }

    method UpdateVotes(now: int, name: Name, names: seq<Name>, voting: bool) returns (status: Status)
      modifies this`votes
      ensures Ends(status, votes, Voting.UpdateVotes(old(votes), now, name, names, voting))
    {
      hide Voting.Sorted, Voting.Cast, Voting.ApplyDeltas, Voting.UpdateTotalShare;
      :- Check(|names| <= Voting.MAX_PRODUCERS, TooManyProducers);
      :- CheckSorted(names);
      :- Check(name in votes.voters, NoVoter);
      var voter := votes.voters[name];
      if voter.lastWeight <= 0 {
        votes := votes.(activatedStake := votes.activatedStake + voter.staked);
        if Voting.MIN_ACTIVATED_STAKE <= votes.activatedStake && votes.activationTime == 0 {
          votes := votes.(activationTime := now);
        }
      }
      var weight := Voting.VoteWeight(voter.staked);
      var deltas: Voting.Deltas := map[];
      if 0 < voter.lastWeight {
        deltas := CastEach(deltas, voter.producers, -voter.lastWeight, false);
      }
      if 0 <= weight {
        deltas := CastEach(deltas, names, weight, true);
      }
      var rateDelta, inactive :- ApplyDeltas(now, deltas, voting);
      UpdateTotalShare(now, -inactive, rateDelta);
      votes := votes.(voters := votes.voters[name := voter.(lastWeight := weight, producers := names)]);
      return Done;
    }

    method UpdateVotingPower(now: int, name: Name, delta: int) returns (status: Status)
      modifies this`votes
      ensures Ends(status, votes, Voting.UpdateVotingPower(old(votes), now, name, delta))
    {
      hide Voting.UpdateVotes, Voting.B1Locked;
      if name !in votes.voters {
        votes := votes.(voters := votes.voters[name := Voter([], delta, 0, 0, 0)]);
      } else {
        var voter := votes.voters[name];
        votes := votes.(voters := votes.voters[name := voter.(staked := voter.staked + delta)]);
      }
      :- Check(0 <= votes.voters[name].staked, NegativeVotingStake);
      if name == B1 {
        :- Check(Voting.B1Locked(now) <= votes.voters[name].staked, B1Vesting);
      }
      if votes.voters[name].producers != [] {
        :- UpdateVotes(now, name, votes.voters[name].producers, false);
      }
      return Done;
    }

    // REX balances

    /** Takes the savings bucket off a balance and yields its amount. */
    method ReadRexSavings(owner: Name) returns (savings: int)
      requires owner in balances
      modifies this`balances
      ensures savings == Maturity.SavingsOf(old(balances)[owner])
      ensures balances == old(balances)[owner := Maturity.WithoutSavings(old(balances)[owner])]
    {
      savings := 0;
      var b := balances[owner];
      if b.buckets != [] && b.buckets[|b.buckets| - 1].date == END_OF_DAYS {
        savings := b.buckets[|b.buckets| - 1].amount;
        balances := balances[owner := b.(buckets := b.buckets[..|b.buckets| - 1])];
      }
    }

    method AddToBucket(owner: Name, date: int, amount: int)
      requires owner in balances
      modifies this`balances
      ensures var b := old(balances)[owner];
        balances == old(balances)[owner := b.(buckets := Maturity.AddBucket(b.buckets, date, amount))]
    {
      var b := balances[owner];
      var n := |b.buckets|;
      if b.buckets != [] && b.buckets[n - 1].date == date {
        var grown := b.buckets[n - 1 := Bucket(date, b.buckets[n - 1].amount + amount)];
        assert grown == b.buckets[..n - 1] + [Bucket(date, b.buckets[n - 1].amount + amount)];
        balances := balances[owner := b.(buckets := grown)];
      } else {
        balances := balances[owner := b.(buckets := b.buckets + [Bucket(date, amount)])];
      }
    }

    method PutRexSavings(owner: Name, amount: int)
      requires owner in balances
      modifies this`balances
      ensures balances == old(balances)[owner := Maturity.PutSavings(old(balances)[owner], amount)]
    {
      if amount == 0 { return; }
      AddToBucket(owner, END_OF_DAYS, amount);
    }

    /** Moves the buckets whose date has come into the matured amount. */
    method ProcessRexMaturities(now: int, owner: Name)
      requires owner in balances
      modifies this`balances
      ensures balances == old(balances)[owner := Maturity.Mature(old(balances)[owner], Seconds(now))]
    {
      while balances[owner].buckets != [] && balances[owner].buckets[0].date <= Seconds(now)
        invariant owner in balances && balances == old(balances)[owner := balances[owner]]
        invariant Maturity.Mature(balances[owner], Seconds(now)) == Maturity.Mature(old(balances)[owner], Seconds(now))
        decreases |balances[owner].buckets|
      {
        var b := balances[owner];
        balances := balances[owner := b.(matured := b.matured + b.buckets[0].amount, buckets := b.buckets[1..])];
      }
    }

    /** Gathers what is neither in savings nor in an open order into one bucket. */
    method ConsolidateRexBalance(now: int, owner: Name, inOrder: int)
      requires owner in balances
      modifies this`balances
      ensures balances == old(balances)[owner := Maturity.Consolidate(old(balances)[owner], now, inOrder)]
    {
      var savings := ReadRexSavings(owner);
      var b := balances[owner];
      var total := b.matured - inOrder;
      var left := b.buckets;
      while left != []
        invariant total + Maturity.AmountOf(left) == b.matured - inOrder + Maturity.AmountOf(b.buckets)
        decreases |left|
      {
        total := total + left[0].amount;
        left := left[1..];
      }
      balances := balances[owner := b.(matured := inOrder, buckets := if 0 < total then [Bucket(MaturityDate(now), total)] else [])];
      PutRexSavings(owner, savings);
    }

    /** Takes REX from the buckets, the furthest first; yields what is still missing. */
    method TakeFurthest(owner: Name, amount: int) returns (left: int)
      requires owner in balances
      modifies this`balances
      ensures var b := old(balances)[owner];
        && balances == old(balances)[owner := b.(buckets := Maturity.TakeFurthest(b.buckets, amount).0)]
        && left == Maturity.TakeFurthest(b.buckets, amount).1
    {
      left := amount;
      while balances[owner].buckets != [] && 0 < left
        invariant owner in balances
        invariant balances == old(balances)[owner := old(balances)[owner].(buckets := balances[owner].buckets)]
        invariant Maturity.TakeFurthest(balances[owner].buckets, left) == Maturity.TakeFurthest(old(balances)[owner].buckets, amount)
        decreases |balances[owner].buckets|, left
      {
        var b := balances[owner];
        var n := |b.buckets|;
        var last := b.buckets[n - 1];
        var taken := Min(left, last.amount);
        left := left - taken;
        if last.amount - taken == 0 {
          balances := balances[owner := b.(buckets := b.buckets[..n - 1])];
        } else {
          balances := balances[owner := b.(buckets := b.buckets[..n - 1] + [Bucket(last.date, last.amount - taken)])];
        }
      }
    }

    // Shared steps of the actions

    /** Pays out the owner's filled order and books its stake change; yields the REX in an open order. */
    method UpdateRexAccount(now: int, owner: Name, proceeds: int, stakeChange: int, force: bool)
      returns (status: Status, inOrder: int)
      modifies this
      ensures match Rex.UpdateRexAccount(old(St()), now, owner, proceeds, stakeChange, force)
        case Success((t, rex)) => status == Done && St() == t && inOrder == rex
        case Failure(error) => status == Aborted(error)
    {
      hide Voting.UpdateVotingPower;
      inOrder := 0;
      var toFund, toStake := proceeds, stakeChange;
      if owner in orders {
        var order := orders[owner];
        if order.open {
          inOrder := order.requested;
        } else {
          toFund := toFund + order.proceeds;
          toStake := toStake + order.stakeChange;
          orders := orders - {owner};
        }
      }
      if 0 < toFund {
        status := TransferToFund(owner, toFund);
        assert status == Done;
      }
      if force || toStake != 0 {
        :- UpdateVotingPower(now, owner, toStake);
      }
      return Done, inOrder;
    }

    /** Adds REX just bought to the owner's balance; yields the change in vote stake. */
    method AddToRexBalance(now: int, owner: Name, payment: int, received: int) returns (status: Status, change: int)
      requires pool.Some?
      modifies this`balances
      ensures var known := owner in old(balances);
        var was := if known then old(balances)[owner] else Balance(0, 0, 0, []);
        if known && pool.value.rex == 0 then status == Aborted(DivisionByZero)
        else
          var stake := if known then Pools.ValueOf(pool.value, was.rex + received) else payment;
          && status == Done && change == stake - was.voteStake
          && balances
             == old(balances)[owner := Maturity.AddMaturing(was.(rex := was.rex + received, voteStake := stake), now, received)]
    {
      change := 0;
      var initStake := 0;
      if owner !in balances {
        balances := balances[owner := Balance(payment, received, 0, [])];
      } else {
        :- Check(pool.value.rex != 0, DivisionByZero);
        var b := balances[owner];
        initStake := b.voteStake;
        b := b.(rex := b.rex + received);
        balances := balances[owner := b.(voteStake := b.rex * pool.value.lendable / pool.value.rex)];
      }
      var currentStake := balances[owner].voteStake;
      var savings := ReadRexSavings(owner);
      ProcessRexMaturities(now, owner);
      AddToBucket(owner, MaturityDate(now), received);
      PutRexSavings(owner, savings);
      return Done, currentStake - initStake;
    }

    method Purchase(now: int, owner: Name, payment: int) returns (status: Status, change: int)
      modifies this
      ensures match Rex.Purchase(old(St()), now, owner, payment)
        case Success((t, stake)) => status == Done && St() == t && change == stake
        case Failure(error) => status == Aborted(error)
    {
      hide Pools.AddPurchase, Maturity.AddMaturing;
      change := 0;
      var received :- AddToRexPool(payment);
      change :- AddToRexBalance(now, owner, payment, received);
      return Done, change;
    }

    /** Brings a voter's stake up to date with the value of its REX. */
    method UpdateRexStake(voter: Name)
      modifies this`balances, this`votes
      ensures St() == Staking.UpdateRexStake(old(St()), voter)
    {
      var delta := 0;
      if voter in balances && Pools.Available(pool) {
        var b := balances[voter];
        var stake := b.rex * pool.value.lendable / pool.value.rex;
        balances := balances[voter := b.(voteStake := stake)];
        delta := stake - b.voteStake;
      }
      if delta != 0 && voter in votes.voters {
        var row := votes.voters[voter];
        votes := votes.(voters := votes.voters[voter := row.(staked := row.staked + delta)]);
      }
    }

    // Actions of the exchange

    method Deposit(owner: Name, amount: int) returns (status: Status)
      modifies this
      ensures Ends(status, St(), Rex.Deposit(old(St()), owner, amount))
    {
      status := Done;
      :- Check(0 < amount, MustBePositive);
      :- Transfer(owner, REX, amount);
      status := TransferToFund(owner, amount);
    }

    method Withdraw(now: int, owner: Name, amount: int) returns (status: Status)
      modifies this
      ensures Ends(status, St(), Rex.Withdraw(old(St()), now, owner, amount))
    {
      hide Rex.UpdateRexAccount;
      :- Check(0 < amount, MustBePositive);
      var inOrder :- UpdateRexAccount(now, owner, 0, 0, false);
      :- TransferFromFund(owner, amount);
      status := Transfer(REX, owner, amount);
    }

    method BuyRex(now: int, from: Name, amount: int) returns (status: Status)
      modifies this
      ensures Ends(status, St(), Rex.BuyRex(old(St()), now, from, amount))
    {
      hide Rex.UpdateRexAccount, Rex.RunRex, Rex.Purchase, Rex.TransferFromFund;
      :- Check(0 < amount, MustBePositive);
      :- Check(Rex.MayBuyRex(votes, from), VotingRequirementUnmet);
      :- TransferFromFund(from, amount);
      var change :- Purchase(now, from, amount);
      :- RunRex(now, Rex.MAINTENANCE);
      var inOrder :- UpdateRexAccount(now, from, 0, change, false);
      return Done;
    }

    /** Takes staked tokens out of a delegation and moves them to the exchange. */
    method Unstake(owner: Name, receiver: Name, net: int, cpu: int) returns (status: Status)
      modifies this`delegations, this`resources, this`tokens
      ensures Ends(status, St(), Rex.Unstake(old(St()), owner, receiver, net, cpu))
    {
      hide Staking.ChangeDelegation, Staking.UpdateResources, Token.Transfer;
      status := Done;
      :- Check(0 <= net && 0 <= cpu && (0 < net || 0 < cpu), MustBePositive);
      :- Check(Rex.MayBuyRex(votes, owner), VotingRequirementUnmet);
      :- Check((owner, receiver) in delegations, NoDelegation);
      :- ChangeDelegation(owner, receiver, -net, -cpu);
      :- UpdateResources(receiver, -net, -cpu);
      status := Transfer(STAKE, REX, net + cpu);
    }

    method UnstakeToRex(now: int, owner: Name, receiver: Name, net: int, cpu: int) returns (status: Status)
      modifies this
      ensures Ends(status, St(), Rex.UnstakeToRex(old(St()), now, owner, receiver, net, cpu))
    {
      hide Rex.UpdateRexAccount, Rex.RunRex, Rex.Purchase, Rex.Unstake;
      :- Unstake(owner, receiver, net, cpu);
      var change :- Purchase(now, owner, net + cpu);
      :- RunRex(now, Rex.MAINTENANCE);
      var inOrder :- UpdateRexAccount(now, owner, 0, 0, true);
      return Done;
    }

    /** Opens a sell order, or adds to the owner's. */
    method QueueOrder(now: int, owner: Name, rex: int)
      modifies this`orders, this`queue
      ensures St() == Rex.QueueOrder(old(St()), now, owner, rex)
    {
      if owner !in orders {
        queue := Rex.Enqueue(queue, orders, now, owner);
        orders := orders[owner := Order(rex, 0, 0, now, true)];
      } else {
        orders := orders[owner := orders[owner].(requested := orders[owner].requested + rex)];
      }
    }

    method SellRex(now: int, from: Name, rex: int) returns (status: Status)
      modifies this
      ensures Ends(status, St(), Rex.SellRex(old(St()), now, from, rex))
    {
      hide Rex.UpdateRexAccount, Rex.RunRex, Pools.Sell, Maturity.Mature, Rex.QueueOrder;
      :- RunRex(now, Rex.MAINTENANCE);
      assert pool.Some?;
      :- Check(from in balances, NoRexBalance);
      :- Check(0 < rex, MustBePositive);
      ghost var maintained := balances;
      ProcessRexMaturities(now, from);
      :- Check(rex <= balances[from].matured, InsufficientRex);
      var success, proceeds, change :- FillRexOrder(from, rex);
      assert balances == maintained[from := balances[from]];
      if success {
        :- Check(proceeds != 0, NegligibleProceeds);
      }
      var pending :- UpdateRexAccount(now, from, proceeds, change, false);
      if !success {
        :- Check(from != B1, B1MustNotQueue);
        QueueOrder(now, from, rex);
        pending := orders[from].requested;
      }
      status := Check(pending <= balances[from].matured, OrdersExceedMatured);
    }

    method CancelOrder(owner: Name) returns (status: Status)
      modifies this
      ensures Ends(status, St(), Rex.CancelOrder(old(St()), owner))
    {
      status := Done;
      :- Check(owner in orders, NoOrder);
      :- Check(orders[owner].open, OrderAlreadyFilled);
      orders := orders - {owner};
      queue := Rex.Dequeue(queue, owner);
      return Done;
    }

    method RentRex(now: int, kind: LoanKind, from: Name, receiver: Name, payment: int, fund: int) returns (status: Status)
      modifies this
      ensures Ends(status, St(), Rex.Rent(old(St()), now, kind, from, receiver, payment, fund))
    {
      hide Rex.RunRex, Rex.TransferFromFund, Pools.BancorOutput, Pools.AddLoan, Loans.Insert, Staking.UpdateResources;
      :- RunRex(now, Rex.MAINTENANCE);
      :- Check(Pools.Available(pool) && queue == [], LoansUnavailable);
      :- Check(0 < payment && 0 <= fund, MustBePositive);
      ghost var maintained := St();
      :- TransferFromFund(from, payment + fund);
      FromFundPool(maintained, from, payment + fund);
      var rented :- BancorOutput(pool.value.rent, pool.value.unlent, payment);
      :- Check(payment < rented, LoanPriceUnfavourable);
      AddLoanToRexPool(payment, rented, true);
      var loan := Loan(from, receiver, payment, fund, rented, pool.value.loanNum, now + LOAN_TERM);
      SetLoans(kind, Loans.Insert(Rex.LoansOf(St(), kind), loan));
      status := UpdateResources(receiver, if kind == Net then rented else 0, if kind == Cpu then rented else 0);
    }

    method FindPosition(loans: seq<Loan>, num: nat) returns (at: nat)
      ensures at <= |loans|
      ensures Loans.Find(loans, num) == if at < |loans| then Some(at) else None
    {
      at := 0;
      while at < |loans| && loans[at].num != num
        invariant at <= |loans|
        invariant Loans.Find(loans, num) == Shifted(Loans.Find(loans[at..], num), at)
      {
        assert loans[at..][1..] == loans[at + 1..];
        at := at + 1;
      }
    }

    /** The position of a creator's running loan. */
    method FindLoan(now: int, kind: LoanKind, from: Name, num: nat) returns (status: Status, at: nat)
      ensures Ends(status, at, Rex.FindLoan(St(), now, kind, from, num))
      ensures status.Done? ==> at < |Rex.LoansOf(St(), kind)|
    {
      hide Loans.Find;
      var loans := Rex.LoansOf(St(), kind);
      at := FindPosition(loans, num);
      :- Check(at < |loans|, LoanNotFound);
      :- Check(loans[at].from == from, NotLoanCreator);
      :- Check(now < loans[at].expiration, LoanExpired);
      return Done, at;
    }

    method FundRexLoan(now: int, kind: LoanKind, from: Name, num: nat, payment: int) returns (status: Status)
      modifies this
      ensures Ends(status, St(), Rex.FundLoan(old(St()), now, kind, from, num, payment))
    {
      hide Rex.FindLoan;
      :- TransferFromFund(from, payment);
      var at :- FindLoan(now, kind, from, num);
      var loans := Rex.LoansOf(St(), kind);
      SetLoans(kind, loans[at := loans[at].(balance := loans[at].balance + payment)]);
      return Done;
    }

    method DefundRexLoan(now: int, kind: LoanKind, from: Name, num: nat, amount: int) returns (status: Status)
      modifies this
      ensures Ends(status, St(), Rex.DefundLoan(old(St()), now, kind, from, num, amount))
    {
      hide Rex.FindLoan;
      var at :- FindLoan(now, kind, from, num);
      var loans := Rex.LoansOf(St(), kind);
      :- Check(amount <= loans[at].balance, InsufficientLoanBalance);
      SetLoans(kind, loans[at := loans[at].(balance := loans[at].balance - amount)]);
      status := TransferToFund(from, amount);
    }

    method UpdateRex(now: int, owner: Name) returns (status: Status)
      modifies this
      ensures Ends(status, St(), Rex.UpdateRex(old(St()), now, owner))
    {
      hide Rex.UpdateRexAccount, Rex.RunRex, Maturity.Mature;
      :- RunRex(now, Rex.MAINTENANCE);
      assert pool.Some?;
      :- Check(owner in balances, NoRexBalance);
      var initStake := balances[owner].voteStake;
      var currentStake := 0;
      if 0 < pool.value.rex {
        currentStake := balances[owner].rex * pool.value.lendable / pool.value.rex;
      }
      balances := balances[owner := balances[owner].(voteStake := currentStake)];
      var inOrder :- UpdateRexAccount(now, owner, 0, currentStake - initStake, true);
      ProcessRexMaturities(now, owner);
      return Done;
    }

    method SetRex(balance: int) returns (status: Status)
      modifies this
      ensures Ends(status, St(), Rex.SetRex(old(St()), balance))
    {
      status := Done;
      :- Check(0 < balance, MustBePositive);
      :- Check(pool.Some?, RexNotInitialized);
      pool := Some(pool.value.(rent := balance));
      return Done;
    }

    method Consolidate(now: int, owner: Name) returns (status: Status)
      modifies this
      ensures Ends(status, St(), Rex.Consolidate(old(St()), now, owner))
    {
      hide Rex.UpdateRexAccount, Rex.RunRex, Maturity.Consolidate;
      :- RunRex(now, Rex.MAINTENANCE);
      :- Check(owner in balances, NoRexBalance);
      var inOrder :- UpdateRexAccount(now, owner, 0, 0, false);
      ConsolidateRexBalance(now, owner, inOrder);
      return Done;
    }

    /** The part of moving REX to savings that works on the balance. */
    method MoveBalanceToSavings(now: int, owner: Name, rex: int, inOrder: int) returns (status: Status)
      requires owner in balances
      modifies this`balances
      ensures match Maturity.MoveToSavings(old(balances)[owner], now, rex, inOrder)
        case Success(b) => status == Done && balances == old(balances)[owner := b]
        case Failure(error) => status == Aborted(error)
    {
      hide Maturity.Mature, Maturity.TakeFurthest;
      var inSavings := ReadRexSavings(owner);
      :- Check(rex + inOrder + inSavings <= balances[owner].rex, InsufficientRex);
      ProcessRexMaturities(now, owner);
      var left := TakeFurthest(owner, rex);
      if 0 < left {
        balances := balances[owner := balances[owner].(matured := balances[owner].matured - left)];
        :- Check(inOrder <= balances[owner].matured, SavingsLogicError);
        left := 0;
      }
      :- Check(left == 0, SavingsProgrammerError);
      PutRexSavings(owner, inSavings + rex);
      return Done;
    }

    method MoveToSavings(now: int, owner: Name, rex: int) returns (status: Status)
      modifies this
      ensures Ends(status, St(), Rex.MoveToSavings(old(St()), now, owner, rex))
    {
      hide Rex.UpdateRexAccount, Rex.RunRex, Maturity.MoveToSavings;
      :- RunRex(now, Rex.MAINTENANCE);
      :- Check(owner in balances, NoRexBalance);
      :- Check(0 < rex, MustBePositive);
      var inOrder :- UpdateRexAccount(now, owner, 0, 0, false);
      status := MoveBalanceToSavings(now, owner, rex, inOrder);
    }

    method MoveFromSavings(now: int, owner: Name, rex: int) returns (status: Status)
      modifies this
      ensures Ends(status, St(), Rex.MoveFromSavings(old(St()), now, owner, rex))
    {
      hide Rex.UpdateRexAccount, Rex.RunRex, Maturity.Mature;
      :- RunRex(now, Rex.MAINTENANCE);
      :- Check(owner in balances, NoRexBalance);
      :- Check(0 < rex, MustBePositive);
      ghost var maintained := balances;
      var inSavings := ReadRexSavings(owner);
      :- Check(rex <= inSavings, InsufficientRex);
      ProcessRexMaturities(now, owner);
      AddToBucket(owner, MaturityDate(now), rex);
      PutRexSavings(owner, inSavings - rex);
      assert balances == maintained[owner := balances[owner]];
      var inOrder :- UpdateRexAccount(now, owner, 0, 0, false);
      return Done;
    }

    method CloseRex(now: int, owner: Name) returns (status: Status)
      modifies this
      ensures Ends(status, St(), Rex.CloseRex(old(St()), now, owner))
    {
      hide Rex.UpdateRexAccount, Rex.RunRex, Loans.HasOwner;
      if pool.Some? {
        :- RunRex(now, Rex.MAINTENANCE);
      }
      var inOrder :- UpdateRexAccount(now, owner, 0, 0, false);
      if !Loans.HasOwner(cpuLoans, owner) && !Loans.HasOwner(netLoans, owner) && owner in funds && funds[owner] == 0 {
        funds := funds - {owner};
      }
      if owner in balances {
        :- Check(balances[owner].rex == 0, RexRemaining);
        balances := balances - {owner};
      }
      return Done;
    }

    // Actions on stakes

    /** Nets a stake change against the owner's pending refund, resource by resource; yields what is
        still due. */
    method SettleRefund(now: int, owner: Name, net: int, cpu: int, toSelf: bool) returns (due: int)
      modifies this`refunds
      ensures var settled := Staking.Settle(old(refunds), now, owner, net, cpu, toSelf);
        settled.Success? && refunds == settled.value.refunds && due == settled.value.due
    {
      var netBalance, cpuBalance := net, cpu;
      if toSelf || net + cpu < 0 {
        if owner in refunds {
          var r := refunds[owner];
          if netBalance < 0 || cpuBalance < 0 { r := r.(time := Seconds(now)); }
          r := r.(net := r.net - netBalance);
          netBalance := Max(0, -r.net);
          r := r.(net := Max(0, r.net));
          r := r.(cpu := r.cpu - cpuBalance);
          cpuBalance := Max(0, -r.cpu);
          r := r.(cpu := Max(0, r.cpu));
          // The checks that no refund becomes negative cannot fail.
          assert 0 <= r.net && 0 <= r.cpu;
          if r.net == 0 && r.cpu == 0 {
            refunds := refunds - {owner};
          } else {
            refunds := refunds[owner := r];
          }
        } else if netBalance < 0 || cpuBalance < 0 {
          refunds := refunds[owner := Refund(Seconds(now), Max(0, -netBalance), Max(0, -cpuBalance))];
          netBalance, cpuBalance := Max(0, netBalance), Max(0, cpuBalance);
        }
      }
      due := netBalance + cpuBalance;
    }

    /** Moves the tokens behind a stake change. */
    method SettleStake(now: int, source: Name, from: Name, receiver: Name, net: int, cpu: int, transfer: bool)
      returns (status: Status)
      modifies this`refunds, this`tokens
      ensures Ends(status, St(), Staking.SettleStake(old(St()), now, source, from, receiver, net, cpu, transfer))
    {
      hide Staking.Settle;
      if source == STAKE { return Done; }
      var due := SettleRefund(now, from, net, cpu, !transfer && from == receiver);
      if 0 < due {
        :- Transfer(source, STAKE, due);
      }
      return Done;
    }

    /** A delegation and the receiver's totals change together. */
    method ChangeStake(from: Name, receiver: Name, net: int, cpu: int) returns (status: Status)
      modifies this`delegations, this`resources
      ensures match Staking.ChangeDelegation(old(delegations), from, receiver, net, cpu)
        case Failure(error) => status == Aborted(error)
        case Success(changed) =>
          Ends(status, resources, Staking.ChangeTotals(old(resources), receiver, net, cpu))
          && (status == Done ==> delegations == changed)
    {
      status := Done;
      :- ChangeDelegation(from, receiver, net, cpu);
      status := ChangeTotals(receiver, net, cpu);
    }

    method ChangeBandwidth(now: int, source: Name, receiver: Name, net: int, cpu: int, transfer: bool) returns (status: Status)
      modifies this
      ensures Ends(status, St(), Staking.ChangeBandwidth(old(St()), now, source, receiver, net, cpu, transfer))
    {
      hide Staking.ChangeDelegation, Staking.ChangeTotals, Staking.SettleStake, Staking.UpdateRexStake,
           Voting.UpdateVotingPower;
      :- Check(net != 0 || cpu != 0, ZeroStake);
      :- Check(Max(Abs(net), Abs(cpu)) <= Abs(net + cpu), OppositeSigns);
      var from := if transfer then receiver else source;
      :- ChangeStake(from, receiver, net, cpu);
      :- SettleStake(now, source, from, receiver, net, cpu, transfer);
      UpdateRexStake(from);
      status := UpdateVotingPower(now, from, net + cpu);
    }

    method Delegate(now: int, from: Name, receiver: Name, net: int, cpu: int, transfer: bool) returns (status: Status)
      modifies this
      ensures Ends(status, St(), Staking.Delegate(old(St()), now, from, receiver, net, cpu, transfer))
    {
      hide Staking.ChangeBandwidth;
      :- Check(0 <= cpu && 0 <= net && 0 < net + cpu, MustBePositive);
      :- Check(!transfer || from != receiver, SelfTransferStake);
      status := ChangeBandwidth(now, from, receiver, net, cpu, transfer);
    }

    method Deactivate(name: Name) returns (status: Status)
      modifies this`votes
      ensures Ends(status, votes, Voting.Deactivate(old(votes), name))
    {
      status := Done;
      :- Check(name in votes.producers, ProducerNotRegistered);
      votes := votes.(producers := votes.producers[name := votes.producers[name].(active := false)]);
      return Done;
    }

    method Undelegate(now: int, from: Name, receiver: Name, net: int, cpu: int) returns (status: Status)
      modifies this
      ensures Ends(status, St(), Staking.Undelegate(old(St()), now, from, receiver, net, cpu))
    {
      hide Staking.ChangeBandwidth, Voting.Deactivate;
      :- Check(0 <= cpu && 0 <= net && 0 < net + cpu, MustBePositive);
      :- Check(Voting.MIN_ACTIVATED_STAKE <= votes.activatedStake, ChainNotActivated);
      :- Check(from in votes.voters, NoVoter);
      if 1000000 < votes.voters[from].staked {
        :- Deactivate(from);
      }
      status := ChangeBandwidth(now, from, receiver, -net, -cpu, false);
    }

    method ClaimRefund(now: int, owner: Name) returns (status: Status)
      modifies this
      ensures Ends(status, St(), Staking.ClaimRefund(old(St()), now, owner))
    {
      status := Done;
      :- Check(owner in refunds, NoRefund);
      var row := refunds[owner];
      :- Check(row.time * SECOND + Staking.REFUND_DELAY <= now, RefundTooEarly);
      :- Transfer(STAKE, owner, row.net + row.cpu);
      refunds := refunds - {owner};
      return Done;
    }

    method ChangeRam(receiver: Name, bytes: int) returns (status: Status)
      modifies this
      ensures Ends(status, St(), Staking.ChangeRam(old(St()), receiver, bytes))
    {
      status := Done;
      :- Check(0 <= bytes || receiver in resources, NoResourceRow);
      if receiver !in resources {
        resources := resources[receiver := Resources(0, 0, bytes)];
      } else {
        var row := resources[receiver];
        :- Check(0 <= row.ram + bytes, InsufficientRam);
        resources := resources[receiver := row.(ram := row.ram + bytes)];
      }
      return Done;
    }

    // Voting actions

    method VoteProducers(now: int, voter: Name, producers: seq<Name>) returns (status: Status)
      modifies this
      ensures Ends(status, St(), System.CastVote(old(St()), now, voter, producers))
    {
      hide Staking.UpdateRexStake, Voting.UpdateVotes;
      :- Check(voter !in votes.producers, ProducersMayNotVote);
      UpdateRexStake(voter);
      ghost var recast := votes;
      :- UpdateVotes(now, voter, producers, true);
      VoterKnown(recast, now, voter, producers, true);
      if voter in balances && 0 < balances[voter].rex {
        :- Check(Rex.MayBuyRex(votes, voter), VotingRequirementUnmet);
      }
      var row := votes.voters[voter];
      var power := Min(row.staked, Voting.MAX_VOTE_POWER);
      votes := votes.(voters := votes.voters[voter := row.(unpaidVotes := row.unpaidVotes + power)],
                      unpaidVotes := votes.unpaidVotes + power);
      return Done;
    }

    method Register(now: int, name: Name) returns (status: Status)
      modifies this`votes
      ensures Ends(status, votes, Voting.Register(old(votes), now, name))
    {
      status := Done;
      :- Check(name in votes.voters, NoVoter);
      :- Check(Voting.MIN_PRODUCER_STAKE < votes.voters[name].staked, StakeTooSmall);
      if name in votes.producers {
        var p := votes.producers[name].(active := true);
        if p.lastClaim == 0 { p := p.(lastClaim := now); }
        votes := votes.(producers := votes.producers[name := p]);
      } else {
        votes := votes.(producers := votes.producers[name := Producer(0, true, 0, now, 0, now)]);
      }
      return Done;
    }

    // Rewards

    method Issue(n: int) returns (status: Status)
      modifies this`supply, this`tokens
      ensures Ends(status, St(), Rewards.Issue(old(St()), n))
    {
      status := Done;
      :- Check(0 < n, MustBePositive);
      :- Check(n <= maxSupply - supply, ExceedsMaxSupply);
      supply := supply + n;
      AddBalance(EOSIO, n);
      return Done;
    }

    method ShareInfrastructure(n: int) returns (status: Status)
      modifies this`tokens
      ensures Ends(status, tokens, Rewards.ShareInfrastructure(old(tokens), n))
    {
      hide Token.Transfer;
      :- Transfer(EOSIO, NETWORK, n / 2);
      :- Transfer(EOSIO, INFRASTRUCTURE, n / 2);
      :- Transfer(INFRASTRUCTURE, COMMUNITY, Rewards.ToCommunity(n));
      :- Transfer(INFRASTRUCTURE, MARKETING, Rewards.ToMarketing(n));
      :- Transfer(INFRASTRUCTURE, FOUNDING, Rewards.ToFounding(n));
      status := Transfer(COMMUNITY, ORACLE, Rewards.ToOracles(n));
    }

    method ShareNetwork(n: int) returns (status: Status)
      modifies this`tokens
      ensures Ends(status, tokens, Rewards.ShareNetwork(old(tokens), n))
    {
      hide Token.Transfer;
      :- Transfer(NETWORK, BPAY, Rewards.ToBlocks(n));
      :- Transfer(NETWORK, DPAY, Rewards.ToDapps(n));
      :- Transfer(NETWORK, WPAY, Rewards.ToWitnesses(n));
      status := Transfer(NETWORK, VPAY, Rewards.ToVoters(n));
    }

    /** Issues new tokens, spreads them over the accounts and fills the buckets. */
    method Inflate(n: int) returns (status: Status)
      modifies this
      ensures Ends(status, St(), Rewards.Inflate(old(St()), n))
    {
      hide Rewards.ShareInfrastructure, Rewards.ShareNetwork;
      :- Issue(n);
      :- ShareInfrastructure(n);
      :- ShareNetwork(n);
      pay := pay.(blockBucket := pay.blockBucket + Rewards.ToBlocks(n));
      pay := pay.(dappTransferBucket := pay.dappTransferBucket + Rewards.ToEachDapp(n));
      pay := pay.(dappUserBucket := pay.dappUserBucket + Rewards.ToEachDapp(n));
      pay := pay.(witnessBucket := pay.witnessBucket + Rewards.ToWitnesses(n));
      pay := pay.(voteBucket := pay.voteBucket + Rewards.ToVoters(n));
      pay := pay.(oracleBucket := pay.oracleBucket + Rewards.ToOracles(n));
      return Done;
    }

    method ShareInflation(now: int) returns (status: Status)
      modifies this
      ensures Ends(status, St(), Rewards.ShareInflation(old(St()), now))
    {
      hide Rewards.Inflate, Rewards.NewTokens;
      if now - pay.lastFill <= 0 || pay.lastFill <= 0 { return Done; }
      :- Inflate(Rewards.NewTokens(supply, now - pay.lastFill));
      pay := pay.(lastFill := now);
      return Done;
    }

    method PayOut(from: Name, owner: Name, amount: int) returns (status: Status)
      modifies this`tokens
      ensures Ends(status, St(), Rewards.PayOut(old(St()), from, owner, amount))
    {
      if 0 < amount {
        :- Transfer(from, owner, amount);
      }
      return Done;
    }

    /** Settles the claimant's requests as an oracle; yields its oracle pay and what is left of its
        block pay. */
    method SettleOracle(owner: Name, perBlockPay: int) returns (oraclePay: int, blockPay: int)
      modifies this`pay
      ensures var (after, due) := Rewards.SettleOracle(old(pay), owner, perBlockPay);
        pay == after && oraclePay == due.oraclePay && blockPay == due.blockPay
    {
      oraclePay, blockPay := 0, perBlockPay;
      if owner in pay.oracles {
        var o := pay.oracles[owner];
        if 0 < pay.successes {
          oraclePay := pay.oracleBucket * o.successes / pay.successes;
        }
        var punishment := o.punishment + o.failures * Rewards.PUNISHMENT_RATE;
        var withheld := Min(oraclePay, punishment);
        oraclePay := oraclePay - withheld;
        punishment := punishment - withheld;
        if 0 < punishment {
          withheld := Min(blockPay, punishment);
          blockPay := blockPay - withheld;
          punishment := punishment - withheld;
        }
        pay := pay.(successes := pay.successes - o.successes);
        pay := pay.(oracles := pay.oracles[owner := o.(successes := 0, failures := 0, punishment := o.punishment + punishment)]);
      }
    }

    /** The vote-pay side of a claim. */
    method ClaimShare(now: int, owner: Name)
      requires owner in votes.producers
      modifies this`votes
      ensures votes == Voting.ClaimShare(old(votes), now, owner)
    {
      hide Voting.UpdateTotalShare;
      var p := votes.producers[owner];
      var updatedAfter := p.lastClaim + Voting.SHARE_CUTOFF <= p.lastShare;
      var rate := if updatedAfter then 0 else p.votes;
      var share := p.share;
      if 0 < rate && p.lastShare < now {
        share := share + rate * (now - p.lastShare);
      }
      UpdateTotalShare(now, -share, if updatedAfter then p.votes else 0);
      votes := votes.(producers := votes.producers[owner := p.(share := 0, lastShare := now, lastClaim := now)]);
    }

    method ClaimRewards(now: int, owner: Name, witnessShare: int, witnessTotal: int) returns (status: Status)
      modifies this
      ensures Ends(status, St(), Rewards.ClaimRewards(old(St()), now, owner, witnessShare, witnessTotal))
    {
      hide Rewards.ShareInflation, Voting.ClaimShare, Rewards.PayProducer, Rewards.SettleOracle;
      :- Check(Voting.MIN_ACTIVATED_STAKE <= votes.activatedStake, ChainNotActivated);
      :- ShareInflation(now);
      :- Check(owner in votes.producers, ProducerNotRegistered);
      var p := votes.producers[owner];
      :- Check(p.active, ProducerInactive);
      var perBlockPay := 0;
      if 0 < votes.unpaidBlocks {
        perBlockPay := pay.blockBucket * p.unpaidBlocks / votes.unpaidBlocks;
      }
      var witnessPay := 0;
      if 0 < witnessTotal {
        witnessPay := pay.witnessBucket * witnessShare / witnessTotal;
        if pay.witnessBucket < witnessPay { witnessPay := pay.witnessBucket; }
      }
      var oraclePay, blockPay := SettleOracle(owner, perBlockPay);
      ghost var v := votes;
      ClaimShare(now, owner);
      ClaimKeeps(v, now, owner);
      votes := votes.(unpaidBlocks := votes.unpaidBlocks - p.unpaidBlocks,
                      producers := votes.producers[owner := votes.producers[owner].(unpaidBlocks := 0)]);
      status := PayProducer(owner, blockPay, witnessPay, oraclePay);
    }

    /** Takes the three parts of a producer's pay out of their buckets and pays them. */
    method PayProducer(owner: Name, blockPay: int, witnessPay: int, oraclePay: int) returns (status: Status)
      modifies this`pay, this`tokens
      ensures Ends(status, St(), Rewards.PayProducer(old(St()), owner, blockPay, witnessPay, oraclePay))
    {
      hide Rewards.PayOut;
      pay := pay.(witnessBucket := pay.witnessBucket - witnessPay);
      pay := pay.(blockBucket := pay.blockBucket - blockPay);
      pay := pay.(oracleBucket := pay.oracleBucket - oraclePay);
      :- PayOut(BPAY, owner, blockPay);
      :- PayOut(WPAY, owner, witnessPay);
      status := PayOut(ORACLE, owner, oraclePay);
    }

    method ClaimVoterReward(now: int, owner: Name) returns (status: Status)
      modifies this
      ensures Ends(status, St(), Rewards.ClaimVoterReward(old(St()), now, owner))
    {
      hide Rewards.ShareInflation, Rewards.Divide;
      :- ShareInflation(now);
      :- Check(owner in votes.voters, NoVoter);
      var voter := votes.voters[owner];
      :- Check(pay.claimPeriod < now - voter.lastClaim, ClaimTooEarly);
      var reward :- Divide(voter.unpaidVotes * pay.voteBucket, votes.unpaidVotes);
      :- Check(0 < reward, NoRewards);
      :- Transfer(VPAY, owner, reward);
      pay := pay.(voteBucket := pay.voteBucket - reward);
      votes := votes.(unpaidVotes := votes.unpaidVotes - voter.unpaidVotes,
                      voters := votes.voters[owner := voter.(unpaidVotes := 0, lastClaim := now)]);
      return Done;
    }

    method Divide(a: int, b: int) returns (status: Status, quotient: int)
      ensures Ends(status, quotient, Rewards.Divide(a, b))
    {
      quotient := 0;
      :- Check(b != 0, DivisionByZero);
      quotient := Abs(a) / Abs(b);
      if (a < 0) != (b < 0) { quotient := -quotient; }
      return Done, quotient;
    }

    method ClaimDappReward(now: int, owner: Name, byUsers: bool, share: int, total: int) returns (status: Status)
      modifies this
      ensures Ends(status, St(), Rewards.ClaimDappReward(old(St()), now, owner, byUsers, share, total))
    {
      hide Rewards.Inflate, Rewards.Divide, Rewards.NewTokens;
      :- Check(Voting.MIN_ACTIVATED_STAKE <= votes.activatedStake, ChainNotActivated);
      if now - pay.lastDappFill <= 0 || pay.lastDappFill <= 0 { return Done; }
      :- Inflate(Rewards.NewTokens(supply, now - pay.lastDappFill));
      pay := pay.(lastDappFill := now);
      var reward :- Divide((if byUsers then pay.dappUserBucket else pay.dappTransferBucket) * share, total);
      :- Check(0 < reward, NoRewards);
      if byUsers {
        pay := pay.(dappUserBucket := pay.dappUserBucket - reward);
      } else {
        pay := pay.(dappTransferBucket := pay.dappTransferBucket - reward);
      }
      status := Transfer(DPAY, owner, reward);
    }

    method OnBlock(now: int, producer: Name)
      modifies this
      ensures St() == Rewards.OnBlock(old(St()), now, producer)
    {
      if votes.activatedStake < Voting.MIN_ACTIVATED_STAKE { return; }
      if pay.lastFill == 0 { pay := pay.(lastFill := now); }
      if pay.lastDappFill == 0 { pay := pay.(lastDappFill := now); }
      if producer in votes.producers {
        var p := votes.producers[producer];
        votes := votes.(unpaidBlocks := votes.unpaidBlocks + 1);
        votes := votes.(producers := votes.producers[producer := p.(unpaidBlocks := p.unpaidBlocks + 1)]);
      }
    }

    // Oracles

    method SetOracle(producer: Name, account: Name) returns (status: Status)
      modifies this
      ensures Ends(status, St(), Rewards.SetOracle(old(St()), producer, account))
    {
      status := Done;
      :- Check(producer in votes.producers, ProducerNotRegistered);
      if producer !in pay.oracles {
        pay := pay.(oracles := pay.oracles[producer := Oracle(account, 0, 0, 0, 0)]);
      } else {
        pay := pay.(oracles := pay.oracles[producer := pay.oracles[producer].(account := account)]);
      }
      return Done;
    }

    method AddRequest(chosen: Name)
      modifies this`pay
      ensures pay == Rewards.AddRequest(old(pay), chosen)
    {
      var known := Rewards.OracleOf(pay.oracles, chosen);
      if known.Some? {
        var o := pay.oracles[known.value];
        pay := pay.(oracles := pay.oracles[known.value := o.(pending := o.pending + 1)]);
      }
    }

    method Reply(chosen: Name, standby: Name, age: int)
      modifies this`pay
      ensures pay == Rewards.Reply(old(pay), chosen, standby, age)
    {
      hide Rewards.OracleOf;
      var first := age < Rewards.REQUEST_PERIOD;
      var second := !first && age < 2 * Rewards.REQUEST_PERIOD;
      var succeeded := 0;
      var known := Rewards.OracleOf(pay.oracles, chosen);
      if known.Some? {
        if first { succeeded := chosen; }
        var o := pay.oracles[known.value].(pending := pay.oracles[known.value].pending - 1);
        if !first { o := o.(failures := o.failures + 1); }
        pay := pay.(oracles := pay.oracles[known.value := o]);
      }
      if second {
        succeeded := standby;
      } else if !first && standby != 0 {
        var backup := Rewards.OracleOf(pay.oracles, standby);
        if backup.Some? {
          var o := pay.oracles[backup.value];
          pay := pay.(oracles := pay.oracles[backup.value := o.(failures := o.failures + 1)]);
        }
      }
      if succeeded != 0 {
        var winner := Rewards.OracleOf(pay.oracles, succeeded);
        if winner.Some? {
          var o := pay.oracles[winner.value];
          pay := pay.(oracles := pay.oracles[winner.value := o.(successes := o.successes + 1)]);
          pay := pay.(successes := pay.successes + 1);
        }
      }
    }

    // Fees

    method PayRamFee(payer: Name, fee: int) returns (status: Status)
      modifies this
      ensures Ends(status, St(), System.PayRamFee(old(St()), payer, fee))
    {
      hide Rex.ChannelToRex;
      if 0 < fee {
        :- Transfer(payer, RAMFEE, fee);
        :- ChannelToRex(RAMFEE, fee);
      }
      return Done;
    }

    method ChannelNamebidToRex(bid: int)
      modifies this`pool
      ensures St() == System.PromiseProceeds(old(St()), bid)
    {
      if Pools.Available(pool) {
        pool := Some(pool.value.(namebid := pool.value.namebid + bid));
      }
    }

    // The dispatcher

    /** An action of the exchange. */
    method ActOnRex(now: int, a: System.Action) returns (status: Status)
      requires System.OnRex(a)
      modifies this
      ensures Ends(status, St(), System.ApplyToRex(old(St()), now, a))
    {
      hide Rex.Deposit, Rex.Withdraw, Rex.BuyRex, Rex.UnstakeToRex, Rex.SellRex, Rex.CancelOrder, Rex.SetRex, Rex.RunRex;
      if System.OnBalance(a) {
        status := ActOnBalance(now, a);
        return;
      }
      match a {
        case Deposit(owner, amount) => status := Deposit(owner, amount);
        case Withdraw(owner, amount) => status := Withdraw(now, owner, amount);
        case BuyRex(owner, amount) => status := BuyRex(now, owner, amount);
        case UnstakeToRex(owner, receiver, net, cpu) => status := UnstakeToRex(now, owner, receiver, net, cpu);
        case SellRex(owner, rex) => status := SellRex(now, owner, rex);
        case CancelOrder(owner) => status := CancelOrder(owner);
        case SetRex(balance) => status := SetRex(balance);
        case RexExec(max) => status := RunRex(now, max);
      }
    }

    /** An action on loans or on a balance. */
    method ActOnBalance(now: int, a: System.Action) returns (status: Status)
      requires System.OnBalance(a)
      modifies this
      ensures Ends(status, St(), System.ApplyToRex(old(St()), now, a))
    {
      hide Rex.Rent, Rex.FundLoan, Rex.DefundLoan, Rex.UpdateRex, Rex.Consolidate, Rex.MoveToSavings, Rex.MoveFromSavings,
           Rex.CloseRex;
      match a {
        case Rent(kind, owner, receiver, payment, fund) => status := RentRex(now, kind, owner, receiver, payment, fund);
        case FundLoan(kind, owner, num, amount) => status := FundRexLoan(now, kind, owner, num, amount);
        case DefundLoan(kind, owner, num, amount) => status := DefundRexLoan(now, kind, owner, num, amount);
        case UpdateRex(owner) => status := UpdateRex(now, owner);
        case Consolidate(owner) => status := Consolidate(now, owner);
        case MoveToSavings(owner, rex) => status := MoveToSavings(now, owner, rex);
        case MoveFromSavings(owner, rex) => status := MoveFromSavings(now, owner, rex);
        case CloseRex(owner) => status := CloseRex(now, owner);
      }
    }

    /** An action on stakes or votes. */
    method ActOnStakes(now: int, a: System.Action) returns (status: Status)
      requires System.OnStakes(a)
      modifies this
      ensures Ends(status, St(), System.ApplyToStakes(old(St()), now, a))
    {
      hide Staking.Delegate, Staking.Undelegate, Staking.ClaimRefund, Staking.ChangeRam, System.CastVote, Voting.Register,
           Voting.Deactivate;
      match a {
        case Delegate(owner, receiver, net, cpu, transfer) => status := Delegate(now, owner, receiver, net, cpu, transfer);
        case Undelegate(owner, receiver, net, cpu) => status := Undelegate(now, owner, receiver, net, cpu);
        case ClaimRefund(owner) => status := ClaimRefund(now, owner);
        case ChangeRam(receiver, bytes) => status := ChangeRam(receiver, bytes);
        case VoteProducers(owner, producers) => status := VoteProducers(now, owner, producers);
        case Register(owner) => status := Register(now, owner);
        case Unregister(owner) => status := Deactivate(owner);
      }
    }

    /** An action on rewards, requests or tokens. */
    method ActOnRewards(now: int, a: System.Action) returns (status: Status)
      requires !System.OnRex(a) && !System.OnStakes(a)
      modifies this
      ensures Ends(status, St(), System.ApplyToRewards(old(St()), now, a))
    {
      hide Rewards.ClaimRewards, Rewards.ClaimVoterReward, Rewards.ClaimDappReward, Rewards.OnBlock, Rewards.SetOracle,
           Rewards.AddRequest, Rewards.Reply, System.PayRamFee, System.PromiseProceeds, Token.Transfer;
      status := Done;
      match a {
        case ClaimRewards(owner, share, total) => status := ClaimRewards(now, owner, share, total);
        case ClaimVoterReward(owner) => status := ClaimVoterReward(now, owner);
        case ClaimDappReward(owner, byUsers, share, total) => status := ClaimDappReward(now, owner, byUsers, share, total);
        case SetClaimPeriod(days) => pay := pay.(claimPeriod := days * DAY);
        case OnBlock(producer) => OnBlock(now, producer);
        case SetOracle(owner, account) => status := SetOracle(owner, account);
        case AddRequest(chosen) => AddRequest(chosen);
        case Reply(chosen, standby, age) => Reply(chosen, standby, age);
        case Send(owner, to, amount) => status := Transfer(owner, to, amount);
        case RamFee(owner, fee) => status := PayRamFee(owner, fee);
        case CloseAuction(bid) => ChannelNamebidToRex(bid);
      }
    }

    /** Runs an action as the chain does: if it aborts, everything is as before. */
    method Push(now: int, a: System.Action) returns (status: Status)
      modifies this
      ensures St() == System.Step(old(St()), now, a)
      ensures status == Done <==> System.Apply(old(St()), now, a).Success?
    {
      hide System.ApplyToRex, System.ApplyToStakes, System.ApplyToRewards;
      var before := St();
      if System.OnRex(a) {
        status := ActOnRex(now, a);
      } else if System.OnStakes(a) {
        status := ActOnStakes(now, a);
      } else {
        status := ActOnRewards(now, a);
      }
      if status != Done {
        Restore(before);
      }
    }

    /** Runs a sequence of actions. From a state that keeps the invariant, every state on the way does. */
    method PushAll(start: int, events: seq<System.Event>)
      requires Runs.Inv(St(), start) && System.Chronological(start, events) && System.AllPermitted(St(), events)
      modifies this
      ensures St() == System.Run(old(St()), events)
      ensures Runs.Inv(St(), Runs.EndTime(start, events))
    {
      hide Runs.Inv, System.Step;
      var i := 0;
      while i < |events|
        invariant 0 <= i <= |events|
        invariant System.Run(old(St()), events) == System.Run(St(), events[i..])
      {
        assert events[i..][0] == events[i] && events[i..][1..] == events[i + 1..];
        var status := Push(events[i].now, events[i].action);
        i := i + 1;
      }
      Runs.RunKeepsInv(old(St()), start, events);
    }
  }

  lemma ChannelKeepsPool(s: State, from: Name, amount: int)
    requires s.pool.Some? && Rex.ChannelToRex(s, from, amount).Success?
    ensures Rex.ChannelToRex(s, from, amount).value.pool.Some?
  {
  }

  /** What one change adds to the running totals does not depend on them. */
  lemma DeltaAdds(t: Voting.Tally, name: Name, delta: Voting.Delta, now: int)
    requires name in t.producers
    ensures var u := Voting.ApplyDelta(t.(rateDelta := 0, inactiveShare := 0), name, delta, now);
      Voting.ApplyDelta(t, name, delta, now)
        == u.(rateDelta := t.rateDelta + u.rateDelta, inactiveShare := t.inactiveShare + u.inactiveShare)
  {
  }

  lemma FromFundPool(s: State, owner: Name, amount: int)
    requires Rex.TransferFromFund(s, owner, amount).Success?
    ensures Rex.TransferFromFund(s, owner, amount).value.pool == s.pool
  {
  }

  /** A position found in the rest of a table. */
  function Shifted(at: Option<nat>, start: nat): Option<nat> {
    if at.Some? then Some(at.value + start) else None
  }

  lemma VoterKnown(v: Votes, now: int, name: Name, names: seq<Name>, voting: bool)
    requires Voting.UpdateVotes(v, now, name, names, voting).Success?
    ensures name in Voting.UpdateVotes(v, now, name, names, voting).value.voters
  {
    hide Voting.ApplyDeltas, Voting.UpdateTotalShare, Voting.VoteDeltas;
  }

  lemma ClaimKeeps(v: Votes, now: int, owner: Name)
    requires owner in v.producers
    ensures var claimed := Voting.ClaimShare(v, now, owner);
      owner in claimed.producers && claimed.unpaidBlocks == v.unpaidBlocks
  {
  }

  function RenewedOrClosed(s: State, kind: LoanKind, rented: int): Result<State>
    requires s.pool.Some? && Rex.LoansOf(s, kind) != []
  {
    if Rex.Renews(s, Rex.LoansOf(s, kind)[0], rented) then Rex.RenewLoan(s, kind, s.pool.value, rented)
    else Rex.CloseLoan(s, kind, s.pool.value)
  }

  /** Expiring a loan takes its stake back into the pool first, and goes on from there. */
  lemma ExpireLoanSteps(s: State, kind: LoanKind)
    requires s.pool.Some? && Rex.LoansOf(s, kind) != []
    ensures var loan := Rex.LoansOf(s, kind)[0];
      var closed := Pools.RemoveLoan(s.pool.value, loan.staked);
      Rex.ExpireLoan(s, kind)
        == if closed.Failure? then Failure(closed.error)
           else
             var rented := Pools.BancorOutput(closed.value.rent, closed.value.unlent, loan.payment);
             if rented.Failure? then Failure(rented.error)
             else RenewedOrClosed(s.(pool := Some(closed.value)), kind, rented.value)
  {
    hide Rex.StakeTo, Loans.Insert, Pools.AddLoan, Pools.RemoveLoan, Pools.BancorOutput;
  }
}
