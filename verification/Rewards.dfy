/** Inflation, the reward buckets and their claims. */
module Rewards {
  import opened Outcomes
  import opened Arithmetic
  import opened Sums
  import opened Chain
  import Token
  import Voting

  const MICROSECONDS_PER_YEAR: int := 52 * 7 * 24 * 3600 * SECOND
  const PUNISHMENT_RATE: int := 1_0000
  const REQUEST_PERIOD: int := 5 * 60 * SECOND

  // Inflation

  /** New tokens for a time: 4.879 percent of the supply a year. */
  function NewTokens(supply: int, elapsed: int): int {
    4879 * supply * elapsed / (100000 * MICROSECONDS_PER_YEAR)
  }

  function ToBlocks(n: int): int { 3 * n / 10 }

  function ToDapps(n: int): int { n / 10 }

  function ToEachDapp(n: int): int { n / 20 }

  function ToWitnesses(n: int): int { 75 * n / 1000 }

  function ToVoters(n: int): int { 25 * n / 1000 }

  function ToCommunity(n: int): int { 325 * n / 1000 }

  function ToMarketing(n: int): int { 5 * n / 100 }

  function ToFounding(n: int): int { 125 * n / 1000 }

  function ToOracles(n: int): int { 65 * n / 10000 }

  function Issue(s: State, n: int): Result<State> {
    if n <= 0 then Failure(MustBePositive) else
    :- Need(n <= s.maxSupply - s.supply, ExceedsMaxSupply);
    Success(s.(supply := s.supply + n, tokens := s.tokens[EOSIO := At(s.tokens, EOSIO) + n]))
  }

  function ShareInfrastructure(tokens: Tokens, n: int): Result<Tokens> {
    var t0 :- Token.Transfer(tokens, EOSIO, NETWORK, n / 2);
    var t1 :- Token.Transfer(t0, EOSIO, INFRASTRUCTURE, n / 2);
    var t2 :- Token.Transfer(t1, INFRASTRUCTURE, COMMUNITY, ToCommunity(n));
    var t3 :- Token.Transfer(t2, INFRASTRUCTURE, MARKETING, ToMarketing(n));
    var t4 :- Token.Transfer(t3, INFRASTRUCTURE, FOUNDING, ToFounding(n));
    Token.Transfer(t4, COMMUNITY, ORACLE, ToOracles(n))
  }

  function ShareNetwork(tokens: Tokens, n: int): Result<Tokens> {
    var t0 :- Token.Transfer(tokens, NETWORK, BPAY, ToBlocks(n));
    var t1 :- Token.Transfer(t0, NETWORK, DPAY, ToDapps(n));
    var t2 :- Token.Transfer(t1, NETWORK, WPAY, ToWitnesses(n));
    Token.Transfer(t2, NETWORK, VPAY, ToVoters(n))
  }

  function FillBuckets(pay: Pay, n: int): Pay {
    pay.(blockBucket := pay.blockBucket + ToBlocks(n),
         dappTransferBucket := pay.dappTransferBucket + ToEachDapp(n),
         dappUserBucket := pay.dappUserBucket + ToEachDapp(n),
         witnessBucket := pay.witnessBucket + ToWitnesses(n),
         voteBucket := pay.voteBucket + ToVoters(n),
         oracleBucket := pay.oracleBucket + ToOracles(n))
  }

  /** Issues new tokens and spreads them over the reward accounts and buckets. */
  function Inflate(s: State, n: int): (r: Result<State>)
    ensures r.Success? ==> r.value == s.(tokens := r.value.tokens, supply := r.value.supply, pay := r.value.pay)
  {
    var issued :- Issue(s, n);
    var shared :- ShareInfrastructure(issued.tokens, n);
    var tokens :- ShareNetwork(shared, n);
    Success(issued.(tokens := tokens, pay := FillBuckets(s.pay, n)))
  }

  predicate Due(lastFill: int, now: int) {
    0 < lastFill < now
  }

  /** Brings the buckets up to date, once the clock of inflation has started. */
  function ShareInflation(s: State, now: int): (r: Result<State>)
    ensures r.Success? ==> r.value == s.(tokens := r.value.tokens, supply := r.value.supply, pay := r.value.pay)
  {
    if Due(s.pay.lastFill, now) then
      var inflated :- Inflate(s, NewTokens(s.supply, now - s.pay.lastFill));
      Success(inflated.(pay := inflated.pay.(lastFill := now)))
    else Success(s)
  }

  // Claims

  /** Division as in the source: toward zero, trapping on zero. */
  function Divide(a: int, b: int): Result<int> {
    if b == 0 then Failure(DivisionByZero) else
    var quotient := Abs(a) / Abs(b);
    Success(if (a < 0) == (b < 0) then quotient else -quotient)
  }

  function PayOut(s: State, from: Name, owner: Name, amount: int): (r: Result<State>)
    ensures r.Success? ==> r.value == s.(tokens := r.value.tokens)
  {
    if 0 < amount then
      var tokens :- Token.Transfer(s.tokens, from, owner, amount);
      Success(s.(tokens := tokens))
    else Success(s)
  }

  /** A claimant's part of a bucket. */
  function PartOf(bucket: int, own: int, total: int): int {
    if 0 < total then bucket * own / total else 0
  }

  /** What an oracle is paid, what is withheld from its block pay, and what punishment stays open. */
  datatype OraclePay = OraclePay(oraclePay: int, blockPay: int, open: int)

  /** Punishment is taken from the oracle pay first, then from the block pay. */
  function Punish(oraclePay: int, blockPay: int, punishment: int): OraclePay {
    var fromOracle := Min(oraclePay, punishment);
    var rest := punishment - fromOracle;
    var fromBlocks := if 0 < rest then Min(blockPay, rest) else 0;
    OraclePay(oraclePay - fromOracle, blockPay - fromBlocks, rest - fromBlocks)
  }

  /** Settles an oracle's requests; its open punishment is added to the pending one. */
  function SettleOracle(pay: Pay, owner: Name, blockPay: int): (Pay, OraclePay) {
    if owner in pay.oracles then
      var o := pay.oracles[owner];
      var result := Punish(PartOf(pay.oracleBucket, o.successes, pay.successes), blockPay,
                           o.punishment + o.failures * PUNISHMENT_RATE);
      (pay.(successes := pay.successes - o.successes,
            oracles := pay.oracles[owner := o.(successes := 0, failures := 0, punishment := o.punishment + result.open)]),
       result)
    else (pay, OraclePay(0, blockPay, 0))
  }

  /** The votes after a claim: the claimant's share and blocks are paid, its clock starts over. */
  function ClaimedVotes(v: Votes, now: int, owner: Name): Votes
    requires owner in v.producers
  {
    var claimed := Voting.ClaimShare(v, now, owner);
    claimed.(unpaidBlocks := claimed.unpaidBlocks - v.producers[owner].unpaidBlocks,
             producers := claimed.producers[owner := claimed.producers[owner].(unpaidBlocks := 0)])
  }

  /** A witness's part of its bucket, at most all of it. */
  function WitnessPart(bucket: int, share: int, total: int): int {
    if 0 < total then Min(bucket, PartOf(bucket, share, total)) else 0
  }

  /** Takes the three parts of a producer's pay out of their buckets and pays them. */
  function PayProducer(s: State, owner: Name, blockPay: int, witnessPay: int, oraclePay: int): (r: Result<State>)
    ensures r.Success? ==> r.value == s.(tokens := r.value.tokens, pay := r.value.pay)
  {
    var booked := s.(pay := s.pay.(witnessBucket := s.pay.witnessBucket - witnessPay,
                                   blockBucket := s.pay.blockBucket - blockPay,
                                   oracleBucket := s.pay.oracleBucket - oraclePay));
    var s1 :- PayOut(booked, BPAY, owner, blockPay);
    var s2 :- PayOut(s1, WPAY, owner, witnessPay);
    PayOut(s2, ORACLE, owner, oraclePay)
  }

  /** A producer's claim. Its witness share and the total of witness shares are inputs. */
  function ClaimRewards(s: State, now: int, owner: Name, witnessShare: int, witnessTotal: int): (r: Result<State>)
    ensures r.Success? ==>
      r.value == s.(tokens := r.value.tokens, supply := r.value.supply, pay := r.value.pay, votes := r.value.votes)
  {
    if s.votes.activatedStake < Voting.MIN_ACTIVATED_STAKE then Failure(ChainNotActivated) else
    var filled :- ShareInflation(s, now);
    :- Need(owner in filled.votes.producers, ProducerNotRegistered);
    var p := filled.votes.producers[owner];
    :- Need(p.active, ProducerInactive);
    var (pay, due) := SettleOracle(filled.pay, owner,
                                   PartOf(filled.pay.blockBucket, p.unpaidBlocks, filled.votes.unpaidBlocks));
    PayProducer(filled.(votes := ClaimedVotes(filled.votes, now, owner), pay := pay), owner,
                due.blockPay, WitnessPart(filled.pay.witnessBucket, witnessShare, witnessTotal), due.oraclePay)
  }

  /** A voter's claim on the vote bucket. */
  function ClaimVoterReward(s: State, now: int, owner: Name): (r: Result<State>)
    ensures r.Success? ==>
      r.value == s.(tokens := r.value.tokens, supply := r.value.supply, pay := r.value.pay, votes := r.value.votes)
  {
    var filled :- ShareInflation(s, now);
    :- Need(owner in filled.votes.voters, NoVoter);
    var voter := filled.votes.voters[owner];
    :- Need(filled.pay.claimPeriod < now - voter.lastClaim, ClaimTooEarly);
    var reward :- Divide(voter.unpaidVotes * filled.pay.voteBucket, filled.votes.unpaidVotes);
    :- Need(0 < reward, NoRewards);
    var tokens :- Token.Transfer(filled.tokens, VPAY, owner, reward);
    Success(filled.(tokens := tokens,
                    pay := filled.pay.(voteBucket := filled.pay.voteBucket - reward),
                    votes := filled.votes.(unpaidVotes := filled.votes.unpaidVotes - voter.unpaidVotes,
                                           voters := filled.votes.voters[owner := voter.(unpaidVotes := 0, lastClaim := now)])))
  }

  /** A DApp owner's claim on one of the two DApp buckets; the registry's quote for it,
      `share / total`, is an input. Nothing happens unless the DApp clock has started and moved. */
  function ClaimDappReward(s: State, now: int, owner: Name, byUsers: bool, share: int, total: int): (r: Result<State>)
    ensures r.Success? ==> r.value == s.(tokens := r.value.tokens, supply := r.value.supply, pay := r.value.pay)
  {
    if s.votes.activatedStake < Voting.MIN_ACTIVATED_STAKE then Failure(ChainNotActivated) else
    if !Due(s.pay.lastDappFill, now) then Success(s)
    else
      var inflated :- Inflate(s, NewTokens(s.supply, now - s.pay.lastDappFill));
      var pay := inflated.pay.(lastDappFill := now);
      var bucket := if byUsers then pay.dappUserBucket else pay.dappTransferBucket;
      var reward :- Divide(bucket * share, total);
      :- Need(0 < reward, NoRewards);
      var tokens :- Token.Transfer(inflated.tokens, DPAY, owner, reward);
      Success(inflated.(tokens := tokens,
                        pay := if byUsers then pay.(dappUserBucket := bucket - reward)
                               else pay.(dappTransferBucket := bucket - reward)))
  }

  // Counters

  /** A block starts the inflation clocks and counts for its producer. */
  function OnBlock(s: State, now: int, producer: Name): (t: State)
    ensures t == s.(pay := t.pay, votes := t.votes)
  {
    if s.votes.activatedStake < Voting.MIN_ACTIVATED_STAKE then s
    else
      var started := s.(pay := s.pay.(lastFill := if s.pay.lastFill == 0 then now else s.pay.lastFill,
                                      lastDappFill := if s.pay.lastDappFill == 0 then now else s.pay.lastDappFill));
      if producer in s.votes.producers then
        var p := s.votes.producers[producer];
        started.(votes := s.votes.(unpaidBlocks := s.votes.unpaidBlocks + 1,
                                   producers := s.votes.producers[producer := p.(unpaidBlocks := p.unpaidBlocks + 1)]))
      else started
  }

  function SetOracle(s: State, producer: Name, account: Name): (r: Result<State>)
    ensures r.Success? ==> r.value == s.(pay := s.pay.(oracles := r.value.pay.oracles))
  {
    if producer !in s.votes.producers then Failure(ProducerNotRegistered) else
    var o := if producer in s.pay.oracles then s.pay.oracles[producer].(account := account) else Oracle(account, 0, 0, 0, 0);
    Success(s.(pay := s.pay.(oracles := s.pay.oracles[producer := o])))
  }

  /** The producers whose oracle account is the given one. */
  function Matching(oracles: map<Name, Oracle>, account: Name): set<Name> {
    set q | q in oracles && oracles[q].account == account
  }

  /** The first producer, in key order, whose oracle account is the given one. */
  function OracleOf(oracles: map<Name, Oracle>, account: Name): (p: Option<Name>)
    ensures p.Some? ==> p.value in oracles && oracles[p.value].account == account
  {
    var matching := Matching(oracles, account);
    if matching == {} then None else Some(Voting.Least(matching))
  }

  /** A reply closes a request: the assigned oracle succeeds in the first period, the standby oracle
      in the second, and after that both have failed. */
  function Reply(pay: Pay, chosen: Name, standby: Name, age: int): (after: Pay)
    ensures after == pay.(oracles := after.oracles, successes := after.successes)
  {
    var first := age < REQUEST_PERIOD;
    var second := !first && age < 2 * REQUEST_PERIOD;
    var known := OracleOf(pay.oracles, chosen);
    var o1 := if known.Some? then
                var o := pay.oracles[known.value];
                pay.oracles[known.value := o.(pending := o.pending - 1, failures := o.failures + if first then 0 else 1)]
              else pay.oracles;
    var backup := OracleOf(o1, standby);
    var o2 := if !first && !second && standby != 0 && backup.Some? then
                o1[backup.value := o1[backup.value].(failures := o1[backup.value].failures + 1)]
              else o1;
    var succeeded := if first && known.Some? then chosen else if second then standby else 0;
    var winner := OracleOf(o2, succeeded);
    if succeeded != 0 && winner.Some? then
      pay.(oracles := o2[winner.value := o2[winner.value].(successes := o2[winner.value].successes + 1)],
           successes := pay.successes + 1)
    else pay.(oracles := o2)
  }

  function AddRequest(pay: Pay, chosen: Name): (after: Pay)
    ensures after == pay.(oracles := after.oracles)
  {
    var known := OracleOf(pay.oracles, chosen);
    if known.Some? then
      pay.(oracles := pay.oracles[known.value := pay.oracles[known.value].(pending := pay.oracles[known.value].pending + 1)])
    else pay
  }
}
