/** What rewards are paid to whom: how fast tokens are issued, how they are spread, what a claim is
    worth, and which oracle has earned or lost what. */
module Payouts {
  import opened Outcomes
  import opened Arithmetic
  import opened Sums
  import opened Chain
  import opened Rewards
  import opened Exchange
  import opened RewardProofs
  import Ledger
  import Token
  import Voting
  import VotingProofs

  // Inflation

  /** New tokens are the whole part of 4.879 percent of the supply for a year of 52 weeks. */
  lemma RateOfInflation(supply: int, elapsed: int)
    requires 0 <= supply && 0 <= elapsed
    ensures var year := 52 * 7 * 86_400 * 1_000_000;
      && NewTokens(supply, year) == supply * 4879 / 100_000
      && NewTokens(supply, elapsed) * (100_000 * year) <= supply * elapsed * 4879 < (NewTokens(supply, elapsed) + 1) * (100_000 * year)
  {
    var year := 52 * 7 * 86_400 * 1_000_000;
    assert 4879 * supply * elapsed == supply * elapsed * 4879;
    FloorBounds(4879 * supply * elapsed, 100_000 * year);
    ScaledFloor(supply * 4879, 100_000, year);
    assert 4879 * supply * year == supply * 4879 * year;
  }

  lemma ScaledFloor(a: int, b: int, c: int)
    requires 0 <= a && 0 < b && 0 < c
    ensures 0 < b * c && a * c / (b * c) == a / b
  {
    MulPositive(b, c);
    FloorBounds(a, b);
    var q := a / b;
    MulLe(q * b, a, c);
    MulLe(a + 1, q * b + b, c);
    assert q * b * c == q * (b * c);
    assert (q * b + b) * c == (q + 1) * (b * c);
    assert (a + 1) * c == a * c + c;
    FloorAtLeast(q, a * c, b * c);
    FloorAtMost(q, a * c, b * c);
  }

  /** Sharing inflation in two steps on one supply issues no more than in one, and at most a unit less. */
  lemma NoGainFromOften(supply: int, first: int, second: int)
    requires 0 <= supply && 0 <= first && 0 <= second
    ensures NewTokens(supply, first) + NewTokens(supply, second) <= NewTokens(supply, first + second)
         <= NewTokens(supply, first) + NewTokens(supply, second) + 1
  {
    var unit := 100_000 * MICROSECONDS_PER_YEAR;
    var a, b := 4879 * supply * first, 4879 * supply * second;
    assert 4879 * supply * (first + second) == a + b;
    FloorBounds(a, unit);
    FloorBounds(b, unit);
    FloorAtLeast(a / unit + b / unit, a + b, unit);
    FloorAtMost(a / unit + b / unit + 1, a + b, unit);
  }

  /** Where an issue goes: half to the infrastructure accounts, half to the network's, each rounded down;
      what rounding leaves stays where it was passed on. */
  ghost predicate Spread(before: Tokens, after: Tokens, n: int) {
    && At(after, COMMUNITY) == At(before, COMMUNITY) + 325 * n / 1000 - 65 * n / 10_000
    && At(after, MARKETING) == At(before, MARKETING) + 50 * n / 1000
    && At(after, FOUNDING) == At(before, FOUNDING) + 125 * n / 1000
    && At(after, INFRASTRUCTURE) == At(before, INFRASTRUCTURE) + n / 2 - 325 * n / 1000 - 50 * n / 1000 - 125 * n / 1000
    && At(after, ORACLE) == At(before, ORACLE) + 65 * n / 10_000
    && At(after, BPAY) == At(before, BPAY) + 300 * n / 1000
    && At(after, DPAY) == At(before, DPAY) + 100 * n / 1000
    && At(after, WPAY) == At(before, WPAY) + 75 * n / 1000
    && At(after, VPAY) == At(before, VPAY) + 25 * n / 1000
    && At(after, NETWORK) == At(before, NETWORK) + n / 2 - 300 * n / 1000 - 100 * n / 1000 - 75 * n / 1000 - 25 * n / 1000
    && At(after, EOSIO) == At(before, EOSIO) + n - n / 2 - n / 2
  }

  predicate Served(a: Name) {
    a == EOSIO || a == NETWORK || a == INFRASTRUCTURE || a == COMMUNITY || a == MARKETING || a == FOUNDING || PayAccount(a)
  }

  lemma SpreadInfrastructure(tokens: Tokens, n: int)
    requires Token.NoneOverdrawn(tokens) && 154 <= n <= At(tokens, EOSIO)
    ensures ShareInfrastructure(tokens, n).Success?
    ensures var t := ShareInfrastructure(tokens, n).value;
      && Token.NoneOverdrawn(t)
      && At(t, EOSIO) == At(tokens, EOSIO) - n / 2 - n / 2
      && At(t, NETWORK) == At(tokens, NETWORK) + n / 2
      && At(t, COMMUNITY) == At(tokens, COMMUNITY) + ToCommunity(n) - ToOracles(n)
      && At(t, MARKETING) == At(tokens, MARKETING) + ToMarketing(n)
      && At(t, FOUNDING) == At(tokens, FOUNDING) + ToFounding(n)
      && At(t, INFRASTRUCTURE) == At(tokens, INFRASTRUCTURE) + n / 2 - ToCommunity(n) - ToMarketing(n) - ToFounding(n)
      && At(t, ORACLE) == At(tokens, ORACLE) + ToOracles(n)
      && (forall a :: a != EOSIO && a != NETWORK && a != INFRASTRUCTURE && a != COMMUNITY && a != MARKETING && a != FOUNDING && a != ORACLE
            ==> At(t, a) == At(tokens, a))
  {
    hide ToOracles, ToCommunity, ToMarketing, ToFounding, Total, Token.Transfer;
    SharesFit(n);
    ShareInfrastructureMoves(tokens, n);
    Token.TransferMoves(tokens, EOSIO, NETWORK, n / 2);
    var t0 := Token.Transfer(tokens, EOSIO, NETWORK, n / 2).value;
    Token.TransferMoves(t0, EOSIO, INFRASTRUCTURE, n / 2);
    var t1 := Token.Transfer(t0, EOSIO, INFRASTRUCTURE, n / 2).value;
    Token.TransferMoves(t1, INFRASTRUCTURE, COMMUNITY, ToCommunity(n));
    var t2 := Token.Transfer(t1, INFRASTRUCTURE, COMMUNITY, ToCommunity(n)).value;
    Token.TransferMoves(t2, INFRASTRUCTURE, MARKETING, ToMarketing(n));
    var t3 := Token.Transfer(t2, INFRASTRUCTURE, MARKETING, ToMarketing(n)).value;
    Token.TransferMoves(t3, INFRASTRUCTURE, FOUNDING, ToFounding(n));
    var t4 := Token.Transfer(t3, INFRASTRUCTURE, FOUNDING, ToFounding(n)).value;
    Token.TransferMoves(t4, COMMUNITY, ORACLE, ToOracles(n));
  }

  lemma SpreadNetwork(tokens: Tokens, n: int)
    requires Token.NoneOverdrawn(tokens) && 154 <= n && n / 2 <= At(tokens, NETWORK)
    ensures ShareNetwork(tokens, n).Success?
    ensures var t := ShareNetwork(tokens, n).value;
      At(t, NETWORK) == At(tokens, NETWORK) - ToBlocks(n) - ToDapps(n) - ToWitnesses(n) - ToVoters(n)
  {
    hide ToBlocks, ToDapps, ToWitnesses, ToVoters, Total, Token.Transfer;
    SharesFit(n);
    Token.TransferMoves(tokens, NETWORK, BPAY, ToBlocks(n));
    var t0 := Token.Transfer(tokens, NETWORK, BPAY, ToBlocks(n)).value;
    Token.TransferMoves(t0, NETWORK, DPAY, ToDapps(n));
    var t1 := Token.Transfer(t0, NETWORK, DPAY, ToDapps(n)).value;
    Token.TransferMoves(t1, NETWORK, WPAY, ToWitnesses(n));
    var t2 := Token.Transfer(t1, NETWORK, WPAY, ToWitnesses(n)).value;
    Token.TransferMoves(t2, NETWORK, VPAY, ToVoters(n));
  }

  lemma Fractions(n: int)
    requires 0 <= n
    ensures ToCommunity(n) == 325 * n / 1000 && ToMarketing(n) == 50 * n / 1000 && ToFounding(n) == 125 * n / 1000
    ensures ToOracles(n) == 65 * n / 10_000
    ensures ToBlocks(n) == 300 * n / 1000 && ToDapps(n) == 100 * n / 1000 && ToWitnesses(n) == 75 * n / 1000
    ensures ToVoters(n) == 25 * n / 1000
  {
  }

  lemma TokensSpread(tokens: Tokens, n: int)
    requires Token.NoneOverdrawn(tokens) && 154 <= n
    ensures var issued := tokens[EOSIO := At(tokens, EOSIO) + n];
      && ShareInfrastructure(issued, n).Success?
      && ShareNetwork(ShareInfrastructure(issued, n).value, n).Success?
      && var t := ShareNetwork(ShareInfrastructure(issued, n).value, n).value;
      Spread(tokens, t, n) && forall a :: !Served(a) ==> At(t, a) == At(tokens, a)
  {
    hide ShareInfrastructure, ShareNetwork, Total, ToCommunity, ToMarketing, ToFounding, ToOracles, ToBlocks, ToDapps, ToWitnesses,
         ToVoters;
    var issued := tokens[EOSIO := At(tokens, EOSIO) + n];
    Fractions(n);
    SpreadInfrastructure(issued, n);
    var shared := ShareInfrastructure(issued, n).value;
    ShareInfrastructureMoves(issued, n);
    SpreadNetwork(shared, n);
    ShareNetworkMoves(shared, n);
  }

  /** An issue reaches every account in its stated share, and no other account. */
  lemma InflationIsSpread(s: State, n: int)
    requires Token.NoneOverdrawn(s.tokens) && Inflate(s, n).Success?
    ensures var t := Inflate(s, n).value;
      && Spread(s.tokens, t.tokens, n)
      && forall a :: !Served(a) ==> At(t.tokens, a) == At(s.tokens, a)
  {
    hide ShareInfrastructure, ShareNetwork, Total, Spread, Served, Token.NoneOverdrawn, Lockstep;
    InflateMoves(s, n);
    TokensSpread(s.tokens, n);
  }

  /** Sharing inflation, once its clock has started and moved, issues what is due since it was last shared,
      fills every bucket with its share, and moves the clock to now; otherwise it does nothing. */
  lemma InflationIsShared(s: State, now: int)
    requires Token.NoneOverdrawn(s.tokens) && ShareInflation(s, now).Success?
    ensures var t := ShareInflation(s, now).value;
      var n := NewTokens(s.supply, now - s.pay.lastFill);
      if 0 < s.pay.lastFill < now then
        && t.supply == s.supply + n && Spread(s.tokens, t.tokens, n)
        && t.pay == s.pay.(blockBucket := s.pay.blockBucket + 300 * n / 1000,
                           dappTransferBucket := s.pay.dappTransferBucket + 50 * n / 1000,
                           dappUserBucket := s.pay.dappUserBucket + 50 * n / 1000,
                           witnessBucket := s.pay.witnessBucket + 75 * n / 1000,
                           voteBucket := s.pay.voteBucket + 25 * n / 1000,
                           oracleBucket := s.pay.oracleBucket + 65 * n / 10_000,
                           lastFill := now)
      else t == s
  {
    hide Total, Inflate, NewTokens, Lockstep, Spread, Token.NoneOverdrawn;
    if Due(s.pay.lastFill, now) {
      var n := NewTokens(s.supply, now - s.pay.lastFill);
      InflateMoves(s, n);
      InflationIsSpread(s, n);
      BucketFractions(s.pay, n);
    }
  }

  lemma BucketFractions(pay: Pay, n: int)
    requires 0 <= n
    ensures FillBuckets(pay, n)
         == pay.(blockBucket := pay.blockBucket + 300 * n / 1000,
                 dappTransferBucket := pay.dappTransferBucket + 50 * n / 1000,
                 dappUserBucket := pay.dappUserBucket + 50 * n / 1000,
                 witnessBucket := pay.witnessBucket + 75 * n / 1000,
                 voteBucket := pay.voteBucket + 25 * n / 1000,
                 oracleBucket := pay.oracleBucket + 65 * n / 10_000)
  {
    Fractions(n);
    HalfOfDapps(n);
  }

  // A producer's claim

  /** What a producer that is an oracle has to answer for: what was pending, and a token for each failure. */
  function PunishmentOf(pay: Pay, owner: Name): int {
    if owner in pay.oracles then pay.oracles[owner].punishment + pay.oracles[owner].failures * 1_0000 else 0
  }

  /** Its part of the block bucket, by unpaid blocks. */
  function BlockPart(s: State, owner: Name): int
    requires owner in s.votes.producers
  {
    if 0 < s.votes.unpaidBlocks then s.pay.blockBucket * s.votes.producers[owner].unpaidBlocks / s.votes.unpaidBlocks else 0
  }

  /** Its part of the oracle bucket, by successful requests. */
  function OraclePart(s: State, owner: Name): int {
    if owner in s.pay.oracles && 0 < s.pay.successes then s.pay.oracleBucket * s.pay.oracles[owner].successes / s.pay.successes
    else 0
  }

  /** What a producer's claim leaves, in figures: each part less the punishment that it can bear, oracle pay
      first. The producer's counters start over, and the punishment that could not be withheld is kept. */
  ghost predicate ProducerSettled(filled: State, t: State, now: int, owner: Name, share: int, total: int)
    requires owner in filled.votes.producers
  {
    var fine := PunishmentOf(filled.pay, owner);
    var oraclePart := OraclePart(filled, owner);
    var blockPart := BlockPart(filled, owner);
    var witnessPart := if 0 < total then Min(filled.pay.witnessBucket, filled.pay.witnessBucket * share / total) else 0;
    && t.pay.oracleBucket == filled.pay.oracleBucket - Max(0, oraclePart - fine)
    && t.pay.blockBucket == filled.pay.blockBucket - Max(0, blockPart - Max(0, fine - oraclePart))
    && t.pay.witnessBucket == filled.pay.witnessBucket - witnessPart
    && t.votes.producers.Keys == filled.votes.producers.Keys
    && t.votes.producers[owner] == filled.votes.producers[owner].(unpaidBlocks := 0, lastClaim := now, share := 0, lastShare := now)
    && t.votes.unpaidBlocks == filled.votes.unpaidBlocks - filled.votes.producers[owner].unpaidBlocks
    && (forall p :: p in filled.votes.producers && p != owner ==> t.votes.producers[p] == filled.votes.producers[p])
    && t.pay.oracles.Keys == filled.pay.oracles.Keys
    && (forall p :: p in filled.pay.oracles && p != owner ==> t.pay.oracles[p] == filled.pay.oracles[p])
    && (owner in filled.pay.oracles ==>
          var o := filled.pay.oracles[owner];
          && t.pay.oracles[owner] == o.(successes := 0, failures := 0,
                                        punishment := o.punishment + Max(0, fine - oraclePart - blockPart))
          && t.pay.successes == filled.pay.successes - o.successes)
  }

  lemma OracleFigure(s: State, owner: Name)
    ensures owner in s.pay.oracles ==>
      OraclePart(s, owner) == PartOf(s.pay.oracleBucket, s.pay.oracles[owner].successes, s.pay.successes)
    ensures owner !in s.pay.oracles ==> OraclePart(s, owner) == 0
  {
  }

  lemma OracleSettles(s: State, owner: Name, blockPart: int)
    requires PayInv(s.pay) && 0 <= blockPart
    ensures var (pay, due) := SettleOracle(s.pay, owner, blockPart);
      var fine := PunishmentOf(s.pay, owner);
      var oraclePart := OraclePart(s, owner);
      && due.oraclePay == Max(0, oraclePart - fine)
      && due.blockPay == Max(0, blockPart - Max(0, fine - oraclePart))
      && pay == s.pay.(oracles := pay.oracles, successes := pay.successes)
      && pay.oracles.Keys == s.pay.oracles.Keys
      && (forall p :: p in s.pay.oracles && p != owner ==> pay.oracles[p] == s.pay.oracles[p])
      && (owner in s.pay.oracles ==>
            var o := s.pay.oracles[owner];
            && pay.oracles[owner] == o.(successes := 0, failures := 0, punishment := o.punishment + Max(0, fine - oraclePart - blockPart))
            && pay.successes == s.pay.successes - o.successes)
  {
    hide Total, PartOf, OraclePart;
    if owner in s.pay.oracles {
      var o := s.pay.oracles[owner];
      SuccessesAtMost(s.pay.oracles, owner);
      PartIsFair(s.pay.oracleBucket, o.successes, s.pay.successes);
    }
    OracleFigure(s, owner);
  }

  lemma ClaimedRows(v: Votes, now: int, owner: Name)
    requires owner in v.producers
    ensures var w := ClaimedVotes(v, now, owner);
      && w.producers == v.producers[owner := v.producers[owner].(unpaidBlocks := 0, lastClaim := now, share := 0, lastShare := now)]
      && w.unpaidBlocks == v.unpaidBlocks - v.producers[owner].unpaidBlocks
  {
    hide Voting.Accrued;
  }

  /** A producer is paid exactly its parts less what it has to answer for. */
  lemma ProducerIsSettled(s: State, now: int, owner: Name, share: int, total: int)
    requires Whole(s, now) && PayInv(s.pay) && 0 < now && User(owner) && 0 <= share
    requires ClaimRewards(s, now, owner, share, total).Success?
    ensures ShareInflation(s, now).Success? && owner in ShareInflation(s, now).value.votes.producers
    ensures ProducerSettled(ShareInflation(s, now).value, ClaimRewards(s, now, owner, share, total).value, now, owner, share, total)
  {
    hide Whole, Total, Ledger.RexSurplus, Ledger.StakeSurplus, Lockstep, SettleOracle, ShareInflation, PayProducer, PayInv,
         ClaimedVotes, PunishmentOf, OraclePart, WitnessPart, Ledger.MaintInv;
    ShareInflationKeeps(s, now);
    var filled := ShareInflation(s, now).value;
    ClaimDue(filled, now, owner);
    var p := filled.votes.producers[owner];
    var part := PartOf(filled.pay.blockBucket, p.unpaidBlocks, filled.votes.unpaidBlocks);
    assert part == BlockPart(filled, owner);
    assert 0 <= part by { BlockPartNonneg(filled, now, owner); }
    OracleSettles(filled, owner, part);
    var (pay, due) := SettleOracle(filled.pay, owner, part);
    var claimed := filled.(votes := ClaimedVotes(filled.votes, now, owner), pay := pay);
    BucketsNonneg(filled.pay);
    WitnessPartFits(filled.pay.witnessBucket, share, total);
    var witnessPay := WitnessPart(filled.pay.witnessBucket, share, total);
    assert witnessPay == if 0 < total then Min(filled.pay.witnessBucket, filled.pay.witnessBucket * share / total) else 0 by {
      WitnessFigure(filled.pay.witnessBucket, share, total);
    }
    PayProducerKeeps(claimed, now, owner, due.blockPay, witnessPay, due.oraclePay);
    ClaimedRows(filled.votes, now, owner);
  }

  lemma WitnessFigure(bucket: int, share: int, total: int)
    ensures WitnessPart(bucket, share, total) == if 0 < total then Min(bucket, bucket * share / total) else 0
  {
  }

  lemma BlockPartNonneg(s: State, now: int, owner: Name)
    requires Whole(s, now) && PayInv(s.pay) && owner in s.votes.producers
    ensures 0 <= BlockPart(s, owner)
  {
    hide Ledger.MaintInv, VotingProofs.VoteInv, Total;
    UnpaidBlocksAtMost(s.votes, now, owner);
    PartIsFair(s.pay.blockBucket, s.votes.producers[owner].unpaidBlocks, s.votes.unpaidBlocks);
  }

  // A voter's claim

  /** A voter is paid exactly the part of the bucket that its unpaid votes are of all; its votes are then
      paid, its claim dated, and no other voter has changed. */
  lemma VoterIsSettled(s: State, now: int, owner: Name)
    requires Whole(s, now) && PayInv(s.pay) && User(owner) && VoteRewardsSafe(s) && ClaimVoterReward(s, now, owner).Success?
    ensures ShareInflation(s, now).Success? && owner in s.votes.voters && 0 < s.votes.unpaidVotes
    ensures var filled := ShareInflation(s, now).value;
      var t := ClaimVoterReward(s, now, owner).value;
      var own := s.votes.voters[owner].unpaidVotes;
      var reward := filled.pay.voteBucket * own / s.votes.unpaidVotes;
      && 0 < reward
      && At(t.tokens, owner) == At(filled.tokens, owner) + reward
      && t.pay == filled.pay.(voteBucket := filled.pay.voteBucket - reward)
      && t.votes.unpaidVotes == s.votes.unpaidVotes - own
      && t.votes.voters == s.votes.voters[owner := s.votes.voters[owner].(unpaidVotes := 0, lastClaim := now)]
  {
    hide Ledger.MaintInv, VotingProofs.VoteInv, Total, Ledger.RexSurplus, Ledger.StakeSurplus, ShareInflation, Divide, Token.NoneOverdrawn,
         Token.Transfer;
    ShareInflationKeeps(s, now);
    var filled := ShareInflation(s, now).value;
    TokensNotOverdrawn(filled, now);
    var own := s.votes.voters[owner].unpaidVotes;
    UnpaidVotesAtMost(s.votes, now, owner);
    DivideDefined(own * filled.pay.voteBucket, s.votes.unpaidVotes);
    VoterPart(filled.pay.voteBucket, own, s.votes.unpaidVotes);
    Token.TransferMoves(filled.tokens, VPAY, owner, PartOf(filled.pay.voteBucket, own, s.votes.unpaidVotes));
  }

  // A DApp's claim

  /** A DApp's owner is paid the quoted part of one bucket, filled up with its half of the issue. */
  lemma DappIsSettled(s: State, now: int, owner: Name, byUsers: bool, share: int, total: int)
    requires Token.NoneOverdrawn(s.tokens) && User(owner) && owner != NETWORK && 0 <= share && 0 < total
    requires Due(s.pay.lastDappFill, now) && ClaimDappReward(s, now, owner, byUsers, share, total).Success?
    ensures var n := NewTokens(s.supply, now - s.pay.lastDappFill);
      var t := ClaimDappReward(s, now, owner, byUsers, share, total).value;
      && Inflate(s, n).Success? && t.pay.lastDappFill == now && t.supply == s.supply + n
      && var bucket := (if byUsers then s.pay.dappUserBucket else s.pay.dappTransferBucket) + 50 * n / 1000;
      (0 <= bucket ==>
         var reward := bucket * share / total;
         && At(t.tokens, owner) == At(Inflate(s, n).value.tokens, owner) + reward
         && (if byUsers then t.pay.dappUserBucket == bucket - reward && t.pay.dappTransferBucket == s.pay.dappTransferBucket + 50 * n / 1000
             else t.pay.dappTransferBucket == bucket - reward && t.pay.dappUserBucket == s.pay.dappUserBucket + 50 * n / 1000))
  {
    hide Total, Token.NoneOverdrawn, Token.Transfer, Inflate, NewTokens, Lockstep, Divide;
    var n := NewTokens(s.supply, now - s.pay.lastDappFill);
    InflateMoves(s, n);
    var inflated := Inflate(s, n).value;
    var bucket := if byUsers then inflated.pay.dappUserBucket else inflated.pay.dappTransferBucket;
    HalfOfDapps(n);
    if 0 <= bucket { QuotedPart(bucket, share, total); }
    Token.TransferMoves(inflated.tokens, DPAY, owner, Divide(bucket * share, total).value);
  }

  lemma HalfOfDapps(n: int)
    requires 0 <= n
    ensures ToEachDapp(n) == 50 * n / 1000
  {
  }

  lemma QuotedPart(bucket: int, share: int, total: int)
    requires 0 <= bucket && 0 <= share && 0 < total
    ensures Divide(bucket * share, total) == Success(bucket * share / total)
  {
    MulNonneg(bucket, share);
  }

  // Counters

  /** Whether the oracle account of a producer is the first one with a name. */
  predicate Is(oracles: map<Name, Oracle>, p: Name, account: Name) {
    OracleOf(oracles, account) == Some(p)
  }

  lemma SameAccounts(before: map<Name, Oracle>, after: map<Name, Oracle>, account: Name)
    requires after.Keys == before.Keys && forall p :: p in before ==> after[p].account == before[p].account
    ensures OracleOf(after, account) == OracleOf(before, account)
  {
    hide Voting.Least;
    assert Matching(after, account) == Matching(before, account);
  }

  /** What a reply does to a producer's oracle: the assigned one has one request less pending; it succeeds
      within the first five minutes, and fails after them; the standby oracle succeeds in the next five, and
      fails after them as well. */
  function Answered(o: Oracle, asked: bool, standby: bool, age: int, chosenNamed: bool, standbyNamed: bool): Oracle {
    var first := age < 300_000_000;
    var second := !first && age < 600_000_000;
    o.(pending := o.pending - if asked then 1 else 0,
       failures := o.failures + (if asked && !first then 1 else 0)
                   + (if standby && standbyNamed && !first && !second then 1 else 0),
       successes := o.successes + (if asked && first && chosenNamed then 1 else 0)
                    + (if standby && second && standbyNamed then 1 else 0))
  }

  /** A reply changes the counters of exactly the oracles it is about, each as it deserves. */
  lemma ReplyCounts(pay: Pay, chosen: Name, standby: Name, age: int)
    ensures var after := Reply(pay, chosen, standby, age);
      && after.oracles.Keys == pay.oracles.Keys
      && forall p :: p in pay.oracles ==>
           after.oracles[p] == Answered(pay.oracles[p], Is(pay.oracles, p, chosen), Is(pay.oracles, p, standby), age,
                                        chosen != 0, standby != 0)
  {
    hide OracleOf;
    var first := age < REQUEST_PERIOD;
    var second := !first && age < 2 * REQUEST_PERIOD;
    var known := OracleOf(pay.oracles, chosen);
    var o1 := if known.Some? then
                var o := pay.oracles[known.value];
                pay.oracles[known.value := o.(pending := o.pending - 1, failures := o.failures + if first then 0 else 1)]
              else pay.oracles;
    SameAccounts(pay.oracles, o1, standby);
    var backup := OracleOf(o1, standby);
    var o2 := if !first && !second && standby != 0 && backup.Some? then
                o1[backup.value := o1[backup.value].(failures := o1[backup.value].failures + 1)]
              else o1;
    SameAccounts(pay.oracles, o2, standby);
    SameAccounts(pay.oracles, o2, chosen);
  }

  /** Once the chain is activated a block counts once for its producer, if that is registered, and starts
      the clocks that have not run; before, it counts for nothing. */
  lemma BlockIsCounted(s: State, now: int, producer: Name)
    ensures var t := OnBlock(s, now, producer);
      var counts := Voting.MIN_ACTIVATED_STAKE <= s.votes.activatedStake;
      && (!counts ==> t == s)
      && (counts ==>
            && t.pay == s.pay.(lastFill := if s.pay.lastFill == 0 then now else s.pay.lastFill,
                               lastDappFill := if s.pay.lastDappFill == 0 then now else s.pay.lastDappFill)
            && t.votes.producers.Keys == s.votes.producers.Keys
            && (forall p :: p in s.votes.producers ==>
                  t.votes.producers[p] == s.votes.producers[p].(unpaidBlocks :=
                                            s.votes.producers[p].unpaidBlocks + if p == producer then 1 else 0))
            && t.votes.unpaidBlocks == s.votes.unpaidBlocks + (if producer in s.votes.producers then 1 else 0))
  {
  }

  /** A request is pending with exactly one oracle, the first that answers to the chosen account, if any. */
  lemma RequestIsPending(pay: Pay, chosen: Name)
    ensures var after := AddRequest(pay, chosen);
      && after.oracles.Keys == pay.oracles.Keys
      && forall p :: p in pay.oracles ==>
           after.oracles[p] == pay.oracles[p].(pending := pay.oracles[p].pending + if Is(pay.oracles, p, chosen) then 1 else 0)
  {
    hide OracleOf;
  }

  /** A registered producer names its oracle account and keeps its record; nobody else's changes. */
  lemma OracleIsNamed(s: State, producer: Name, account: Name)
    ensures SetOracle(s, producer, account).Success? <==> producer in s.votes.producers
    ensures SetOracle(s, producer, account).Success? ==>
      var after := SetOracle(s, producer, account).value.pay.oracles;
      && after.Keys == s.pay.oracles.Keys + {producer} && after[producer].account == account
      && (producer in s.pay.oracles ==> after[producer] == s.pay.oracles[producer].(account := account))
      && (producer !in s.pay.oracles ==> after[producer] == Oracle(account, 0, 0, 0, 0))
      && forall p :: p in s.pay.oracles && p != producer ==> after[p] == s.pay.oracles[p]
  {
  }
}
