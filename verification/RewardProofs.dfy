/** The reward buckets are backed by their accounts, counters agree with what is paid out, and no
    claim makes later claimants worse off. */
module RewardProofs {
  import opened Outcomes
  import opened Arithmetic
  import opened Sums
  import opened Chain
  import opened Rewards
  import opened Exchange
  import opened Ledger
  import Token
  import Voting
  import VotingProofs

  // Backing

  /** What a reward account holds beyond its buckets. */
  function PaySurplus(s: State, a: Name): int
    requires PayAccount(a)
  {
    At(s.tokens, a) -
      if a == BPAY then s.pay.blockBucket
      else if a == WPAY then s.pay.witnessBucket
      else if a == VPAY then s.pay.voteBucket
      else if a == ORACLE then s.pay.oracleBucket
      else s.pay.dappTransferBucket + s.pay.dappUserBucket
  }

  /** The reward accounts move in lockstep with their buckets; the DApp account may only gain. */
  ghost predicate Lockstep(s: State, t: State) {
    && (forall a :: PayAccount(a) && a != DPAY ==> PaySurplus(t, a) == PaySurplus(s, a))
    && PaySurplus(s, DPAY) <= PaySurplus(t, DPAY)
  }

  ghost function SuccessesOf(oracles: map<Name, Oracle>): map<Name, int> {
    map p | p in oracles :: oracles[p].successes
  }

  ghost predicate OraclesOk(oracles: map<Name, Oracle>) {
    forall p :: p in oracles ==> 0 <= oracles[p].successes && 0 <= oracles[p].failures && 0 <= oracles[p].punishment
  }

  /** Block, witness and oracle buckets are not negative, and successful requests are counted right. */
  ghost predicate PayInv(pay: Pay) {
    && 0 <= pay.blockBucket && 0 <= pay.witnessBucket && 0 <= pay.oracleBucket
    && OraclesOk(pay.oracles)
    && pay.successes == Total(SuccessesOf(pay.oracles))
  }

  // Parts

  /** A part of a bucket is no more than the bucket, and taking it never lowers what is left for
      each remaining unit. */
  lemma PartIsFair(bucket: int, own: int, total: int)
    requires 0 <= bucket && 0 <= own <= total
    ensures var part := PartOf(bucket, own, total);
      0 <= part <= bucket && bucket * (total - own) <= (bucket - part) * total
  {
    if 0 < total {
      MulNonneg(bucket, own);
      FloorNonneg(bucket * own, total);
      FloorBounds(bucket * own, total);
      var part := bucket * own / total;
      assert (bucket - part) * total == bucket * total - part * total;
      assert bucket * (total - own) == bucket * total - bucket * own;
      MulLe(own, total, bucket);
      assert bucket * own == own * bucket && total * bucket == bucket * total;
      CancelLe(part, bucket, total);
    }
  }

  /** Punishment is conserved within a claim: what is not withheld from the pay stays open, and
      nothing is withheld beyond it. */
  lemma PunishConserves(oraclePay: int, blockPay: int, punishment: int)
    requires 0 <= oraclePay && 0 <= blockPay && 0 <= punishment
    ensures var r := Punish(oraclePay, blockPay, punishment);
      && 0 <= r.oraclePay <= oraclePay && 0 <= r.blockPay <= blockPay
      && r.open == Max(0, punishment - oraclePay - blockPay)
      && (oraclePay - r.oraclePay) + (blockPay - r.blockPay) + r.open == punishment
  {
  }

  /** But the pending punishment after a claim is what stayed open only if none was pending before:
      what was pending is counted again. */
  lemma PendingPunishmentCountedOnce(pay: Pay, owner: Name, blockPay: int)
    requires owner in pay.oracles
    ensures var (after, result) := SettleOracle(pay, owner, blockPay);
      after.oracles[owner].punishment == result.open <==> pay.oracles[owner].punishment == 0
  {
  }

  // Inflation

  ghost predicate SharesCovered(n: int) {
    && 0 < ToOracles(n) <= ToCommunity(n) && 0 < ToMarketing(n) && 0 < ToFounding(n)
    && ToCommunity(n) + ToMarketing(n) + ToFounding(n) <= n / 2
    && 0 < ToBlocks(n) && 0 < ToDapps(n) && 0 < ToWitnesses(n) && 0 < ToVoters(n)
    && ToBlocks(n) + ToDapps(n) + ToWitnesses(n) + ToVoters(n) <= n / 2
    && 0 < n / 2
  }

  /** All shares are positive from 154 new units on, and they never exceed what was issued. */
  lemma SharesFit(n: int)
    requires 0 < n
    ensures 154 <= n ==> SharesCovered(n)
    ensures n < 154 ==> ToOracles(n) == 0
  {
  }

  lemma ShareInfrastructureMoves(tokens: Tokens, n: int)
    requires Token.NoneOverdrawn(tokens) && 0 < n <= At(tokens, EOSIO)
    ensures ShareInfrastructure(tokens, n).Success? <==> 154 <= n
    ensures 154 <= n ==>
      var t := ShareInfrastructure(tokens, n).value;
      && Token.NoneOverdrawn(t) && Total(t) == Total(tokens)
      && At(t, NETWORK) == At(tokens, NETWORK) + n / 2
      && At(t, ORACLE) == At(tokens, ORACLE) + ToOracles(n)
      && (forall a :: a != EOSIO && a != NETWORK && a != INFRASTRUCTURE && a != COMMUNITY && a != MARKETING && a != FOUNDING && a != ORACLE
            ==> At(t, a) == At(tokens, a))
      && At(tokens, EOSIO) - n <= At(t, EOSIO)
      && (forall a :: a != EOSIO ==> At(tokens, a) <= At(t, a))
  {
    hide ToOracles, ToCommunity, ToMarketing, ToFounding, Total, Token.Transfer;
    SharesFit(n);
    Token.TransferMoves(tokens, EOSIO, NETWORK, n / 2);
    if 1 < n {
      var t0 := Token.Transfer(tokens, EOSIO, NETWORK, n / 2).value;
      Token.TransferMoves(t0, EOSIO, INFRASTRUCTURE, n / 2);
      var t1 := Token.Transfer(t0, EOSIO, INFRASTRUCTURE, n / 2).value;
      Token.TransferMoves(t1, INFRASTRUCTURE, COMMUNITY, ToCommunity(n));
      if Token.Transfer(t1, INFRASTRUCTURE, COMMUNITY, ToCommunity(n)).Success? {
        var t2 := Token.Transfer(t1, INFRASTRUCTURE, COMMUNITY, ToCommunity(n)).value;
        Token.TransferMoves(t2, INFRASTRUCTURE, MARKETING, ToMarketing(n));
        if Token.Transfer(t2, INFRASTRUCTURE, MARKETING, ToMarketing(n)).Success? {
          var t3 := Token.Transfer(t2, INFRASTRUCTURE, MARKETING, ToMarketing(n)).value;
          Token.TransferMoves(t3, INFRASTRUCTURE, FOUNDING, ToFounding(n));
          if Token.Transfer(t3, INFRASTRUCTURE, FOUNDING, ToFounding(n)).Success? {
            var t4 := Token.Transfer(t3, INFRASTRUCTURE, FOUNDING, ToFounding(n)).value;
            Token.TransferMoves(t4, COMMUNITY, ORACLE, ToOracles(n));
          }
        }
      }
    }
  }

  lemma ShareNetworkMoves(tokens: Tokens, n: int)
    requires Token.NoneOverdrawn(tokens) && 154 <= n && n / 2 <= At(tokens, NETWORK)
    ensures ShareNetwork(tokens, n).Success?
    ensures var t := ShareNetwork(tokens, n).value;
      && Token.NoneOverdrawn(t) && Total(t) == Total(tokens)
      && At(t, BPAY) == At(tokens, BPAY) + ToBlocks(n)
      && At(t, DPAY) == At(tokens, DPAY) + ToDapps(n)
      && At(t, WPAY) == At(tokens, WPAY) + ToWitnesses(n)
      && At(t, VPAY) == At(tokens, VPAY) + ToVoters(n)
      && (forall a :: a != NETWORK && a != BPAY && a != DPAY && a != WPAY && a != VPAY ==> At(t, a) == At(tokens, a))
      && At(tokens, NETWORK) - n / 2 <= At(t, NETWORK)
  {
    hide ToBlocks, ToDapps, ToWitnesses, ToVoters, Total, Token.Transfer;
    SharesFit(n);
    Token.TransferMoves(tokens, NETWORK, BPAY, ToBlocks(n));
    var t0 := Token.Transfer(tokens, NETWORK, BPAY, ToBlocks(n)).value;
    Token.TransferMoves(t0, NETWORK, DPAY, ToDapps(n));
    var t1 := Token.Transfer(t0, NETWORK, DPAY, ToDapps(n)).value;
    Token.TransferMoves(t1, NETWORK, WPAY, ToWitnesses(n));
    var t2 := Token.Transfer(t1, NETWORK, WPAY, ToWitnesses(n)).value;
    Token.TransferMoves(t2, NETWORK, VPAY, ToVoters(n));
  }

  /** The tokens after an issue of `n` units was spread. */
  lemma SpreadMoves(tokens: Tokens, n: int)
    requires Token.NoneOverdrawn(tokens) && 0 < n
    ensures var issued := tokens[EOSIO := At(tokens, EOSIO) + n];
      var shared := ShareInfrastructure(issued, n);
      && (shared.Success? <==> 154 <= n)
      && (154 <= n ==>
            && ShareNetwork(shared.value, n).Success?
            && var t := ShareNetwork(shared.value, n).value;
            && Token.NoneOverdrawn(t) && Total(t) == Total(tokens) + n
            && At(t, BPAY) == At(tokens, BPAY) + ToBlocks(n)
            && At(t, DPAY) == At(tokens, DPAY) + ToDapps(n)
            && At(t, WPAY) == At(tokens, WPAY) + ToWitnesses(n)
            && At(t, VPAY) == At(tokens, VPAY) + ToVoters(n)
            && At(t, ORACLE) == At(tokens, ORACLE) + ToOracles(n)
            && (forall a :: a == REX || a == STAKE || a == NAMES || a == RAMFEE ==> At(t, a) == At(tokens, a))
            && (forall a :: At(tokens, a) <= At(t, a)))
  {
    hide ShareInfrastructure, ShareNetwork, Total, ToBlocks, ToDapps, ToWitnesses, ToVoters, ToOracles;
    var issued := tokens[EOSIO := At(tokens, EOSIO) + n];
    TotalUpdate(tokens, EOSIO, At(tokens, EOSIO) + n);
    SharesFit(n);
    ShareInfrastructureMoves(issued, n);
    if 154 <= n {
      ShareNetworkMoves(ShareInfrastructure(issued, n).value, n);
    }
  }

  /** Inflation succeeds exactly when at least 154 units are new, so that the oracles' share is not
      zero, and the maximum supply allows them. Then the reward accounts and buckets grow together
      and nothing else that backs a claim moves. */
  lemma InflateMoves(s: State, n: int)
    requires Token.NoneOverdrawn(s.tokens)
    ensures Inflate(s, n).Success? <==> 154 <= n <= s.maxSupply - s.supply
    ensures Inflate(s, n).Success? ==>
      var t := Inflate(s, n).value;
      && t == s.(tokens := t.tokens, supply := s.supply + n, pay := FillBuckets(s.pay, n))
      && Token.NoneOverdrawn(t.tokens) && Total(t.tokens) == Total(s.tokens) + n
      && Lockstep(s, t)
      && (forall a :: a == REX || a == STAKE || a == NAMES || a == RAMFEE ==> At(t.tokens, a) == At(s.tokens, a))
      && (forall a :: At(s.tokens, a) <= At(t.tokens, a))
  {
    hide ShareInfrastructure, ShareNetwork, Total, Token.NoneOverdrawn, ToBlocks, ToWitnesses, ToVoters, ToOracles, At;
    if 0 < n <= s.maxSupply - s.supply {
      SpreadMoves(s.tokens, n);
      HalvesOfDapps(n);
    }
  }

  /** The two DApp buckets never get more than the DApp account. */
  lemma HalvesOfDapps(n: int)
    requires 0 < n
    ensures 2 * ToEachDapp(n) <= ToDapps(n)
  {
  }

  // Actions on rewards

  /** What an action on rewards keeps: the invariants, everything the exchange and the stakes owe,
      tokens against supply, and reward accounts against their buckets. */
  ghost predicate Rewarded(s: State, t: State, now: int) {
    && Whole(t, now) && PayInv(t.pay)
    && t == s.(tokens := t.tokens, supply := t.supply, pay := t.pay, votes := t.votes)
    && RexSurplus(t) == RexSurplus(s) && StakeSurplus(t) == StakeSurplus(s)
    && Total(t.tokens) - t.supply == Total(s.tokens) - s.supply
    && Lockstep(s, t)
  }

  /** Nothing that backs the exchange or the stakes is touched by tokens moving elsewhere. */
  lemma RewardFrame(s: State, t: State, now: int)
    requires MaintInv(s, now)
    requires t == s.(tokens := t.tokens, supply := t.supply, pay := t.pay, votes := t.votes)
    requires Token.NoneOverdrawn(t.tokens) && At(t.tokens, NAMES) == At(s.tokens, NAMES)
    ensures MaintInv(t, now)
    ensures RexSurplus(t) - RexSurplus(s) == At(t.tokens, REX) - At(s.tokens, REX)
    ensures StakeSurplus(t) - StakeSurplus(s) == At(t.tokens, STAKE) - At(s.tokens, STAKE)
  {
  }

  /** Whether inflation, if it is due, can be issued. */
  predicate Inflatable(s: State, lastFill: int, now: int) {
    Due(lastFill, now) ==> 154 <= NewTokens(s.supply, now - lastFill) <= s.maxSupply - s.supply
  }

  /** Inflation is shared out or the claim aborts: it aborts exactly when fewer than 154 units are new,
      or more than the maximum supply allows. */
  lemma ShareInflationKeeps(s: State, now: int)
    requires Whole(s, now) && PayInv(s.pay)
    ensures ShareInflation(s, now).Success? <==> Inflatable(s, s.pay.lastFill, now)
    ensures ShareInflation(s, now).Success? ==>
      var t := ShareInflation(s, now).value;
      && Rewarded(s, t, now) && t.votes == s.votes
      && t.pay.oracles == s.pay.oracles && t.pay.successes == s.pay.successes && t.pay.claimPeriod == s.pay.claimPeriod
      && s.pay.voteBucket <= t.pay.voteBucket
  {
    hide MaintInv, VotingProofs.VoteInv, Total, RexSurplus, StakeSurplus, Inflate, NewTokens, Token.NoneOverdrawn;
    assert Token.NoneOverdrawn(s.tokens) by { TokensNotOverdrawn(s, now); }
    if Due(s.pay.lastFill, now) {
      var n := NewTokens(s.supply, now - s.pay.lastFill);
      InflateMoves(s, n);
      if Inflate(s, n).Success? {
        RewardFrame(s, ShareInflation(s, now).value, now);
        SharesFit(n);
      }
    }
  }

  /** A reward is paid in full when its account covers it. */
  lemma PayOutMoves(s: State, from: Name, owner: Name, amount: int)
    requires Token.NoneOverdrawn(s.tokens) && PayAccount(from) && User(owner) && 0 <= amount
    ensures PayOut(s, from, owner, amount).Success? <==> amount <= At(s.tokens, from)
    ensures amount <= At(s.tokens, from) ==>
      var t := PayOut(s, from, owner, amount).value;
      && t == s.(tokens := t.tokens)
      && Token.NoneOverdrawn(t.tokens) && Total(t.tokens) == Total(s.tokens)
      && At(t.tokens, from) == At(s.tokens, from) - amount
      && (forall a :: a != from && a != owner ==> At(t.tokens, a) == At(s.tokens, a))
  {
    hide Total;
    if 0 < amount { Token.TransferMoves(s.tokens, from, owner, amount); }
  }

  lemma SuccessesUpdate(oracles: map<Name, Oracle>, p: Name, o: Oracle)
    ensures Total(SuccessesOf(oracles[p := o]))
         == Total(SuccessesOf(oracles)) - At(SuccessesOf(oracles), p) + o.successes
  {
    assert SuccessesOf(oracles[p := o]) == SuccessesOf(oracles)[p := o.successes];
    TotalUpdate(SuccessesOf(oracles), p, o.successes);
  }

  /** No oracle has more successes than all of them together. */
  lemma SuccessesAtMost(oracles: map<Name, Oracle>, p: Name)
    requires OraclesOk(oracles) && p in oracles
    ensures oracles[p].successes <= Total(SuccessesOf(oracles))
  {
    TotalAtLeast(SuccessesOf(oracles), p);
  }

  /** Settling an oracle keeps the counters; it is paid at most its fair part of the bucket, and
      block pay is only ever withheld. */
  lemma SettleOracleKeeps(pay: Pay, owner: Name, blockPay: int)
    requires PayInv(pay) && 0 <= blockPay
    ensures var (after, due) := SettleOracle(pay, owner, blockPay);
      && PayInv(after) && after == pay.(oracles := after.oracles, successes := after.successes)
      && 0 <= due.blockPay <= blockPay && 0 <= due.oraclePay <= pay.oracleBucket
      && pay.oracleBucket * after.successes <= (pay.oracleBucket - due.oraclePay) * pay.successes
  {
    hide Total, PartOf;
    if owner in pay.oracles {
      var o := pay.oracles[owner];
      SuccessesAtMost(pay.oracles, owner);
      PartIsFair(pay.oracleBucket, o.successes, pay.successes);
      var part := PartOf(pay.oracleBucket, o.successes, pay.successes);
      var punishment := o.punishment + o.failures * PUNISHMENT_RATE;
      PunishConserves(part, blockPay, punishment);
      var (after, due) := SettleOracle(pay, owner, blockPay);
      SuccessesUpdate(pay.oracles, owner, after.oracles[owner]);
      SuccessesNonneg(pay.oracles);
      MulLe(pay.oracleBucket - part, pay.oracleBucket - due.oraclePay, pay.successes);
    }
  }

  lemma SuccessesNonneg(oracles: map<Name, Oracle>)
    requires OraclesOk(oracles)
    ensures 0 <= Total(SuccessesOf(oracles))
  {
    TotalNonneg(SuccessesOf(oracles));
  }

  /** No producer has more unpaid blocks than all of them together. */
  lemma UnpaidBlocksAtMost(v: Votes, now: int, p: Name)
    requires VotingProofs.VoteInv(v, now) && p in v.producers
    ensures 0 <= v.producers[p].unpaidBlocks <= v.unpaidBlocks
  {
    TotalAtLeast(VotingProofs.UnpaidBlocksOf(v.producers), p);
  }

  lemma ClaimedVotesKeep(v: Votes, now: int, owner: Name)
    requires 0 < now && VotingProofs.VoteInv(v, now) && owner in v.producers
    ensures var v' := ClaimedVotes(v, now, owner);
      && VotingProofs.VoteInv(v', now)
      && v'.unpaidBlocks == v.unpaidBlocks - v.producers[owner].unpaidBlocks
      && v'.voters == v.voters && v'.unpaidVotes == v.unpaidVotes && v'.producers.Keys == v.producers.Keys
  {
    hide VotingProofs.VoteInv;
    VotingProofs.ClaimShareKeeps(v, now, owner);
    var claimed := Voting.ClaimShare(v, now, owner);
    VotingProofs.ProducerRowKeeps(claimed, now, owner, claimed.producers[owner].(unpaidBlocks := 0));
  }

  /** The reward accounts cover their buckets. */
  ghost predicate Backed(s: State) {
    forall a :: PayAccount(a) ==> 0 <= PaySurplus(s, a)
  }

  lemma RewardedTransitive(s: State, t: State, u: State, now: int)
    requires Rewarded(s, t, now) && Rewarded(t, u, now)
    ensures Rewarded(s, u, now)
  {
    hide Whole, PayInv, RexSurplus, StakeSurplus, Total;
  }

  /** Bucket and account fall together, by what the producer is paid. */
  lemma PayProducerKeeps(s: State, now: int, owner: Name, blockPay: int, witnessPay: int, oraclePay: int)
    requires Whole(s, now) && PayInv(s.pay) && User(owner)
    requires 0 <= blockPay <= s.pay.blockBucket && 0 <= witnessPay <= s.pay.witnessBucket
    requires 0 <= oraclePay <= s.pay.oracleBucket
    ensures var r := PayProducer(s, owner, blockPay, witnessPay, oraclePay);
      && (r.Success? <==> blockPay <= At(s.tokens, BPAY) && witnessPay <= At(s.tokens, WPAY) && oraclePay <= At(s.tokens, ORACLE))
      && (r.Success? ==>
            && Rewarded(s, r.value, now) && r.value.votes == s.votes
            && r.value.pay == s.pay.(witnessBucket := s.pay.witnessBucket - witnessPay,
                                     blockBucket := s.pay.blockBucket - blockPay,
                                     oracleBucket := s.pay.oracleBucket - oraclePay))
  {
    hide MaintInv, VotingProofs.VoteInv, Total, RexSurplus, StakeSurplus, PayOut, Token.NoneOverdrawn, At;
    assert Token.NoneOverdrawn(s.tokens) by { TokensNotOverdrawn(s, now); }
    var booked := s.(pay := s.pay.(witnessBucket := s.pay.witnessBucket - witnessPay,
                                   blockBucket := s.pay.blockBucket - blockPay,
                                   oracleBucket := s.pay.oracleBucket - oraclePay));
    PayOutMoves(booked, BPAY, owner, blockPay);
    if PayOut(booked, BPAY, owner, blockPay).Success? {
      var s1 := PayOut(booked, BPAY, owner, blockPay).value;
      PayOutMoves(s1, WPAY, owner, witnessPay);
      if PayOut(s1, WPAY, owner, witnessPay).Success? {
        var s2 := PayOut(s1, WPAY, owner, witnessPay).value;
        PayOutMoves(s2, ORACLE, owner, oraclePay);
        if PayOut(s2, ORACLE, owner, oraclePay).Success? {
          RewardFrame(s, PayOut(s2, ORACLE, owner, oraclePay).value, now);
        }
      }
    }
  }

  lemma WitnessPartFits(bucket: int, share: int, total: int)
    requires 0 <= bucket && 0 <= share
    ensures 0 <= WitnessPart(bucket, share, total) <= bucket
  {
    if 0 < total {
      MulNonneg(bucket, share);
      FloorNonneg(bucket * share, total);
    }
  }

  /** The state a producer is paid from, and the pay it is due. */
  lemma ClaimDue(s: State, now: int, owner: Name)
    requires Whole(s, now) && PayInv(s.pay) && 0 < now && owner in s.votes.producers
    ensures var own := s.votes.producers[owner].unpaidBlocks;
      var (pay, due) := SettleOracle(s.pay, owner, PartOf(s.pay.blockBucket, own, s.votes.unpaidBlocks));
      var claimed := s.(votes := ClaimedVotes(s.votes, now, owner), pay := pay);
      && Rewarded(s, claimed, now) && pay == s.pay.(oracles := pay.oracles, successes := pay.successes)
      && 0 <= due.blockPay <= s.pay.blockBucket && 0 <= due.oraclePay <= s.pay.oracleBucket
      && s.pay.blockBucket * claimed.votes.unpaidBlocks <= (s.pay.blockBucket - due.blockPay) * s.votes.unpaidBlocks
      && s.pay.oracleBucket * pay.successes <= (s.pay.oracleBucket - due.oraclePay) * s.pay.successes
  {
    hide MaintInv, VotingProofs.VoteInv, Total, RexSurplus, StakeSurplus, PartOf, SettleOracle, ClaimedVotes;
    var own := s.votes.producers[owner].unpaidBlocks;
    UnpaidBlocksAtMost(s.votes, now, owner);
    PartIsFair(s.pay.blockBucket, own, s.votes.unpaidBlocks);
    var part := PartOf(s.pay.blockBucket, own, s.votes.unpaidBlocks);
    SettleOracleKeeps(s.pay, owner, part);
    ClaimedVotesKeep(s.votes, now, owner);
    var (pay, due) := SettleOracle(s.pay, owner, part);
    TokensNotOverdrawn(s, now);
    RewardFrame(s, s.(votes := ClaimedVotes(s.votes, now, owner), pay := pay), now);
    MulLe(s.pay.blockBucket - part, s.pay.blockBucket - due.blockPay, s.votes.unpaidBlocks);
  }

  /** A producer's claim keeps accounts and buckets in lockstep, and leaves no less for each block
      and each successful request still to be paid. */
  lemma ClaimRewardsKeeps(s: State, now: int, owner: Name, witnessShare: int, witnessTotal: int)
    requires Whole(s, now) && PayInv(s.pay) && 0 < now && User(owner) && 0 <= witnessShare
    requires ClaimRewards(s, now, owner, witnessShare, witnessTotal).Success?
    ensures var filled := ShareInflation(s, now).value;
      var t := ClaimRewards(s, now, owner, witnessShare, witnessTotal).value;
      && Rewarded(s, t, now) && t.votes.voters == s.votes.voters && s.pay.voteBucket <= t.pay.voteBucket
      && t.votes.unpaidVotes == s.votes.unpaidVotes
      && filled.pay.blockBucket * t.votes.unpaidBlocks <= t.pay.blockBucket * filled.votes.unpaidBlocks
      && filled.pay.oracleBucket * t.pay.successes <= t.pay.oracleBucket * filled.pay.successes
  {
    hide Whole, Total, RexSurplus, StakeSurplus, Lockstep, PartOf, SettleOracle, ShareInflation, PayProducer,
         WitnessPart, PayInv;
    ShareInflationKeeps(s, now);
    var filled := ShareInflation(s, now).value;
    ClaimDue(filled, now, owner);
    var p := filled.votes.producers[owner];
    var (pay, due) := SettleOracle(filled.pay, owner,
                                   PartOf(filled.pay.blockBucket, p.unpaidBlocks, filled.votes.unpaidBlocks));
    var claimed := filled.(votes := ClaimedVotes(filled.votes, now, owner), pay := pay);
    assert 0 <= filled.pay.witnessBucket by { BucketsNonneg(filled.pay); }
    WitnessPartFits(filled.pay.witnessBucket, witnessShare, witnessTotal);
    var witnessPay := WitnessPart(filled.pay.witnessBucket, witnessShare, witnessTotal);
    PayProducerKeeps(claimed, now, owner, due.blockPay, witnessPay, due.oraclePay);
    var t := PayProducer(claimed, owner, due.blockPay, witnessPay, due.oraclePay).value;
    RewardedTransitive(s, filled, claimed, now);
    RewardedTransitive(s, claimed, t, now);
    ClaimedVoters(filled.votes, now, owner);
  }

  lemma ClaimedVoters(v: Votes, now: int, owner: Name)
    requires owner in v.producers
    ensures ClaimedVotes(v, now, owner).voters == v.voters && ClaimedVotes(v, now, owner).unpaidVotes == v.unpaidVotes
  {
  }

  lemma BucketsNonneg(pay: Pay)
    requires PayInv(pay)
    ensures 0 <= pay.blockBucket && 0 <= pay.witnessBucket && 0 <= pay.oracleBucket
  {
  }

  /** With backed buckets a producer's claim is refused for the stated reasons alone: no reward
      account is ever short. */
  lemma ClaimRewardsPaid(s: State, now: int, owner: Name, witnessShare: int, witnessTotal: int)
    requires Whole(s, now) && PayInv(s.pay) && 0 < now && User(owner) && 0 <= witnessShare && Backed(s)
    ensures ClaimRewards(s, now, owner, witnessShare, witnessTotal).Success? <==>
      && Voting.MIN_ACTIVATED_STAKE <= s.votes.activatedStake && Inflatable(s, s.pay.lastFill, now)
      && owner in s.votes.producers && s.votes.producers[owner].active
  {
    hide Whole, Total, RexSurplus, StakeSurplus, PartOf, SettleOracle, ShareInflation, PayProducer, WitnessPart,
         PayInv, Inflatable;
    ShareInflationKeeps(s, now);
    if Inflatable(s, s.pay.lastFill, now) && owner in s.votes.producers {
      var filled := ShareInflation(s, now).value;
      ClaimDue(filled, now, owner);
      var p := filled.votes.producers[owner];
      var (pay, due) := SettleOracle(filled.pay, owner,
                                     PartOf(filled.pay.blockBucket, p.unpaidBlocks, filled.votes.unpaidBlocks));
      var claimed := filled.(votes := ClaimedVotes(filled.votes, now, owner), pay := pay);
      assert 0 <= filled.pay.witnessBucket by { BucketsNonneg(filled.pay); }
      WitnessPartFits(filled.pay.witnessBucket, witnessShare, witnessTotal);
      assert PaySurplus(claimed, BPAY) == PaySurplus(s, BPAY) && PaySurplus(claimed, WPAY) == PaySurplus(s, WPAY)
          && PaySurplus(claimed, ORACLE) == PaySurplus(s, ORACLE);
      PayProducerKeeps(claimed, now, owner, due.blockPay, WitnessPart(filled.pay.witnessBucket, witnessShare, witnessTotal), due.oraclePay);
    }
  }

  // Voter rewards

  /** No voter has less than nothing to claim, and the bucket is not overdrawn. */
  ghost predicate VoteRewardsSafe(s: State) {
    0 <= s.pay.voteBucket && forall n :: n in s.votes.voters ==> 0 <= s.votes.voters[n].unpaidVotes
  }

  lemma UnpaidVotesAtMost(v: Votes, now: int, n: Name)
    requires VotingProofs.VoteInv(v, now) && n in v.voters
    requires forall m :: m in v.voters ==> 0 <= v.voters[m].unpaidVotes
    ensures v.voters[n].unpaidVotes <= v.unpaidVotes
  {
    TotalAtLeast(VotingProofs.UnpaidVotesOf(v.voters), n);
  }

  lemma ClaimedVoterKeeps(v: Votes, now: int, owner: Name)
    requires VotingProofs.VoteInv(v, now) && owner in v.voters
    ensures var voter := v.voters[owner];
      VotingProofs.VoteInv(v.(unpaidVotes := v.unpaidVotes - voter.unpaidVotes,
                              voters := v.voters[owner := voter.(unpaidVotes := 0, lastClaim := now)]), now)
  {
    hide VotingProofs.VoteInv;
    VotingProofs.VoterRowKeeps(v, now, owner, v.voters[owner].(unpaidVotes := 0, lastClaim := now));
  }

  /** A voter's claim keeps account and bucket in lockstep; if nobody has less than nothing to claim,
      it leaves no less for each vote still to be paid. */
  lemma ClaimVoterRewardKeeps(s: State, now: int, owner: Name)
    requires Whole(s, now) && PayInv(s.pay) && User(owner) && ClaimVoterReward(s, now, owner).Success?
    ensures var filled := ShareInflation(s, now).value;
      var t := ClaimVoterReward(s, now, owner).value;
      && Rewarded(s, t, now)
      && (VoteRewardsSafe(s) ==>
            && VoteRewardsSafe(t)
            && filled.pay.voteBucket * t.votes.unpaidVotes <= t.pay.voteBucket * filled.votes.unpaidVotes)
  {
    hide MaintInv, VotingProofs.VoteInv, Total, RexSurplus, StakeSurplus, ShareInflation, Divide, Token.NoneOverdrawn;
    ShareInflationKeeps(s, now);
    var filled := ShareInflation(s, now).value;
    TokensNotOverdrawn(filled, now);
    var voter := filled.votes.voters[owner];
    var reward := Divide(voter.unpaidVotes * filled.pay.voteBucket, filled.votes.unpaidVotes).value;
    Token.TransferMoves(filled.tokens, VPAY, owner, reward);
    ClaimedVoterKeeps(filled.votes, now, owner);
    var t := ClaimVoterReward(s, now, owner).value;
    RewardFrame(filled, t, now);
    RewardedTransitive(s, filled, t, now);
    if VoteRewardsSafe(s) {
      UnpaidVotesAtMost(filled.votes, now, owner);
      DivideDefined(voter.unpaidVotes * filled.pay.voteBucket, filled.votes.unpaidVotes);
      VoterPart(filled.pay.voteBucket, voter.unpaidVotes, filled.votes.unpaidVotes);
      PartIsFair(filled.pay.voteBucket, voter.unpaidVotes, filled.votes.unpaidVotes);
    }
  }

  /** With backed buckets and nobody credited below zero a voter's claim is refused for the stated
      reasons alone: it succeeds exactly when inflation, if due, can be issued, the voter's last claim is
      long enough ago, and its part of the bucket is not nothing. */
  lemma ClaimVoterPaid(s: State, now: int, owner: Name)
    requires Whole(s, now) && PayInv(s.pay) && User(owner) && Backed(s) && VoteRewardsSafe(s)
    ensures ShareInflation(s, now).Success? <==> Inflatable(s, s.pay.lastFill, now)
    ensures ClaimVoterReward(s, now, owner).Success? <==>
      && Inflatable(s, s.pay.lastFill, now)
      && owner in s.votes.voters && s.pay.claimPeriod < now - s.votes.voters[owner].lastClaim
      && ShareInflation(s, now).Success?
      && 0 < PartOf(ShareInflation(s, now).value.pay.voteBucket, s.votes.voters[owner].unpaidVotes, s.votes.unpaidVotes)
  {
    hide MaintInv, VotingProofs.VoteInv, Total, RexSurplus, StakeSurplus, ShareInflation, PartOf, Inflatable, Token.NoneOverdrawn;
    ShareInflationKeeps(s, now);
    if Inflatable(s, s.pay.lastFill, now) && owner in s.votes.voters {
      var filled := ShareInflation(s, now).value;
      var own := s.votes.voters[owner].unpaidVotes;
      UnpaidVotesAtMost(s.votes, now, owner);
      TokensNotOverdrawn(filled, now);
      VoterPartPays(filled.pay.voteBucket, own, s.votes.unpaidVotes);
      PartIsFair(filled.pay.voteBucket, own, s.votes.unpaidVotes);
      assert 0 <= PaySurplus(filled, VPAY);
      Token.TransferMoves(filled.tokens, VPAY, owner, PartOf(filled.pay.voteBucket, own, s.votes.unpaidVotes));
    }
  }

  /** The source's division yields a reward exactly when the part is not nothing. */
  lemma VoterPartPays(bucket: int, own: int, total: int)
    requires 0 <= bucket && 0 <= own <= total
    ensures total == 0 ==> PartOf(bucket, own, total) == 0
    ensures total != 0 ==> Divide(own * bucket, total) == Success(PartOf(bucket, own, total))
  {
    if total != 0 { VoterPart(bucket, own, total); }
  }

  lemma DivideDefined(a: int, b: int)
    requires Divide(a, b).Success?
    ensures b != 0
  {
  }

  lemma VoterPart(bucket: int, own: int, total: int)
    requires 0 <= bucket && 0 <= own <= total && total != 0
    ensures Divide(own * bucket, total) == Success(PartOf(bucket, own, total))
  {
    MulNonneg(own, bucket);
    assert own * bucket == bucket * own;
  }

  /** Crediting a vote keeps the bucket safe exactly when the voter's capped stake does not bring its
      unpaid votes below zero; only a negative stake can. */
  lemma CreditIsSafe(s: State, name: Name)
    requires VoteRewardsSafe(s) && name in s.votes.voters
    ensures var voter := s.votes.voters[name];
      && (VoteRewardsSafe(s.(votes := Voting.CreditVote(s.votes, name))) <==> 0 <= voter.unpaidVotes + Voting.VoteWeight(voter.staked))
      && (0 <= voter.staked ==> 0 <= voter.unpaidVotes + Voting.VoteWeight(voter.staked))
  {
    var after := Voting.CreditVote(s.votes, name).voters;
    assert name in after;
  }

  // DApp rewards

  lemma DappPayKeeps(pay: Pay, after: Pay, n: int)
    requires PayInv(pay) && 154 <= n
    requires after == FillBuckets(pay, n).(dappTransferBucket := after.dappTransferBucket, dappUserBucket := after.dappUserBucket,
                                           lastDappFill := after.lastDappFill)
    ensures PayInv(after)
  {
    SharesFit(n);
  }

  /** A DApp's claim takes the same amount from one bucket and from the account. */
  lemma ClaimDappRewardKeeps(s: State, now: int, owner: Name, byUsers: bool, share: int, total: int)
    requires Whole(s, now) && PayInv(s.pay) && User(owner) && ClaimDappReward(s, now, owner, byUsers, share, total).Success?
    ensures var t := ClaimDappReward(s, now, owner, byUsers, share, total).value;
      Rewarded(s, t, now) && t.votes == s.votes && s.pay.voteBucket <= t.pay.voteBucket
  {
    hide MaintInv, VotingProofs.VoteInv, Total, RexSurplus, StakeSurplus, Inflate, Divide, NewTokens, Token.NoneOverdrawn, PayInv;
    if Due(s.pay.lastDappFill, now) {
      TokensNotOverdrawn(s, now);
      var n := NewTokens(s.supply, now - s.pay.lastDappFill);
      InflateMoves(s, n);
      SharesFit(n);
      var inflated := Inflate(s, n).value;
      var t := ClaimDappReward(s, now, owner, byUsers, share, total).value;
      var bucket := if byUsers then inflated.pay.dappUserBucket else inflated.pay.dappTransferBucket;
      Token.TransferMoves(inflated.tokens, DPAY, owner, Divide(bucket * share, total).value);
      DappPayKeeps(s.pay, t.pay, n);
      RewardFrame(s, t, now);
    }
  }

  // Counters

  lemma OnBlockKeeps(s: State, now: int, producer: Name)
    requires Whole(s, now) && PayInv(s.pay)
    ensures var t := OnBlock(s, now, producer);
      && Rewarded(s, t, now) && t.tokens == s.tokens && t.supply == s.supply
      && t.votes.voters == s.votes.voters && t.pay.voteBucket == s.pay.voteBucket
  {
    hide MaintInv, VotingProofs.VoteInv, Total, RexSurplus, StakeSurplus, Token.NoneOverdrawn, At;
    TokensNotOverdrawn(s, now);
    if producer in s.votes.producers { CountBlock(s.votes, now, producer); }
    var t := OnBlock(s, now, producer);
    assert t.pay == s.pay.(lastFill := t.pay.lastFill, lastDappFill := t.pay.lastDappFill);
    ClocksKeep(s, t, now);
  }

  lemma ClocksKeep(s: State, t: State, now: int)
    requires Whole(s, now) && PayInv(s.pay)
    requires t == s.(pay := s.pay.(lastFill := t.pay.lastFill, lastDappFill := t.pay.lastDappFill), votes := t.votes)
    requires VotingProofs.VoteInv(t.votes, now)
    ensures Rewarded(s, t, now)
  {
    hide MaintInv, VotingProofs.VoteInv, Total, RexSurplus, StakeSurplus, Token.NoneOverdrawn;
    TokensNotOverdrawn(s, now);
    RewardFrame(s, t, now);
  }

  lemma CountBlock(v: Votes, now: int, producer: Name)
    requires VotingProofs.VoteInv(v, now) && producer in v.producers
    ensures var p := v.producers[producer];
      VotingProofs.VoteInv(v.(unpaidBlocks := v.unpaidBlocks + 1,
                              producers := v.producers[producer := p.(unpaidBlocks := p.unpaidBlocks + 1)]), now)
  {
    VotingProofs.ProducerRowKeeps(v, now, producer, v.producers[producer].(unpaidBlocks := v.producers[producer].unpaidBlocks + 1));
  }

  /** An oracle's rows may change in any way that keeps its counters from going negative, as long as
      the total follows its successes. */
  lemma OracleRowKeeps(pay: Pay, p: Name, o: Oracle)
    requires PayInv(pay) && 0 <= o.successes && 0 <= o.failures && 0 <= o.punishment
    ensures var successes := pay.successes + o.successes - if p in pay.oracles then pay.oracles[p].successes else 0;
      PayInv(pay.(oracles := pay.oracles[p := o], successes := successes))
  {
    hide Total;
    SuccessesUpdate(pay.oracles, p, o);
  }

  lemma SetOracleKeeps(s: State, producer: Name, account: Name)
    requires PayInv(s.pay) && SetOracle(s, producer, account).Success?
    ensures PayInv(SetOracle(s, producer, account).value.pay)
  {
    var t := SetOracle(s, producer, account).value;
    OracleRowKeeps(s.pay, producer, t.pay.oracles[producer]);
  }

  lemma AddRequestKeeps(pay: Pay, chosen: Name)
    requires PayInv(pay)
    ensures PayInv(AddRequest(pay, chosen))
  {
    var known := OracleOf(pay.oracles, chosen);
    if known.Some? {
      OracleRowKeeps(pay, known.value, pay.oracles[known.value].(pending := pay.oracles[known.value].pending + 1));
    }
  }

  /** Every reply counts one success or none, and the total of successful requests with it. */
  lemma ReplyKeeps(pay: Pay, chosen: Name, standby: Name, age: int)
    requires PayInv(pay)
    ensures PayInv(Reply(pay, chosen, standby, age))
    ensures pay.successes <= Reply(pay, chosen, standby, age).successes <= pay.successes + 1
  {
    hide PayInv, OracleOf;
    var first := age < REQUEST_PERIOD;
    var second := !first && age < 2 * REQUEST_PERIOD;
    var known := OracleOf(pay.oracles, chosen);
    var p1 := if known.Some? then
                var o := pay.oracles[known.value];
                pay.(oracles := pay.oracles[known.value := o.(pending := o.pending - 1, failures := o.failures + if first then 0 else 1)])
              else pay;
    if known.Some? { OracleCounters(pay, known.value); OracleRowKeeps(pay, known.value, p1.oracles[known.value]); }
    var backup := OracleOf(p1.oracles, standby);
    var p2 := if !first && !second && standby != 0 && backup.Some? then
                p1.(oracles := p1.oracles[backup.value := p1.oracles[backup.value].(failures := p1.oracles[backup.value].failures + 1)])
              else p1;
    if backup.Some? {
      var o := p1.oracles[backup.value];
      OracleCounters(p1, backup.value);
      OracleRowKeeps(p1, backup.value, o.(failures := o.failures + 1));
    }
    assert PayInv(p2) by { assert p1 == p1.(successes := p1.successes); assert p2 == p2.(successes := p2.successes); }
    var succeeded := if first && known.Some? then chosen else if second then standby else 0;
    var winner := OracleOf(p2.oracles, succeeded);
    if winner.Some? {
      OracleCounters(p2, winner.value);
      OracleRowKeeps(p2, winner.value, p2.oracles[winner.value].(successes := p2.oracles[winner.value].successes + 1));
    }
  }

  lemma OracleCounters(pay: Pay, p: Name)
    requires PayInv(pay) && p in pay.oracles
    ensures 0 <= pay.oracles[p].successes && 0 <= pay.oracles[p].failures && 0 <= pay.oracles[p].punishment
  {
  }
}
