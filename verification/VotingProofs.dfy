/** The vote tally and the vote-pay aggregate are what a recount would give. */
module VotingProofs {
  import opened Outcomes
  import opened Arithmetic
  import opened Sums
  import opened Chain
  import opened Voting

  // A recount

  /** What a voter gives each producer it lists. */
  function Credit(voter: Voter, p: Name): int {
    if p in voter.producers then Max(0, voter.lastWeight) else 0
  }

  ghost function Credits(voters: map<Name, Voter>, p: Name): map<Name, int> {
    map n | n in voters :: Credit(voters[n], p)
  }

  /** The votes for a producer, summed over the voters. */
  ghost function Support(voters: map<Name, Voter>, p: Name): int {
    Total(Credits(voters, p))
  }

  ghost function VotesOf(producers: map<Name, Producer>): map<Name, int> {
    map p | p in producers :: producers[p].votes
  }

  ghost function AllVotes(producers: map<Name, Producer>): int {
    Total(VotesOf(producers))
  }

  /** The rate at which a producer's share grows. */
  function Rate(p: Producer): int {
    if Live(p) then p.votes else 0
  }

  ghost function RatesOf(producers: map<Name, Producer>): map<Name, int> {
    map p | p in producers :: Rate(producers[p])
  }

  /** The votes of the producers whose share still accrues. */
  ghost function LiveVotes(producers: map<Name, Producer>): int {
    Total(RatesOf(producers))
  }

  /** A producer's share at a time, accrued from its own last update. */
  function ShareAt(p: Producer, now: int): int {
    p.share + Rate(p) * (now - p.lastShare)
  }

  ghost function SharesOf(producers: map<Name, Producer>, now: int): map<Name, int> {
    map p | p in producers :: ShareAt(producers[p], now)
  }

  /** The shares of all producers at a time, each accrued on its own. */
  ghost function AllShares(producers: map<Name, Producer>, now: int): int {
    Total(SharesOf(producers, now))
  }

  ghost function UnpaidVotesOf(voters: map<Name, Voter>): map<Name, int> {
    map n | n in voters :: voters[n].unpaidVotes
  }

  ghost function UnpaidVotes(voters: map<Name, Voter>): int {
    Total(UnpaidVotesOf(voters))
  }

  /** Votes a voter has been credited and not paid for. */
  function Unpaid(voters: map<Name, Voter>, n: Name): int {
    if n in voters then voters[n].unpaidVotes else 0
  }

  ghost predicate SameUnpaid(before: map<Name, Voter>, after: map<Name, Voter>) {
    forall n :: Unpaid(after, n) == Unpaid(before, n)
  }

  ghost function UnpaidBlocksOf(producers: map<Name, Producer>): map<Name, int> {
    map p | p in producers :: producers[p].unpaidBlocks
  }

  ghost function UnpaidBlocks(producers: map<Name, Producer>): int {
    Total(UnpaidBlocksOf(producers))
  }

  lemma SupportUpdate(voters: map<Name, Voter>, n: Name, voter: Voter, p: Name)
    ensures Support(voters[n := voter], p)
         == Support(voters, p) - (if n in voters then Credit(voters[n], p) else 0) + Credit(voter, p)
  {
    assert Credits(voters[n := voter], p) == Credits(voters, p)[n := Credit(voter, p)];
    TotalUpdate(Credits(voters, p), n, Credit(voter, p));
  }

  lemma UnpaidVotesUpdate(voters: map<Name, Voter>, n: Name, voter: Voter)
    ensures UnpaidVotes(voters[n := voter])
         == UnpaidVotes(voters) - (if n in voters then voters[n].unpaidVotes else 0) + voter.unpaidVotes
  {
    assert UnpaidVotesOf(voters[n := voter]) == UnpaidVotesOf(voters)[n := voter.unpaidVotes];
    TotalUpdate(UnpaidVotesOf(voters), n, voter.unpaidVotes);
  }

  /** Changing one producer's rows changes each sum by that producer's part. */
  lemma ProducerSums(producers: map<Name, Producer>, n: Name, p: Producer, now: int)
    ensures var after := producers[n := p];
      && AllVotes(after) == AllVotes(producers) - At(VotesOf(producers), n) + p.votes
      && LiveVotes(after) == LiveVotes(producers) - At(RatesOf(producers), n) + Rate(p)
      && AllShares(after, now) == AllShares(producers, now) - At(SharesOf(producers, now), n) + ShareAt(p, now)
      && UnpaidBlocks(after) == UnpaidBlocks(producers) - At(UnpaidBlocksOf(producers), n) + p.unpaidBlocks
  {
    hide Total, ShareAt, Rate, Live;
    var after := producers[n := p];
    assert VotesOf(after) == VotesOf(producers)[n := p.votes];
    TotalUpdate(VotesOf(producers), n, p.votes);
    assert RatesOf(after) == RatesOf(producers)[n := Rate(p)];
    TotalUpdate(RatesOf(producers), n, Rate(p));
    assert SharesOf(after, now) == SharesOf(producers, now)[n := ShareAt(p, now)];
    TotalUpdate(SharesOf(producers, now), n, ShareAt(p, now));
    assert UnpaidBlocksOf(after) == UnpaidBlocksOf(producers)[n := p.unpaidBlocks];
    TotalUpdate(UnpaidBlocksOf(producers), n, p.unpaidBlocks);
  }

  lemma ShareGrows(p: Producer, before: int, now: int)
    ensures ShareAt(p, now) == ShareAt(p, before) + Rate(p) * (now - before)
  {
    var r := Rate(p);
    assert r * (now - p.lastShare) == r * (before - p.lastShare) + r * (now - before);
  }

  lemma SharesGrowWith(rest: map<Name, Producer>, n: Name, p: Producer, before: int, now: int)
    requires n !in rest && AllShares(rest, now) == AllShares(rest, before) + LiveVotes(rest) * (now - before)
    ensures var all := rest[n := p]; AllShares(all, now) == AllShares(all, before) + LiveVotes(all) * (now - before)
  {
    hide ShareAt, Rate, AllShares, LiveVotes;
    ProducerSums(rest, n, p, now);
    ProducerSums(rest, n, p, before);
    ShareGrows(p, before, now);
    Distribute(LiveVotes(rest), Rate(p), now - before);
  }

  lemma Distribute(a: int, b: int, c: int)
    ensures (a + b) * c == a * c + b * c
  {
  }

  /** All shares together grow at the live rate. */
  lemma {:induction false} SharesGrow(producers: map<Name, Producer>, before: int, now: int)
    ensures AllShares(producers, now) == AllShares(producers, before) + LiveVotes(producers) * (now - before)
    decreases |producers|
  {
    if producers == map[] {
      assert SharesOf(producers, now) == map[] && SharesOf(producers, before) == map[] && RatesOf(producers) == map[];
    } else {
      hide AllShares, LiveVotes;
      var n :| n in producers;
      var rest := producers - {n};
      SharesGrow(rest, before, now);
      SharesGrowWith(rest, n, producers[n], before, now);
      assert producers == rest[n := producers[n]];
    }
  }

  // The invariant

  ghost predicate VotersOk(v: Votes) {
    forall n :: n in v.voters ==>
      var voter := v.voters[n];
      && Sorted(voter.producers) && |voter.producers| <= MAX_PRODUCERS
      && (0 <= voter.lastWeight ==> forall p :: p in voter.producers ==> p in v.producers)
  }

  ghost predicate ProducersOk(producers: map<Name, Producer>, now: int) {
    forall n :: n in producers ==>
      var p := producers[n];
      0 <= p.votes && 0 <= p.share && p.lastShare <= now && 0 < p.lastClaim <= now && 0 <= p.unpaidBlocks
  }

  /** Every producer's votes are those its voters give it, and the total weight is the sum. */
  ghost predicate Tallied(v: Votes) {
    && (forall p :: p in v.producers ==> v.producers[p].votes == Support(v.voters, p))
    && v.totalWeight == AllVotes(v.producers)
  }

  /** The stored triple (total, rate, time) stands for the shares of all producers. */
  ghost predicate SharesAgree(v: Votes) {
    && v.shareRate == LiveVotes(v.producers)
    && v.totalShare == AllShares(v.producers, v.shareTime)
  }

  ghost predicate CountersAgree(v: Votes) {
    && v.unpaidVotes == UnpaidVotes(v.voters)
    && v.unpaidBlocks == UnpaidBlocks(v.producers)
  }

  ghost predicate VoteInv(v: Votes, now: int) {
    && VotersOk(v) && ProducersOk(v.producers, now) && Tallied(v)
    && SharesAgree(v) && v.shareTime <= now && CountersAgree(v)
  }

  // Building the changes

  lemma SortedDistinct(names: seq<Name>)
    requires Sorted(names)
    ensures forall i, j :: 0 <= i < j < |names| ==> names[i] < names[j]
  {
    forall i, j | 0 <= i < j < |names| ensures names[i] < names[j] {
      SortedApart(names, i, j);
    }
  }

  lemma {:induction false} SortedApart(names: seq<Name>, i: nat, j: nat)
    requires Sorted(names) && i < j < |names|
    ensures names[i] < names[j]
    decreases j
  {
    if i < j - 1 { SortedApart(names, i, j - 1); }
  }

  /** A cast changes exactly the listed producers, each by the weight. */
  lemma {:induction false} CastChanges(deltas: Deltas, names: seq<Name>, weight: int, isNew: bool)
    requires forall i, j :: 0 <= i < j < |names| ==> names[i] != names[j]
    ensures var after := Cast(deltas, names, weight, isNew);
      && after.Keys == deltas.Keys + (set p | p in names)
      && (forall p :: p in after ==>
            && after[p].change == ChangeOf(deltas, p) + (if p in names then weight else 0)
            && after[p].isNew == if p in names then isNew else deltas[p].isNew)
    decreases |names|
  {
    if names != [] {
      CastChanges(deltas[names[0] := Delta(ChangeOf(deltas, names[0]) + weight, isNew)], names[1..], weight, isNew);
      assert names == [names[0]] + names[1..];
      assert names[0] !in names[1..];
    }
  }

  /** The changes undo what the voter gave before and grant what it gives now. */
  lemma VoteDeltasChange(voter: Voter, names: seq<Name>, weight: int)
    requires Sorted(voter.producers) && Sorted(names)
    ensures var deltas := VoteDeltas(voter, names, weight);
      && (forall p :: ChangeOf(deltas, p) == Credit(voter.(producers := names, lastWeight := weight), p) - Credit(voter, p))
      && (forall p :: p in deltas && deltas[p].isNew ==> 0 <= weight && p in names)
      && (forall p :: p in deltas ==> p in voter.producers || p in names)
      && (0 <= weight ==> forall p :: p in names ==> p in deltas && deltas[p].isNew)
  {
    hide Cast, Sorted;
    SortedDistinct(voter.producers);
    SortedDistinct(names);
    CastChanges(map[], voter.producers, -voter.lastWeight, false);
    var undone := if 0 < voter.lastWeight then Cast(map[], voter.producers, -voter.lastWeight, false) else map[];
    CastChanges(undone, names, weight, true);
  }

  // Applying the changes

  lemma AccruedIsShareAt(p: Producer, now: int)
    requires 0 <= p.votes && p.lastShare <= now
    ensures Accrued(p, now, Rate(p)) == ShareAt(p, now)
    ensures 0 <= p.share ==> 0 <= ShareAt(p, now)
  {
    MulNonneg(p.votes, now - p.lastShare);
  }

  /** What one change does to the sums is exactly what the loop adds to its totals. */
  lemma ApplyDeltaBooks(t: Tally, name: Name, delta: Delta, now: int)
    requires name in t.producers && ProducersOk(t.producers, now)
    requires 0 <= t.producers[name].votes + delta.change
    ensures var t' := ApplyDelta(t, name, delta, now);
      && ProducersOk(t'.producers, now) && t'.producers.Keys == t.producers.Keys
      && (forall q :: q in t.producers ==>
            && t'.producers[q].votes == t.producers[q].votes + (if q == name then delta.change else 0)
            && t'.producers[q].active == t.producers[q].active)
      && t'.totalWeight - AllVotes(t'.producers) == t.totalWeight - AllVotes(t.producers)
      && t'.rateDelta - LiveVotes(t'.producers) == t.rateDelta - LiveVotes(t.producers)
      && t'.inactiveShare + AllShares(t'.producers, now) == t.inactiveShare + AllShares(t.producers, now)
      && t.inactiveShare <= t'.inactiveShare
      && UnpaidBlocks(t'.producers) == UnpaidBlocks(t.producers)
  {
    hide Total, AllVotes, LiveVotes, AllShares, UnpaidBlocks;
    var p := t.producers[name];
    var p' := ApplyDelta(t, name, delta, now).producers[name];
    AccruedIsShareAt(p, now);
    ProducerSums(t.producers, name, p', now);
    assert ShareAt(p', now) == p'.share;
  }

  /** The loop succeeds when no inactive or unknown producer is newly voted for; it changes each
      producer's votes by the given amount and books every change in its totals. */
  lemma {:induction false} ApplyDeltasBooks(t: Tally, deltas: Deltas, now: int, voting: bool)
    requires ProducersOk(t.producers, now)
    requires forall p :: p in t.producers ==> 0 <= t.producers[p].votes + ChangeOf(deltas, p)
    requires forall p :: p in t.producers ==> 0 <= t.producers[p].votes
    ensures var r := ApplyDeltas(t, deltas, now, voting);
      && (r.Success? <==> forall p :: p in deltas && deltas[p].isNew ==>
            p in t.producers && (voting ==> t.producers[p].active))
      && (r.Success? ==>
            var t' := r.value;
            && ProducersOk(t'.producers, now) && t'.producers.Keys == t.producers.Keys
            && (forall p :: p in t.producers ==> t'.producers[p].votes == t.producers[p].votes + ChangeOf(deltas, p))
            && t'.totalWeight - AllVotes(t'.producers) == t.totalWeight - AllVotes(t.producers)
            && t'.rateDelta - LiveVotes(t'.producers) == t.rateDelta - LiveVotes(t.producers)
            && t'.inactiveShare + AllShares(t'.producers, now) == t.inactiveShare + AllShares(t.producers, now)
            && t.inactiveShare <= t'.inactiveShare
            && UnpaidBlocks(t'.producers) == UnpaidBlocks(t.producers))
    decreases |deltas|
  {
    hide ApplyDelta, AllVotes, LiveVotes, AllShares, UnpaidBlocks, ProducersOk, Crossed, Live;
    if deltas != map[] {
      var name := Least(deltas.Keys);
      var rest := deltas - {name};
      if name in t.producers {
        ApplyDeltaBooks(t, name, deltas[name], now);
        ApplyDeltasBooks(ApplyDelta(t, name, deltas[name], now), rest, now, voting);
      } else {
        ApplyDeltasBooks(t, rest, now, voting);
      }
    }
  }

  lemma SumsNonneg(producers: map<Name, Producer>, now: int)
    requires ProducersOk(producers, now)
    ensures 0 <= LiveVotes(producers) && 0 <= AllShares(producers, now)
  {
    forall p | p in producers ensures 0 <= ShareAt(producers[p], now) {
      AccruedIsShareAt(producers[p], now);
    }
    TotalNonneg(RatesOf(producers));
    TotalNonneg(SharesOf(producers, now));
  }

  /** The fast form refines the recount: after producers changed as booked, the updated triple again
      stands for all shares, and neither clamp has cut anything off. */
  lemma UpdateTotalShareRefines(v: Votes, now: int, after: map<Name, Producer>, inactive: int, rateDelta: int)
    requires SharesAgree(v) && v.shareTime <= now && ProducersOk(after, now)
    requires LiveVotes(after) == LiveVotes(v.producers) + rateDelta
    requires AllShares(after, now) == AllShares(v.producers, now) - inactive
    ensures var u := UpdateTotalShare(v, now, -inactive, rateDelta);
      && u == v.(totalShare := AllShares(after, now), shareRate := LiveVotes(after), shareTime := now)
      && u.totalShare == v.totalShare + v.shareRate * (now - v.shareTime) - inactive
      && u.shareRate == v.shareRate + rateDelta
  {
    SumsNonneg(after, now);
    SharesGrow(v.producers, v.shareTime, now);
  }

  ghost predicate Votable(v: Votes, names: seq<Name>, voting: bool) {
    forall p :: p in names ==> p in v.producers && (voting ==> v.producers[p].active)
  }

  lemma SupportNonneg(voters: map<Name, Voter>, p: Name)
    ensures 0 <= Support(voters, p)
  {
    TotalNonneg(Credits(voters, p));
  }

  /** A vote is refused exactly for the stated reasons; a negative stake backs no one, so then the
      list is not looked up. */
  lemma UpdateVotesAccepts(v: Votes, now: int, name: Name, names: seq<Name>, voting: bool)
    requires VoteInv(v, now)
    ensures UpdateVotes(v, now, name, names, voting).Success? <==>
      && |names| <= MAX_PRODUCERS && Sorted(names) && name in v.voters
      && (0 <= v.voters[name].staked ==> Votable(v, names, voting))
  {
    hide Total, AllVotes, LiveVotes, AllShares, UnpaidBlocks, UnpaidVotes, Support, ApplyDeltas, VoteDeltas,
         UpdateTotalShare;
    if |names| <= MAX_PRODUCERS && Sorted(names) && name in v.voters {
      var voter := v.voters[name];
      var weight := VoteWeight(voter.staked);
      VoteDeltasChange(voter, names, weight);
      DeltasAbsorbed(v, now, name, names, weight);
      ApplyDeltasBooks(Tally(v.producers, v.totalWeight, 0, 0), VoteDeltas(voter, names, weight), now, voting);
    }
  }

  /** No producer's votes would fall below zero. */
  lemma DeltasAbsorbed(v: Votes, now: int, name: Name, names: seq<Name>, weight: int)
    requires VoteInv(v, now) && name in v.voters && Sorted(names)
    ensures var deltas := VoteDeltas(v.voters[name], names, weight);
      var voters := v.voters[name := v.voters[name].(producers := names, lastWeight := weight)];
      forall p :: p in v.producers ==>
        0 <= v.producers[p].votes + ChangeOf(deltas, p) == Support(voters, p)
  {
    var voter := v.voters[name];
    var voter' := voter.(producers := names, lastWeight := weight);
    VoteDeltasChange(voter, names, weight);
    forall p | p in v.producers
      ensures 0 <= v.producers[p].votes + ChangeOf(VoteDeltas(voter, names, weight), p) == Support(v.voters[name := voter'], p)
    {
      SupportUpdate(v.voters, name, voter', p);
      SupportNonneg(v.voters[name := voter'], p);
    }
  }

  /** After a vote the tally is what a recount gives, and the share triple stands for all shares. */
  lemma UpdateVotesTallies(v: Votes, now: int, name: Name, names: seq<Name>, voting: bool)
    requires VoteInv(v, now) && UpdateVotes(v, now, name, names, voting).Success?
    ensures var v' := UpdateVotes(v, now, name, names, voting).value;
      && VoteInv(v', now)
      && v'.voters == v.voters[name := v.voters[name].(producers := names, lastWeight := VoteWeight(v.voters[name].staked))]
      && v'.unpaidVotes == v.unpaidVotes && v'.unpaidBlocks == v.unpaidBlocks
      && v'.producers.Keys == v.producers.Keys
  {
    hide Total, AllVotes, LiveVotes, AllShares, UnpaidBlocks, UnpaidVotes, Support, ApplyDeltas, VoteDeltas,
         UpdateTotalShare;
    var voter := v.voters[name];
    var weight := VoteWeight(voter.staked);
    var deltas := VoteDeltas(voter, names, weight);
    var start := Tally(v.producers, v.totalWeight, 0, 0);
    UpdateVotesAccepts(v, now, name, names, voting);
    VoteDeltasChange(voter, names, weight);
    DeltasAbsorbed(v, now, name, names, weight);
    ApplyDeltasBooks(start, deltas, now, voting);
    var t := ApplyDeltas(start, deltas, now, voting).value;
    var counted := Activate(v, voter, now).(producers := t.producers, totalWeight := t.totalWeight);
    var shared := UpdateTotalShare(counted, now, -t.inactiveShare, t.rateDelta);
    UpdateTotalShareRefines(Activate(v, voter, now), now, t.producers, t.inactiveShare, t.rateDelta);
    UpdateTotalShareFrame(Activate(v, voter, now), counted, now, -t.inactiveShare, t.rateDelta);
    UnpaidVotesUpdate(v.voters, name, voter.(producers := names, lastWeight := weight));
  }

  lemma UpdateTotalShareFrame(v: Votes, u: Votes, now: int, shareDelta: int, rateDelta: int)
    requires v.totalShare == u.totalShare && v.shareRate == u.shareRate && v.shareTime == u.shareTime
    ensures var w := UpdateTotalShare(v, now, shareDelta, rateDelta);
      UpdateTotalShare(u, now, shareDelta, rateDelta)
        == u.(totalShare := w.totalShare, shareRate := w.shareRate, shareTime := w.shareTime)
  {
  }

  // The other operations on votes

  /** Changing a voter's stake or unpaid votes alone touches no tally. */
  lemma VoterRowKeeps(v: Votes, now: int, name: Name, voter: Voter)
    requires VoteInv(v, now)
    requires name in v.voters ==>
      voter == v.voters[name].(staked := voter.staked, unpaidVotes := voter.unpaidVotes, lastClaim := voter.lastClaim)
    requires name !in v.voters ==> voter.producers == [] && voter.lastWeight == 0
    ensures var unpaid := voter.unpaidVotes - if name in v.voters then v.voters[name].unpaidVotes else 0;
      VoteInv(v.(voters := v.voters[name := voter], unpaidVotes := v.unpaidVotes + unpaid), now)
  {
    hide Total;
    forall p | p in v.producers ensures Support(v.voters[name := voter], p) == Support(v.voters, p) {
      SupportUpdate(v.voters, name, voter, p);
    }
    UnpaidVotesUpdate(v.voters, name, voter);
  }

  /** A stake change is refused exactly if it would leave negative stake, unlock b1's tokens early, or
      recast a list with an unregistered producer; otherwise the tally follows the new stake. */
  lemma UpdateVotingPowerKeeps(v: Votes, now: int, name: Name, delta: int)
    requires VoteInv(v, now)
    ensures var staked := delta + if name in v.voters then v.voters[name].staked else 0;
      var r := UpdateVotingPower(v, now, name, delta);
      && (r.Success? ==>
            && 0 <= staked && (name == B1 ==> B1Locked(now) <= staked)
            && VoteInv(r.value, now) && name in r.value.voters
            && r.value.voters[name].staked == staked
            && (forall n :: n in v.voters && n != name ==> n in r.value.voters && r.value.voters[n] == v.voters[n])
            && SameUnpaid(v.voters, r.value.voters)
            && (name in v.voters ==>
                  && r.value.voters[name].producers == v.voters[name].producers
                  && r.value.voters[name].unpaidVotes == v.voters[name].unpaidVotes)
            && r.value.unpaidVotes == v.unpaidVotes && r.value.unpaidBlocks == v.unpaidBlocks
            && r.value.producers.Keys == v.producers.Keys)
      && (r.Success? <==>
            && 0 <= staked && (name == B1 ==> B1Locked(now) <= staked)
            && (name in v.voters ==> Votable(v, v.voters[name].producers, false)))
  {
    hide Total, Tallied, SharesAgree, CountersAgree, UpdateVotes, B1Locked;
    var voter := if name in v.voters then v.voters[name].(staked := v.voters[name].staked + delta)
                 else Voter([], delta, 0, 0, 0);
    VoterRowKeeps(v, now, name, voter);
    var staked := v.(voters := v.voters[name := voter]);
    assert staked == v.(voters := v.voters[name := voter], unpaidVotes := v.unpaidVotes + 0);
    if voter.producers != [] {
      UpdateVotesAccepts(staked, now, name, voter.producers, false);
      if UpdateVotes(staked, now, name, voter.producers, false).Success? {
        UpdateVotesTallies(staked, now, name, voter.producers, false);
      }
    }
  }

  lemma CreditVoteKeeps(v: Votes, now: int, name: Name)
    requires VoteInv(v, now) && name in v.voters
    ensures VoteInv(CreditVote(v, name), now)
  {
    var voter := v.voters[name];
    VoterRowKeeps(v, now, name, voter.(unpaidVotes := voter.unpaidVotes + VoteWeight(voter.staked)));
  }

  lemma ProducerRowKeeps(v: Votes, now: int, name: Name, p: Producer)
    requires VoteInv(v, now) && name in v.producers
    requires p == v.producers[name].(active := p.active, unpaidBlocks := p.unpaidBlocks) && 0 <= p.unpaidBlocks
    ensures var blocks := p.unpaidBlocks - v.producers[name].unpaidBlocks;
      VoteInv(v.(producers := v.producers[name := p], unpaidBlocks := v.unpaidBlocks + blocks), now)
  {
    hide Total;
    ProducerSums(v.producers, name, p, v.shareTime);
  }

  /** Nobody supports an account that is not registered. */
  lemma UnknownUnsupported(v: Votes, p: Name)
    requires VotersOk(v) && p !in v.producers
    ensures Support(v.voters, p) == 0
  {
    forall n | n in v.voters ensures Credit(v.voters[n], p) == 0 {
    }
    AllZero(Credits(v.voters, p));
  }

  lemma {:induction false} AllZero(m: map<Name, int>)
    requires forall k :: k in m ==> m[k] == 0
    ensures Total(m) == 0
    decreases |m|
  {
    if m != map[] {
      var k :| k in m && Total(m) == m[k] + Total(m - {k});
      AllZero(m - {k});
    }
  }

  lemma RegisterKeeps(v: Votes, now: int, name: Name)
    requires 0 < now && VoteInv(v, now) && Register(v, now, name).Success?
    ensures VoteInv(Register(v, now, name).value, now)
  {
    hide Total;
    if name in v.producers {
      ProducerRowKeeps(v, now, name, v.producers[name].(active := true));
    } else {
      UnknownUnsupported(v, name);
      ProducerSums(v.producers, name, Producer(0, true, 0, now, 0, now), v.shareTime);
    }
  }

  lemma DeactivateKeeps(v: Votes, now: int, name: Name)
    requires VoteInv(v, now) && name in v.producers
    ensures VoteInv(Deactivate(v, name).value, now)
  {
    ProducerRowKeeps(v, now, name, v.producers[name].(active := false));
  }

  lemma ClaimShareSteps(v: Votes, now: int, name: Name)
    requires name in v.producers && 0 <= v.producers[name].votes && v.producers[name].lastShare <= now
    ensures var p := v.producers[name];
      var p' := p.(share := 0, lastShare := now, lastClaim := now);
      && ClaimShare(v, now, name)
         == UpdateTotalShare(v, now, -ShareAt(p, now), p.votes - Rate(p)).(producers := v.producers[name := p'])
      && Rate(p') == p.votes && ShareAt(p', now) == 0
  {
    hide UpdateTotalShare;
    AccruedIsShareAt(v.producers[name], now);
  }

  /** A claim takes exactly the claimant's own share out of the total, and the claimant accrues from
      zero again, whether or not it had dropped out. */
  lemma ClaimShareKeeps(v: Votes, now: int, name: Name)
    requires 0 < now && VoteInv(v, now) && name in v.producers
    ensures var v' := ClaimShare(v, now, name);
      && VoteInv(v', now)
      && v'.totalShare == AllShares(v.producers, now) - ShareAt(v.producers[name], now)
      && v'.producers[name] == v.producers[name].(share := 0, lastShare := now, lastClaim := now)
  {
    hide Total, AllVotes, LiveVotes, AllShares, UnpaidBlocks, UnpaidVotes, Support, UpdateTotalShare, ClaimShare, ShareAt, Rate;
    var p := v.producers[name];
    ClaimShareSteps(v, now, name);
    var p' := p.(share := 0, lastShare := now, lastClaim := now);
    ProducerSums(v.producers, name, p', now);
    UpdateTotalShareRefines(v, now, v.producers[name := p'], ShareAt(p, now), p.votes - Rate(p));
  }

  /** Time passing keeps the votes in order. */
  lemma VoteInvLater(v: Votes, now: int, later: int)
    requires VoteInv(v, now) && now <= later
    ensures VoteInv(v, later)
  {
  }

  /** At any time the stored triple, accrued to that time, is the sum of every producer's own share. */
  lemma AggregateIsSum(v: Votes, now: int, at: int)
    requires VoteInv(v, now) && now <= at
    ensures v.totalShare + v.shareRate * (at - v.shareTime) == AllShares(v.producers, at)
  {
    SharesGrow(v.producers, v.shareTime, at);
  }

  // What the operations change

  /** Registering is open exactly to voters with more than 100,000 tokens staked; a producer that comes back
      keeps its votes and its unpaid work, a new one starts from nothing. */
  lemma RegisteredIsActive(v: Votes, now: int, name: Name)
    ensures Register(v, now, name).Success? <==> name in v.voters && 1_000_000_000 < v.voters[name].staked
    ensures Register(v, now, name).Success? ==>
      var w := Register(v, now, name).value;
      && name in w.producers && w.producers[name].active
      && w == v.(producers := v.producers[name := w.producers[name]])
      && (name in v.producers ==>
            w.producers[name] == v.producers[name].(active := true, lastClaim := w.producers[name].lastClaim)
            && w.producers[name].lastClaim == if v.producers[name].lastClaim == 0 then now else v.producers[name].lastClaim)
      && (name !in v.producers ==>
            w.producers[name].votes == 0 && w.producers[name].unpaidBlocks == 0 && w.producers[name].share == 0
            && w.producers[name].lastClaim == now && w.producers[name].lastShare == now)
  {
  }

  /** Deactivating takes a producer off the list without touching its votes or its pay, and registering puts
      it back as it was. */
  lemma DeactivateThenRegister(v: Votes, now: int, name: Name)
    requires name in v.producers && v.producers[name].active && v.producers[name].lastClaim != 0
    ensures Deactivate(v, name).Success?
    ensures var w := Deactivate(v, name).value;
      && name in w.producers && !w.producers[name].active
      && (Register(v, now, name).Success? ==> Register(w, now, name) == Success(v))
  {
    var w := Deactivate(v, name).value;
    assert w.producers[name := v.producers[name]] == v.producers;
  }

  /** A first vote, and any after one that nothing was behind, activates the voter's stake; the time at
      which enough is activated is set once, and by the vote that makes it enough. */
  lemma VoteActivates(v: Votes, now: int, name: Name, names: seq<Name>, voting: bool)
    requires UpdateVotes(v, now, name, names, voting).Success?
    ensures name in v.voters
    ensures var w := UpdateVotes(v, now, name, names, voting).value;
      var voter := v.voters[name];
      && w.activatedStake == v.activatedStake + (if voter.lastWeight <= 0 then voter.staked else 0)
      && (w.activationTime == v.activationTime
          || (v.activationTime == 0 && w.activationTime == now && 10_000_000_0000 <= w.activatedStake))
      && (voter.lastWeight <= 0 && 10_000_000_0000 <= w.activatedStake && now != 0 ==> w.activationTime != 0)
  {
    hide ApplyDeltas, VoteDeltas, Sorted, VoteWeight;
  }

  /** A producer's share once a vote has touched it: what it had accrued, or nothing if it had gone three
      days without a claim and was still accruing. */
  function TouchedShare(p: Producer, now: int): int {
    if p.lastClaim + 3 * 86_400_000_000 <= now && Live(p) then 0 else ShareAt(p, now)
  }

  /** Every producer that a vote touches is accrued to now, or drops out with its share; no other is
      touched, and none is paid or activated by it. */
  lemma {:induction false} VoteTouches(t: Tally, deltas: Deltas, now: int, voting: bool)
    requires ProducersOk(t.producers, now) && ApplyDeltas(t, deltas, now, voting).Success?
    ensures var after := ApplyDeltas(t, deltas, now, voting).value.producers;
      && after.Keys == t.producers.Keys
      && forall p :: p in t.producers ==>
           after[p] == if p in deltas then t.producers[p].(votes := after[p].votes, share := TouchedShare(t.producers[p], now), lastShare := now)
                       else t.producers[p]
    decreases |deltas|
  {
    hide Crossed, Live, Accrued, ShareAt, Rate;
    if deltas != map[] {
      var name := Least(deltas.Keys);
      if name in t.producers {
        TouchedOnce(t, name, deltas[name], now);
        VoteTouches(ApplyDelta(t, name, deltas[name], now), deltas - {name}, now, voting);
      } else {
        VoteTouches(t, deltas - {name}, now, voting);
      }
    }
  }

  lemma TouchedOnce(t: Tally, name: Name, delta: Delta, now: int)
    requires name in t.producers && ProducersOk(t.producers, now)
    ensures var after := ApplyDelta(t, name, delta, now).producers;
      && ProducersOk(after, now) && after.Keys == t.producers.Keys
      && after == t.producers[name := after[name]]
      && after[name] == t.producers[name].(votes := after[name].votes, share := TouchedShare(t.producers[name], now), lastShare := now)
  {
    AccruedIsShareAt(t.producers[name], now);
  }

  /** What b1 must keep staked falls from all its tokens on the first of June 2018 to nothing ten years of
      52 weeks later, and never rises. */
  lemma B1Vests(now: int, later: int)
    requires 0 <= now <= later
    ensures B1Locked(1_527_811_200 * SECOND) == 1_000_000_000_000
    ensures B1Locked((1_527_811_200 + 10 * 52 * 7 * 86_400) * SECOND) == 0
    ensures B1Locked(later) <= B1Locked(now)
  {
    var span := 10 * 52 * 7 * 24 * 3600;
    var a := 1_000_000_000_000 * (Seconds(now) - 1527811200);
    var b := 1_000_000_000_000 * (Seconds(later) - 1527811200);
    assert a <= b;
    if 0 <= a {
      FloorBounds(a, span);
      FloorAtLeast(a / span, b, span);
    } else if b < 0 {
      FloorBounds(-b, span);
      FloorAtLeast(-b / span, -a, span);
    } else {
      FloorNonneg(b, span);
      FloorNonneg(-a, span);
    }
  }
}
