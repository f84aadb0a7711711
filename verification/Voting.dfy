/** Votes for producers, their tally, and the lazily accrued vote-pay share (no proxies). */
module Voting {
  import opened Outcomes
  import opened Arithmetic
  import opened Sums
  import opened Chain

  const MAX_VOTE_POWER: int := 1_000_0000
  const MIN_ACTIVATED_STAKE: int := 10_000_000_0000
  const MAX_PRODUCERS: int := 30
  const SHARE_CUTOFF: int := 3 * DAY
  const MIN_PRODUCER_STAKE: int := 1_000_000_000

  /** The change a vote makes to one producer, and whether it stands in the new list. */
  datatype Delta = Delta(change: int, isNew: bool)

  type Deltas = map<Name, Delta>

  predicate Sorted(names: seq<Name>) {
    forall i :: 0 < i < |names| ==> names[i - 1] < names[i]
  }

  function VoteWeight(staked: int): int {
    Min(staked, MAX_VOTE_POWER)
  }

  function ChangeOf(deltas: Deltas, p: Name): int {
    if p in deltas then deltas[p].change else 0
  }

  // Operations

  /** Adds `weight` to every listed producer's entry. */
  function Cast(deltas: Deltas, names: seq<Name>, weight: int, isNew: bool): Deltas
    decreases |names|
  {
    if names == [] then deltas
    else Cast(deltas[names[0] := Delta(ChangeOf(deltas, names[0]) + weight, isNew)], names[1..], weight, isNew)
  }

  /** The last vote is undone and the new one cast, producer by producer. */
  function VoteDeltas(voter: Voter, names: seq<Name>, weight: int): Deltas {
    var undone := if 0 < voter.lastWeight then Cast(map[], voter.producers, -voter.lastWeight, false) else map[];
    if 0 <= weight then Cast(undone, names, weight, true) else undone
  }

  predicate IsLeast(k: Name, names: set<Name>) {
    k in names && forall j :: j in names ==> k <= j
  }

  lemma {:induction false} LeastExists(names: set<Name>)
    requires names != {}
    ensures exists k :: k in names && IsLeast(k, names)
  {
    var some :| some in names;
    if names == {some} {
      assert IsLeast(some, names);
    } else {
      var rest := names - {some};
      assert rest != {};
      LeastExists(rest);
      var k :| k in rest && IsLeast(k, rest);
      var least := if some < k then some else k;
      assert forall j :: j in names ==> j == some || j in rest;
      assert IsLeast(least, names);
    }
  }

  /** Tables are visited in key order. */
  function Least(names: set<Name>): (k: Name)
    requires names != {}
    ensures k in names
  {
    LeastExists(names);
    var k :| k in names && IsLeast(k, names);
    k
  }

  /** Whether the producer has gone three days without a claim. */
  predicate Crossed(p: Producer, now: int) {
    p.lastClaim + SHARE_CUTOFF <= now
  }

  /** The producer's share still accrues until it is touched after the cut-off. */
  predicate Live(p: Producer) {
    p.lastShare < p.lastClaim + SHARE_CUTOFF
  }

  /** The producer's share after accruing at `rate` since it was last updated. */
  function Accrued(p: Producer, now: int, rate: int): int {
    if 0 < rate && p.lastShare < now then p.share + rate * (now - p.lastShare) else p.share
  }

  function UpdateShare(p: Producer, now: int, rate: int, reset: bool): Producer {
    p.(share := if reset then 0 else Accrued(p, now, rate), lastShare := now)
  }

  /** The global total accrues at the global rate; both are kept from going below zero. */
  function UpdateTotalShare(v: Votes, now: int, shareDelta: int, rateDelta: int): Votes {
    var accrued := if v.shareTime < now then v.shareRate * (now - v.shareTime) else 0;
    var delta := accrued + shareDelta;
    v.(totalShare := if delta < 0 && v.totalShare < -delta then 0 else v.totalShare + delta,
       shareRate := if rateDelta < 0 && v.shareRate < -rateDelta then 0 else v.shareRate + rateDelta,
       shareTime := now)
  }

  /** The running totals of the loop over the changed producers. */
  datatype Tally = Tally(producers: map<Name, Producer>, totalWeight: int, rateDelta: int, inactiveShare: int)

  /** Applies one change to one producer. */
  function ApplyDelta(t: Tally, name: Name, delta: Delta, now: int): Tally
    requires name in t.producers
  {
    var p := t.producers[name];
    var reset := Crossed(p, now) && Live(p);
    var rate := if Live(p) then p.votes else 0;
    var p' := UpdateShare(p.(votes := Max(0, p.votes + delta.change)), now, rate, reset);
    Tally(t.producers[name := p'],
          t.totalWeight + delta.change,
          t.rateDelta + if !Crossed(p, now) then delta.change else if Live(p) then -p.votes else 0,
          t.inactiveShare + if reset then Accrued(p, now, rate) else 0)
  }

  function ApplyDeltas(t: Tally, deltas: Deltas, now: int, voting: bool): (r: Result<Tally>)
    ensures r.Failure? ==> r.error == ProducerInactive || r.error == ProducerNotRegistered
    decreases |deltas|
  {
    if deltas == map[] then Success(t)
    else
      var name := Least(deltas.Keys);
      var delta := deltas[name];
      if name in t.producers then
        :- Need(!voting || t.producers[name].active || !delta.isNew, ProducerInactive);
        ApplyDeltas(ApplyDelta(t, name, delta, now), deltas - {name}, now, voting)
      else
        :- Need(!delta.isNew, ProducerNotRegistered);
        ApplyDeltas(t, deltas - {name}, now, voting)
  }

  /** First votes activate stake. */
  function Activate(v: Votes, voter: Voter, now: int): Votes {
    if voter.lastWeight <= 0 then
      var stake := v.activatedStake + voter.staked;
      v.(activatedStake := stake,
         activationTime := if MIN_ACTIVATED_STAKE <= stake && v.activationTime == 0 then now else v.activationTime)
    else v
  }

  /** Replaces a voter's last vote by a vote for `names` with the current stake. */
  function UpdateVotes(v: Votes, now: int, name: Name, names: seq<Name>, voting: bool): Result<Votes> {
    if MAX_PRODUCERS < |names| then Failure(TooManyProducers) else
    :- Need(Sorted(names), ProducersNotSorted);
    :- Need(name in v.voters, NoVoter);
    var voter := v.voters[name];
    var weight := VoteWeight(voter.staked);
    var t :- ApplyDeltas(Tally(v.producers, v.totalWeight, 0, 0), VoteDeltas(voter, names, weight), now, voting);
    var counted := Activate(v, voter, now).(producers := t.producers, totalWeight := t.totalWeight);
    var shared := UpdateTotalShare(counted, now, -t.inactiveShare, t.rateDelta);
    Success(shared.(voters := v.voters[name := voter.(lastWeight := weight, producers := names)]))
  }

  /** What b1 must keep staked: its tokens vest over ten years of 52 weeks, rounded toward zero. */
  function B1Locked(now: int): int {
    var elapsed := 1_000_000_000_000 * (Seconds(now) - 1527811200);
    var span := 10 * 52 * 7 * 24 * 3600;
    1_000_000_000_000 - if elapsed < 0 then -(-elapsed / span) else elapsed / span
  }

  /** Changes a voter's stake and recasts the vote with it. */
  function UpdateVotingPower(v: Votes, now: int, name: Name, delta: int): Result<Votes> {
    var voter := if name in v.voters then v.voters[name].(staked := v.voters[name].staked + delta)
                 else Voter([], delta, 0, 0, 0);
    :- Need(0 <= voter.staked, NegativeVotingStake);
    :- Need(name != B1 || B1Locked(now) <= voter.staked, B1Vesting);
    var staked := v.(voters := v.voters[name := voter]);
    if voter.producers != [] then UpdateVotes(staked, now, name, voter.producers, false) else Success(staked)
  }

  /** Credits the voter's capped stake toward voter rewards. */
  function CreditVote(v: Votes, name: Name): Votes
    requires name in v.voters
  {
    var voter := v.voters[name];
    var power := VoteWeight(voter.staked);
    v.(voters := v.voters[name := voter.(unpaidVotes := voter.unpaidVotes + power)],
       unpaidVotes := v.unpaidVotes + power)
  }

  function Register(v: Votes, now: int, name: Name): Result<Votes> {
    if name !in v.voters then Failure(NoVoter) else
    :- Need(MIN_PRODUCER_STAKE < v.voters[name].staked, StakeTooSmall);
    if name in v.producers then
      var p := v.producers[name];
      Success(v.(producers := v.producers[name := p.(active := true, lastClaim := if p.lastClaim == 0 then now else p.lastClaim)]))
    else
      Success(v.(producers := v.producers[name := Producer(0, true, 0, now, 0, now)]))
  }

  function Deactivate(v: Votes, name: Name): Result<Votes> {
    if name !in v.producers then Failure(ProducerNotRegistered) else
    Success(v.(producers := v.producers[name := v.producers[name].(active := false)]))
  }

  /** The vote-pay side of a claim: the claimant's share is paid out of the total, and a producer
      that had dropped out accrues again. */
  function ClaimShare(v: Votes, now: int, name: Name): Votes
    requires name in v.producers
  {
    var p := v.producers[name];
    var rate := if Live(p) then p.votes else 0;
    var share := Accrued(p, now, rate);
    var total := UpdateTotalShare(v, now, -share, if Live(p) then 0 else p.votes);
    total.(producers := v.producers[name := UpdateShare(p, now, rate, true).(lastClaim := now)])
  }
}
