/** The weighted choice of an assigned and a standby oracle from the active ones, which come sorted by
    pending requests, the busiest first. */
module OracleChoice {
  import opened Outcomes
  import opened Arithmetic
  import opened Chain

  datatype Candidate = Candidate(account: Name, pending: nat)

  const FIRST_WEIGHT: nat := 10

  ghost predicate BusiestFirst(c: seq<Candidate>) {
    forall i, j :: 0 <= i < j < |c| ==> c[i].pending >= c[j].pending
  }

  // The choice

  /** A candidate less busy than the one before weighs one more. */
  function Weight(c: seq<Candidate>, i: nat): (w: nat)
    requires i < |c|
    ensures FIRST_WEIGHT <= w
  {
    if i == 0 then FIRST_WEIGHT else Weight(c, i - 1) + if c[i].pending < c[i - 1].pending then 1 else 0
  }

  /** The weights of the first candidates together. */
  function Below(c: seq<Candidate>, count: nat): (sum: nat)
    requires count <= |c|
    ensures 0 < count ==> FIRST_WEIGHT <= sum
  {
    if count == 0 then 0 else Below(c, count - 1) + Weight(c, count - 1)
  }

  /** The upper ends of the candidates' ranges. */
  function Ranges(c: seq<Candidate>): seq<int> {
    seq(|c|, i requires 0 <= i < |c| => Below(c, i + 1))
  }

  /** The first range that a value falls into, or the number of ranges. */
  function Find(ends: seq<int>, x: int): (at: nat)
    ensures at <= |ends| && (at < |ends| ==> x < ends[at])
    ensures forall i :: 0 <= i < at ==> ends[i] <= x
  {
    if ends == [] || x < ends[0] then 0 else 1 + Find(ends[1..], x)
  }

  function Without<T>(s: seq<T>, at: nat): seq<T>
    requires at < |s|
  {
    s[..at] + s[at + 1..]
  }

  /** The positions of the assigned and, if there is another candidate, of the standby oracle; the
      latter counts the candidates without the assigned one. */
  function ChoosePositions(c: seq<Candidate>, slot: nat): (r: Result<(nat, Option<nat>)>)
    ensures r.Success? ==> r.value.0 < |c| && (r.value.1.Some? ==> r.value.1.value < |c| - 1)
  {
    if c == [] then Failure(NoOracle) else
    var ends := Ranges(c);
    var total := Below(c, |c|);
    var first := Find(ends, slot % total);
    :- Need(first < |c|, NoOracleFound);
    if |c| == 1 then Success((first, None))
    else
      var left := total - if first == 0 then FIRST_WEIGHT else ends[first] - ends[first - 1];
      :- Need(left != 0, DivisionByZero);
      var second := Find(Without(ends, first), slot % left);
      :- Need(second < |c| - 1, NoOracleFound);
      Success((first, Some(second)))
  }

  /** The accounts chosen; the empty name stands for no standby oracle. */
  function Choose(c: seq<Candidate>, slot: nat): Result<(Name, Name)> {
    var (first, second) :- ChoosePositions(c, slot);
    Success((c[first].account, if second.Some? then Without(c, first)[second.value].account else 0))
  }

  /** The position of the first range that a value falls into, or the end. */
  method FindIf(ends: seq<int>, x: int) returns (at: nat)
    ensures at == Find(ends, x)
  {
    at := 0;
    while at < |ends| && ends[at] <= x
      invariant at <= |ends|
      invariant Find(ends, x) == at + Find(ends[at..], x)
    {
      assert ends[at..][1..] == ends[at + 1..];
      at := at + 1;
    }
  }

  /** The upper ends of the ranges and their total. */
  method BuildRanges(c: seq<Candidate>) returns (ends: seq<int>, total: nat)
    requires c != []
    ensures ends == Ranges(c) && total == Below(c, |c|)
  {
    var value := FIRST_WEIGHT;
    total := value;
    ends := [total];
    for i := 1 to |c|
      invariant value == Weight(c, i - 1) && total == Below(c, i)
      invariant |ends| == i && forall k :: 0 <= k < i ==> ends[k] == Below(c, k + 1)
    {
      if c[i].pending < c[i - 1].pending { value := value + 1; }
      total := total + value;
      ends := ends + [total];
    }
  }

  /** The choice as the contract makes it: look up the slot, erase what was found, look up again. */
  method GetCurrentOracle(c: seq<Candidate>, slot: nat) returns (r: Result<(Name, Name)>)
    ensures r == Choose(c, slot)
  {
    hide Find, Below, Weight;
    if c == [] { return Failure(NoOracle); }
    var ends, total := BuildRanges(c);
    var index := FindIf(ends, slot % total);
    if index == |ends| { return Failure(NoOracleFound); }
    var chosen := c[index].account;
    if |c| == 1 { return Success((chosen, 0)); }
    var left := total - if index == 0 then FIRST_WEIGHT else ends[index] - ends[index - 1];
    var restEnds := ends[..index] + ends[index + 1..];
    var rest := c[..index] + c[index + 1..];
    if left == 0 { return Failure(DivisionByZero); }
    index := FindIf(restEnds, slot % left);
    if index == |restEnds| { return Failure(NoOracleFound); }
    return Success((chosen, rest[index].account));
  }

  // Weights

  lemma {:induction false} WeightsGrow(c: seq<Candidate>, i: nat, j: nat)
    requires BusiestFirst(c) && i <= j < |c|
    ensures FIRST_WEIGHT <= Weight(c, i) <= Weight(c, j)
    ensures Weight(c, i) < Weight(c, j) <==> c[j].pending < c[i].pending
    decreases j
  {
    if i < j {
      WeightsGrow(c, i, j - 1);
    } else if 0 < i {
      WeightsGrow(c, i - 1, i - 1);
    }
  }

  lemma {:induction false} BelowGrows(c: seq<Candidate>, i: nat, j: nat)
    requires BusiestFirst(c) && i <= j <= |c|
    ensures Below(c, i) + (j - i) * FIRST_WEIGHT <= Below(c, j)
    decreases j
  {
    if i < j {
      WeightsGrow(c, j - 1, j - 1);
      BelowGrows(c, i, j - 1);
    }
  }

  /** The first lookup always succeeds, and hits each candidate for exactly as many of the `total`
      possible values as it weighs: the less busy of two candidates is the likelier one. */
  lemma FirstIsProportional(c: seq<Candidate>, slot: nat, i: nat)
    requires BusiestFirst(c) && i < |c|
    ensures var total := Below(c, |c|);
      && 0 < total && Find(Ranges(c), slot % total) < |c|
      && (Find(Ranges(c), slot % total) == i <==> Below(c, i) <= slot % total < Below(c, i) + Weight(c, i))
  {
    var total := Below(c, |c|);
    BelowGrows(c, 0, |c|);
    var x := slot % total;
    var at := Find(Ranges(c), x);
    assert Ranges(c)[|c| - 1] == total;
    if at < i {
      BelowGrows(c, at + 1, i);
      assert x < Ranges(c)[at];
    } else if i < at {
      assert Ranges(c)[i] <= x;
    } else if 0 < i {
      assert Ranges(c)[i - 1] <= x;
    }
  }

  /** Neither lookup can fail as long as there is a candidate. */
  lemma LookupsSucceed(c: seq<Candidate>, slot: nat)
    requires BusiestFirst(c)
    ensures ChoosePositions(c, slot).Success? <==> c != []
    ensures c != [] ==>
      var (first, second) := ChoosePositions(c, slot).value;
      first < |c| && (second.Some? <==> 1 < |c|) && (second.Some? ==> second.value < |c| - 1)
  {
    hide Find, Weight, Below, BusiestFirst;
    if c != [] {
      FirstIsProportional(c, slot, 0);
      if 1 < |c| { SecondSucceeds(c, Find(Ranges(c), slot % Below(c, |c|)), slot); }
    }
  }

  /** What the second lookup works with: the chosen candidate's range is gone, the others stay. */
  lemma SecondSucceeds(c: seq<Candidate>, first: nat, slot: nat)
    requires BusiestFirst(c) && 1 < |c| && first < |c|
    ensures var ends := Ranges(c);
      var left := Below(c, |c|) - if first == 0 then FIRST_WEIGHT else ends[first] - ends[first - 1];
      && left == Below(c, |c|) - Weight(c, first) && 0 < left
      && Find(Without(ends, first), slot % left) < |c| - 1
  {
    hide Find, BusiestFirst;
    var ends := Ranges(c);
    var left := Below(c, |c|) - Weight(c, first);
    BelowGrows(c, 0, first);
    BelowGrows(c, first + 1, |c|);
    assert 0 < first ==> ends[first] - ends[first - 1] == Weight(c, first);
    assert 0 < left by {
      if first == 0 { BelowGrows(c, 1, |c|); } else { BelowGrows(c, 0, first); }
    }
    var rest := Without(ends, first);
    assert left <= rest[|c| - 2] by {
      if first == |c| - 1 { assert rest[|c| - 2] == Below(c, |c| - 1); } else { assert rest[|c| - 2] == ends[|c| - 1]; }
    }
  }

  // What some slot chooses

  /** A number that is `r` modulo `m`, `q` times over. */
  lemma Remainder(n: int, m: int, r: int, q: int)
    requires 0 <= r < m && n == r + q * m
    ensures n % m == r
  {
    SameRemainder(n / m, n % m, q, r, m);
  }

  lemma SameRemainder(a: int, r: int, b: int, s: int, m: int)
    requires 0 <= r < m && 0 <= s < m && a * m + r == b * m + s
    ensures r == s
  {
    if a < b {
      MulLe(a + 1, b, m);
    } else if b < a {
      MulLe(b + 1, a, m);
    }
  }

  /** A number that falls `start + d % w` beyond a multiple of `left + w`, and `x` beyond one of `left`. */
  function Meeting(left: nat, w: nat, start: nat, x: nat): nat
    requires 0 < w && start <= left
  {
    var d := left + x - start;
    start + d % w + d / w * (left + w)
  }

  lemma MeetingParts(left: int, w: int, start: int, x: int, q: int, r: int)
    requires 0 < w && 0 <= start <= left && 0 <= x < left && 0 <= r < w && q * w + r == left + x - start
    ensures (start + r + q * (left + w)) % (left + w) == start + r
    ensures (start + r + q * (left + w)) % left == x
  {
    var n := start + r + q * (left + w);
    Remainder(n, left + w, start + r, q);
    Distribute(q, left, w);
    Distribute(left, 1, q);
    Remainder(n, left, x, 1 + q);
  }

  lemma Distribute(a: int, b: int, c: int)
    ensures a * (b + c) == a * b + a * c
  {
  }

  lemma MeetingRemainders(left: nat, w: nat, start: nat, x: nat)
    requires 0 < w && start <= left && x < left
    ensures Meeting(left, w, start, x) % left == x
    ensures start <= Meeting(left, w, start, x) % (left + w) < start + w
  {
    var d := left + x - start;
    MeetingParts(left, w, start, x, d / w, d % w);
  }

  /** A slot whose first lookup lands in a candidate's range, and whose second one looks up `x`. */
  function SlotFor(c: seq<Candidate>, first: nat, x: nat): nat
    requires first < |c| && Below(c, first) + Weight(c, first) <= Below(c, |c|)
  {
    Meeting(Below(c, |c|) - Weight(c, first), Weight(c, first), Below(c, first), x)
  }

  lemma SlotRemainders(c: seq<Candidate>, first: nat, x: nat)
    requires BusiestFirst(c) && first < |c| && x < Below(c, |c|) - Weight(c, first)
    ensures Below(c, first) + Weight(c, first) <= Below(c, |c|)
    ensures Below(c, first) <= SlotFor(c, first, x) % Below(c, |c|) < Below(c, first) + Weight(c, first)
    ensures SlotFor(c, first, x) % (Below(c, |c|) - Weight(c, first)) == x
  {
    hide BusiestFirst, Weight, Below, Meeting;
    RangeFits(c, first);
    MeetingRemainders(Below(c, |c|) - Weight(c, first), Weight(c, first), Below(c, first), x);
  }

  /** What a slot in a candidate's range chooses. */
  lemma ChosenFirst(c: seq<Candidate>, first: nat, slot: nat)
    requires BusiestFirst(c) && 1 < |c| && first < |c|
    requires Below(c, first) <= slot % Below(c, |c|) < Below(c, first) + Weight(c, first)
    ensures 0 < Below(c, |c|) - Weight(c, first)
    ensures ChoosePositions(c, slot)
         == Success((first, Some(Find(Without(Ranges(c), first), slot % (Below(c, |c|) - Weight(c, first))))))
  {
    hide Find, Without, BusiestFirst, Weight, Below;
    FirstIsProportional(c, slot, first);
    SecondSucceeds(c, first, slot);
  }

  /** Every value below what is left of the total is looked up second in some slot that chooses a given
      candidate first: the two lookups, though made with one number, constrain each other no further. */
  lemma SlotChooses(c: seq<Candidate>, first: nat, x: nat)
    requires BusiestFirst(c) && 1 < |c| && first < |c| && x < Below(c, |c|) - Weight(c, first)
    ensures Below(c, first) + Weight(c, first) <= Below(c, |c|)
    ensures ChoosePositions(c, SlotFor(c, first, x)) == Success((first, Some(Find(Without(Ranges(c), first), x))))
  {
    hide Find, Without, BusiestFirst, Weight, Below, ChoosePositions;
    SlotRemainders(c, first, x);
    var slot := SlotFor(c, first, x);
    ChosenFirst(c, first, slot);
  }

  lemma RangeFits(c: seq<Candidate>, i: nat)
    requires BusiestFirst(c) && i < |c|
    ensures Below(c, i) + Weight(c, i) == Below(c, i + 1) <= Below(c, |c|)
  {
    BelowGrows(c, i + 1, |c|);
  }

  ghost predicate NoneShared(c: seq<Candidate>) {
    forall i, j :: 0 <= i < j < |c| ==> c[i].account != c[j].account
  }

  lemma ApartIfDistinct(c: seq<Candidate>, slot: nat)
    requires BusiestFirst(c) && 1 < |c|
    ensures Choose(c, slot).Success?
    ensures NoneShared(c) ==> Choose(c, slot).value.0 != Choose(c, slot).value.1
  {
    hide Find, Weight, Below, BusiestFirst, ChoosePositions;
    LookupsSucceed(c, slot);
    var (first, second) := ChoosePositions(c, slot).value;
    var k := second.value;
    assert Without(c, first)[k] == if k < first then c[k] else c[k + 1];
  }

  /** An earlier candidate keeps its range when a later one is taken out. */
  lemma EarlierFound(c: seq<Candidate>, i: nat, j: nat)
    requires BusiestFirst(c) && i < j < |c|
    ensures Below(c, i) < Below(c, |c|) - Weight(c, j)
    ensures Find(Without(Ranges(c), j), Below(c, i)) == i
  {
    hide Find, BusiestFirst, Weight;
    var x := Below(c, i);
    var rest := Without(Ranges(c), j);
    RangeFits(c, i);
    RangeFits(c, j);
    BelowGrows(c, i + 1, j);
    assert rest[i] == Ranges(c)[i] == Below(c, i + 1);
    var at := Find(rest, x);
    if at < i { BelowGrows(c, at + 1, i); }
  }

  /** Any two candidates are assigned and standby in some slot, the later assigned. */
  lemma PairIsChosen(c: seq<Candidate>, i: nat, j: nat)
    requires BusiestFirst(c) && i < j < |c|
    ensures Below(c, j) + Weight(c, j) <= Below(c, |c|)
    ensures Choose(c, SlotFor(c, j, Below(c, i))) == Success((c[j].account, c[i].account))
  {
    hide Find, BusiestFirst, Weight, Below, Ranges, ChoosePositions, SlotFor;
    EarlierFound(c, i, j);
    SlotChooses(c, j, Below(c, i));
    assert Without(c, j)[i] == c[i];
  }

  /** The standby oracle is always another candidate. It is another account in every slot if and only
      if no account stands for two candidates: one that two producers share is, in some slot, assigned
      and standby at once. */
  lemma StandbyDiffers(c: seq<Candidate>)
    requires BusiestFirst(c) && 1 < |c|
    ensures (forall slot: nat :: Choose(c, slot).Success? && Choose(c, slot).value.0 != Choose(c, slot).value.1) <==> NoneShared(c)
  {
    hide Choose, SlotFor, BusiestFirst;
    forall slot: nat ensures Choose(c, slot).Success? {
      ApartIfDistinct(c, slot);
    }
    if NoneShared(c) {
      forall slot: nat ensures Choose(c, slot).value.0 != Choose(c, slot).value.1 {
        ApartIfDistinct(c, slot);
      }
    } else {
      var i, j :| 0 <= i < j < |c| && c[i].account == c[j].account;
      PairIsChosen(c, i, j);
      var slot := SlotFor(c, j, Below(c, i));
      assert Choose(c, slot).value.0 == Choose(c, slot).value.1;
    }
  }

  /** The smallest such list: one account for two producers is both in every slot. */
  lemma SharedAccountChosenTwice(account: Name, slot: nat)
    ensures Choose([Candidate(account, 0), Candidate(account, 0)], slot) == Success((account, account))
  {
    var c := [Candidate(account, 0), Candidate(account, 0)];
    assert BusiestFirst(c);
    LookupsSucceed(c, slot);
  }

  /** The ranges keep their places when the assigned oracle's is taken out, so that the next candidate
      inherits it, while the values to fall into them end sooner: in some slot the last candidate is
      standby for another exactly if it comes next, or if it has fewer requests pending. */
  lemma LastAsStandby(c: seq<Candidate>, first: nat)
    requires BusiestFirst(c) && first < |c| - 1
    ensures (exists slot: nat :: ChoosePositions(c, slot) == Success((first, Some(|c| - 2))))
        <==> (first == |c| - 2 || c[|c| - 1].pending < c[first].pending)
  {
    hide Find, Without, BusiestFirst, Weight, Below, SlotFor, ChoosePositions;
    var n := |c|;
    if slot: nat :| ChoosePositions(c, slot) == Success((first, Some(n - 2))) {
      SecondLookup(c, first, slot);
      LastLookedUp(c, first);
    }
    if first == n - 2 || c[n - 1].pending < c[first].pending {
      LastLookedUp(c, first);
      var x: nat :| x < Below(c, n) - Weight(c, first) && Find(Without(Ranges(c), first), x) == n - 2;
      SlotChooses(c, first, x);
      assert ChoosePositions(c, SlotFor(c, first, x)) == Success((first, Some(n - 2)));
    }
  }

  /** What a slot that chooses a given candidate first looks up second. */
  lemma SecondLookup(c: seq<Candidate>, first: nat, slot: nat)
    requires BusiestFirst(c) && 1 < |c| && first < |c|
    requires ChoosePositions(c, slot).Success? && ChoosePositions(c, slot).value.0 == first
    ensures var left := Below(c, |c|) - Weight(c, first);
      && 0 < left && ChoosePositions(c, slot).value.1 == Some(Find(Without(Ranges(c), first), slot % left))
  {
    hide Find, Without, BusiestFirst, Weight, Below;
    SecondSucceeds(c, first, slot);
  }

  /** The values that the second lookup takes to the last candidate. */
  lemma LastLookedUp(c: seq<Candidate>, first: nat)
    requires BusiestFirst(c) && first < |c| - 1
    ensures (exists x: nat :: x < Below(c, |c|) - Weight(c, first) && Find(Without(Ranges(c), first), x) == |c| - 2)
        <==> (first == |c| - 2 || c[|c| - 1].pending < c[first].pending)
  {
    hide Find, Without, BusiestFirst, Weight;
    var n := |c|;
    WeightsGrow(c, first, n - 1);
    assert Below(c, n) == Below(c, n - 1) + Weight(c, n - 1);
    if x: nat :| x < Below(c, n) - Weight(c, first) && Find(Without(Ranges(c), first), x) == n - 2 {
      if first < n - 2 { PastTheRest(c, first, x); }
    }
    if first == n - 2 || c[n - 1].pending < c[first].pending {
      assert first == n - 2 ==> Below(c, n - 1) == Below(c, n - 2) + Weight(c, first);
      FindsLast(c, first, if first == n - 2 then Below(c, n - 2) else Below(c, n - 1));
    }
  }

  /** The last candidate is found only past the range of the one before it, which stayed in place. */
  lemma PastTheRest(c: seq<Candidate>, first: nat, x: nat)
    requires first < |c| - 2 && Find(Without(Ranges(c), first), x) == |c| - 2
    ensures Below(c, |c| - 1) <= x
  {
    hide Find, Weight;
    assert Without(Ranges(c), first)[|c| - 3] == Ranges(c)[|c| - 2];
  }

  lemma FindsLast(c: seq<Candidate>, first: nat, x: nat)
    requires BusiestFirst(c) && first < |c| - 1
    requires x == if first == |c| - 2 then Below(c, |c| - 2) else Below(c, |c| - 1)
    ensures Find(Without(Ranges(c), first), x) == |c| - 2
  {
    hide Find, Weight, BusiestFirst;
    var n := |c|;
    var rest := Without(Ranges(c), first);
    var at := Find(rest, x);
    if at < n - 2 {
      var k := if at < first then at else at + 1;
      assert rest[at] == Ranges(c)[k];
      BelowGrows(c, k + 1, if first == n - 2 then n - 2 else n - 1);
    }
    assert rest[n - 2] == Ranges(c)[n - 1];
    assert Below(c, n) == Below(c, n - 1) + Weight(c, n - 1);
    BelowGrows(c, n - 2, n - 1);
  }
}
