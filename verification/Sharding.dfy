/** Per-user shards: a seeded shuffle and the quality band it draws from. */
module Sharding {
  import opened Collections

  const A := 6364136223846793005
  const C := 1442695040888963407
  const M := 18446744073709551616

  function NextState(state: nat): nat { (A * state + C) % M }

  function PickIndex(state: nat, i: nat): (j: nat)
    ensures j <= i
  {
    state % (i + 1)
  }

  // ---- The shuffle ----

  function Indices(count: nat): (r: seq<nat>)
    ensures |r| == count
    ensures forall k :: 0 <= k < count ==> r[k] == k
  {
    seq(count, k => k)
  }

  function Swapped<T>(s: seq<T>, i: nat, j: nat): seq<T>
    requires i < |s| && j < |s|
  {
    s[i := s[j]][j := s[i]]
  }

  /** The Fisher-Yates steps for positions `i` down to 1. */
  function ShuffleFrom(s: seq<nat>, state: nat, i: nat): (r: seq<nat>)
    requires i < |s| || i == 0
    ensures |r| == |s|
    decreases i
  {
    if i == 0 then s
    else
      var state' := NextState(state);
      ShuffleFrom(Swapped(s, i, PickIndex(state', i)), state', i - 1)
  }

  function Shuffle(seed: int, count: nat): (r: seq<nat>)
    ensures |r| == count
  {
    ShuffleFrom(Indices(count), seed % M, if count == 0 then 0 else count - 1)
  }

  lemma SwapKeeps<T>(s: seq<T>, i: nat, j: nat)
    requires i < |s| && j < |s|
    ensures multiset(Swapped(s, i, j)) == multiset(s)
  {
  }

  lemma {:induction false} ShuffleKeeps(s: seq<nat>, state: nat, i: nat)
    requires i < |s| || i == 0
    ensures multiset(ShuffleFrom(s, state, i)) == multiset(s)
    decreases i
  {
    if i > 0 {
      var state' := NextState(state);
      SwapKeeps(s, i, PickIndex(state', i));
      ShuffleKeeps(Swapped(s, i, PickIndex(state', i)), state', i - 1);
    }
  }

  /** The shuffle is a permutation of 0..count-1 for every seed. */
  lemma ShuffleIsPermutation(seed: int, count: nat)
    ensures var r := Shuffle(seed, count);
      && multiset(r) == multiset(Indices(count))
      && (forall k :: 0 <= k < count ==> r[k] < count)
      && (forall k, l :: 0 <= k < l < count ==> r[k] != r[l])
  {
    var r := Shuffle(seed, count);
    ShuffleKeeps(Indices(count), seed % M, if count == 0 then 0 else count - 1);
    forall k | 0 <= k < count ensures r[k] < count {
      assert r[k] in multiset(Indices(count));
    }
    forall k, l | 0 <= k < l < count ensures r[k] != r[l] {
      if r[k] == r[l] {
        TwiceCounts(r, k, l);
        OnceInIndices(count, r[k]);
      }
    }
  }

  lemma {:induction false} OnceInIndices(count: nat, x: nat)
    ensures multiset(Indices(count))[x] <= 1
  {
    if count > 0 {
      assert Indices(count) == Indices(count - 1) + [count - 1];
      OnceInIndices(count - 1, x);
      assert multiset(Indices(count - 1))[count - 1] == 0 by {
        assert count - 1 !in Indices(count - 1);
      }
    }
  }

  const INVERSE := 13877824140714322085

  /** Every step of the generator can be undone, so that no two states are ever confused. */
  lemma StepIsInvertible(state: nat)
    requires state < M
    ensures (INVERSE * (NextState(state) + M - C)) % M == state
  {
    var q := (A * state + C) / M;
    assert NextState(state) + M - C == A * state + (1 - q) * M;
    var k := (INVERSE * A - 1) / M;
    assert INVERSE * A == 1 + k * M;
    assert INVERSE * (A * state + (1 - q) * M) == state + (k * state + INVERSE * (1 - q)) * M;
    Residue(state, k * state + INVERSE * (1 - q));
  }

  lemma Residue(r: nat, k: int)
    requires r < M
    ensures (r + k * M) % M == r
  {
  }

  lemma StepFrom(s: seq<nat>, state: nat, i: nat, next: nat, j: nat, r: seq<nat>)
    requires 0 < i < |s| && NextState(state) == next && PickIndex(next, i) == j && r == s[i := s[j]][j := s[i]]
    ensures ShuffleFrom(s, state, i) == ShuffleFrom(r, next, i - 1)
  {
    hide NextState, PickIndex;
  }

  lemma FirstDraws()
    ensures NextState(42) == 10481999410520546993 && PickIndex(10481999410520546993, 3) == 1
    ensures NextState(10481999410520546993) == 4159066171780167020 && PickIndex(4159066171780167020, 2) == 2
    ensures NextState(4159066171780167020) == 7615522811268512075 && PickIndex(7615522811268512075, 1) == 1
  {
  }

  /** The shuffle of four for seed 42, as a reference value. */
  lemma ShuffleOfFour()
    ensures Shuffle(42, 4) == [0, 3, 2, 1]
  {
    FirstDraws();
    ShuffleStarts(42, 4);
    hide NextState, PickIndex, ShuffleFrom, Shuffle;
    StepFrom([0, 1, 2, 3], 42, 3, 10481999410520546993, 1, [0, 3, 2, 1]);
    StepFrom([0, 3, 2, 1], 10481999410520546993, 2, 4159066171780167020, 2, [0, 3, 2, 1]);
    StepFrom([0, 3, 2, 1], 4159066171780167020, 1, 7615522811268512075, 1, [0, 3, 2, 1]);
    NoStepsLeft([0, 3, 2, 1], 7615522811268512075);
  }

  lemma ShuffleStarts(seed: nat, count: nat)
    requires seed < M && count > 0
    ensures Shuffle(seed, count) == ShuffleFrom(Indices(count), seed, count - 1)
    ensures count == 4 ==> Indices(count) == [0, 1, 2, 3]
  {
    hide ShuffleFrom;
  }

  lemma NoStepsLeft(s: seq<nat>, state: nat)
    ensures ShuffleFrom(s, state, 0) == s
  {
  }

  /** The shuffle as it is done, swapping in place. */
  method ShuffleIndices(seed: int, count: nat) returns (indices: array<nat>)
    ensures fresh(indices) && indices[..] == Shuffle(seed, count)
  {
    hide NextState, PickIndex;
    indices := new nat[count](k => k);
    assert indices[..] == Indices(count);
    var state: nat := seed % M;
    var i := if count == 0 then 0 else count - 1;
    while i > 0
      invariant 0 <= i && (i < indices.Length || i == 0)
      invariant ShuffleFrom(indices[..], state, i) == Shuffle(seed, count)
    {
      ghost var before := indices[..];
      state := NextState(state);
      var j := PickIndex(state, i);
      indices[i], indices[j] := indices[j], indices[i];
      assert indices[..] == Swapped(before, i, j);
      i := i - 1;
    }
  }

  // ---- The shard ----

  datatype Candidate = Candidate(id: string, speed: Option<real>, latency: Option<real>)
  {
    function Speed(): real { if speed.Some? then speed.value else -1.0 }

    function Latency(): real { if latency.Some? then latency.value else 10000.0 }
  }

  /** Faster first, then lower latency. */
  predicate NoWorse(a: Candidate, b: Candidate) {
    a.Speed() > b.Speed() || (a.Speed() == b.Speed() && a.Latency() <= b.Latency())
  }

  function BestFirst(): (Candidate, Candidate) -> bool { (a: Candidate, b: Candidate) => NoWorse(a, b) }

  function Ranked(cands: seq<Candidate>): (r: seq<Candidate>)
    ensures |r| == |cands|
  {
    StableSort(cands, BestFirst())
  }

  /** How many of the nodes after the two anchors the extras are drawn from. */
  function BandSize(n: nat, target: int): int
    requires n >= 2
  {
    Max(target - 2, (n - 1) / 2)
  }

  function PickAt(band: seq<Candidate>, at: seq<nat>): (r: seq<Candidate>)
    requires forall k :: 0 <= k < |at| ==> at[k] < |band|
    ensures |r| == |at| && forall k :: 0 <= k < |at| ==> r[k] == band[at[k]]
  {
    seq(|at|, k requires 0 <= k < |at| => band[at[k]])
  }

  /** The shard of an already ranked list. */
  function ShardRanked(ranked: seq<Candidate>, target: int, seed: int): seq<Candidate> {
    var anchors, rest := Take(ranked, 2), ranked[Min(2, |ranked|)..];
    var needExtra := Max(0, target - |anchors|);
    if rest == [] || needExtra == 0 then anchors
    else
      var band := Take(rest, Max(needExtra, (|rest| + 1) / 2));
      ShuffleIsPermutation(seed, |band|);
      anchors + PickAt(band, Take(Shuffle(seed, |band|), needExtra))
  }

  function Shard(cands: seq<Candidate>, target: int, seed: int): seq<Candidate> {
    if |cands| <= target || cands == [] then cands else ShardRanked(Ranked(cands), target, seed)
  }

  /** A list longer than a target of at least two yields exactly `target` different nodes for every seed: the
      two best ranked, then what the seeded shuffle of the quality band puts first, the band being the better half of
      the rest, or as many as are needed. `at` are their ranks. */
  lemma ShardIsWithinBand(cands: seq<Candidate>, target: int, seed: int) returns (at: seq<nat>)
    requires 2 <= target < |cands|
    ensures |at| == target && at[0] == 0 && at[1] == 1
    ensures forall k :: 0 <= k < |at| ==> at[k] < |Ranked(cands)|
    ensures forall k :: 0 <= k < target ==> at[k] < |cands| && at[k] < 2 + Max(target - 2, (|cands| - 1) / 2)
    ensures forall k, l :: 0 <= k < l < target ==> at[k] != at[l]
    ensures forall k :: 2 <= k < target ==>
      at[k] == 2 + Shuffle(seed, Min(|cands| - 2, Max(target - 2, (|cands| - 1) / 2)))[k - 2]
    ensures Shard(cands, target, seed) == PickAt(Ranked(cands), at)
  {
    hide ShardRanked, Ranked, ExtraRanks, Shuffle, PickAt, RanksOf;
    var extra := ExtraRanks(|cands|, target, seed);
    at := RanksOf(extra);
    ExtrasAreInBand(|cands|, target, seed);
    ShardParts(Ranked(cands), target, seed);
    BandOfRanking(Ranked(cands), BandSize(|cands|, target), extra);
    DrawnBy(|cands|, target, seed);
    AllInBand(at, extra, |cands|, target, Min(|cands| - 2, BandSize(|cands|, target)));
  }

  lemma AllInBand(at: seq<nat>, extra: seq<nat>, n: nat, target: int, size: int)
    requires at == RanksOf(extra) && |extra| == target - 2 && 2 <= target < n && size <= n - 2
    requires forall k :: 0 <= k < target - 2 ==> extra[k] < size
    requires forall k, l :: 0 <= k < l < target - 2 ==> extra[k] != extra[l]
    ensures forall k :: 0 <= k < target ==> at[k] < n && (k >= 2 ==> at[k] < 2 + size)
    ensures forall k, l :: 0 <= k < l < target ==> at[k] != at[l]
  {
  }

  lemma DrawnBy(n: nat, target: int, seed: int)
    requires 2 <= target < n
    ensures forall k :: 0 <= k < target - 2 ==>
      ExtraRanks(n, target, seed)[k] == Shuffle(seed, Min(n - 2, Max(target - 2, (n - 1) / 2)))[k]
  {
    hide Shuffle;
  }

  /** The positions drawn within the band. */
  function ExtraRanks(n: nat, target: int, seed: int): (r: seq<nat>)
    requires 2 <= target < n
    ensures |r| == target - 2
  {
    Take(Shuffle(seed, Min(n - 2, BandSize(n, target))), target - 2)
  }

  function RanksOf(extra: seq<nat>): (r: seq<nat>)
    ensures |r| == |extra| + 2 && r[0] == 0 && r[1] == 1
    ensures forall k :: 2 <= k < |r| ==> r[k] == extra[k - 2] + 2
  {
    [0, 1] + seq(|extra|, k requires 0 <= k < |extra| => extra[k] + 2)
  }

  lemma ExtrasAreInBand(n: nat, target: int, seed: int)
    requires 2 <= target < n
    ensures forall k :: 0 <= k < target - 2 ==> ExtraRanks(n, target, seed)[k] < Min(n - 2, BandSize(n, target))
    ensures forall k, l :: 0 <= k < l < target - 2 ==> ExtraRanks(n, target, seed)[k] != ExtraRanks(n, target, seed)[l]
  {
    hide Shuffle;
    ShuffleIsPermutation(seed, Min(n - 2, BandSize(n, target)));
  }

  /** The nodes the band gives are those of the ranking, two further on. */
  lemma BandOfRanking(ranked: seq<Candidate>, size: int, extra: seq<nat>)
    requires 2 < |ranked| && 0 <= size
    requires forall k :: 0 <= k < |extra| ==> extra[k] < |Take(ranked[2..], size)|
    ensures forall k :: 0 <= k < |extra| + 2 ==> RanksOf(extra)[k] < |ranked|
    ensures Take(ranked, 2) + PickAt(Take(ranked[2..], size), extra) == PickAt(ranked, RanksOf(extra))
  {
    hide PickAt, RanksOf;
    var band, at := Take(ranked[2..], size), RanksOf(extra);
    forall k | 0 <= k < |extra| ensures band[extra[k]] == ranked[at[k + 2]] {
    }
    var got := Take(ranked, 2) + PickAt(band, extra);
    forall k | 0 <= k < |at| ensures got[k] == ranked[at[k]] {
    }
  }

  lemma ShardParts(ranked: seq<Candidate>, target: int, seed: int)
    requires 2 <= target < |ranked|
    requires forall k :: 0 <= k < target - 2 ==>
      ExtraRanks(|ranked|, target, seed)[k] < Min(|ranked| - 2, BandSize(|ranked|, target))
    ensures ShardRanked(ranked, target, seed) ==
      Take(ranked, 2) + PickAt(Take(ranked[2..], BandSize(|ranked|, target)), ExtraRanks(|ranked|, target, seed))
  {
    hide Shuffle, PickAt;
    var none := PickAt(Take(ranked[2..], BandSize(|ranked|, target)), ExtraRanks(|ranked|, target, seed));
    if target == 2 {
      assert none == [];
    }
  }

  /** The measured speed, below any measured one when there is none. */
  function SpeedOf(c: Candidate): real { if c.speed.Some? then c.speed.value else -1.0 }

  function LatencyOf(c: Candidate): real { if c.latency.Some? then c.latency.value else 10000.0 }

  function EqualTo(c: Candidate): Candidate -> bool {
    (d: Candidate) => SpeedOf(d) == SpeedOf(c) && LatencyOf(d) == LatencyOf(c)
  }

  /** The ranking rearranges the candidates, the fastest first, of equally fast ones the lowest latency first, and
      equal ones in their given order. */
  lemma RankedBestFirst(cands: seq<Candidate>, c: Candidate)
    ensures multiset(Ranked(cands)) == multiset(cands)
    ensures forall i, j :: 0 <= i < j < |cands| ==>
      var a, b := Ranked(cands)[i], Ranked(cands)[j];
      SpeedOf(a) > SpeedOf(b) || (SpeedOf(a) == SpeedOf(b) && LatencyOf(a) <= LatencyOf(b))
    ensures Filter(Ranked(cands), EqualTo(c)) == Filter(cands, EqualTo(c))
  {
    hide Ranked, Filter;
    RankedSorted(cands);
    RankedStable(cands, c);
  }

  lemma RankedSorted(cands: seq<Candidate>)
    ensures multiset(Ranked(cands)) == multiset(cands)
    ensures forall i, j :: 0 <= i < j < |cands| ==> NoWorse(Ranked(cands)[i], Ranked(cands)[j])
  {
    hide NoWorse, StableSort;
    BestFirstIsOrder(cands);
    SortSorted(cands, BestFirst());
    forall i, j | 0 <= i < j < |cands| ensures NoWorse(Ranked(cands)[i], Ranked(cands)[j]) {
      assert BestFirst()(Ranked(cands)[i], Ranked(cands)[j]);
    }
  }

  lemma BestFirstIsOrder(cands: seq<Candidate>)
    ensures TotalPreorderOn(cands, BestFirst())
  {
  }

  lemma RankedStable(cands: seq<Candidate>, c: Candidate)
    ensures Filter(Ranked(cands), EqualTo(c)) == Filter(cands, EqualTo(c))
  {
    hide Filter, StableSort;
    SortStable(cands, BestFirst(), EqualTo(c));
  }

  /** A list that needs no cutting is given out whole and in its own order; one cut to fewer than two gives the two
      best ranked, or the only one. */
  lemma ShardOtherwise(cands: seq<Candidate>, target: int, seed: int)
    ensures |cands| <= target ==> Shard(cands, target, seed) == cands
    ensures target < 2 && target < |cands| ==>
      Shard(cands, target, seed) == if |cands| >= 2 then Ranked(cands)[..2] else Ranked(cands)
  {
    hide Ranked, Shuffle, PickAt;
  }

  /** The shard has min(target, n) nodes exactly when it needs no sharding or the target leaves room for both
      anchors. */
  lemma ShardSizeIff(cands: seq<Candidate>, target: int, seed: int)
    ensures |Shard(cands, target, seed)| == Min(Max(0, target), |cands|)
            <==> cands == [] || |cands| <= target || target >= 2
  {
    if 2 <= target < |cands| {
      var at := ShardIsWithinBand(cands, target, seed);
    }
  }

  // ---- The promise that extras come out of the top half ----

  function Half(n: nat): int { (n - 2 + 1) / 2 }

  /** `m + 1` different positions do not fit below `m`. */
  lemma Crowded(s: seq<nat>, m: nat)
    requires forall k, l :: 0 <= k < l < |s| ==> s[k] != s[l]
    requires forall k :: 0 <= k < |s| ==> s[k] < m
    ensures |s| <= m
  {
    var below := Below(m);
    var members := set k | 0 <= k < |s| :: s[k];
    assert members <= below;
    MembersSize(s);
    SubsetSize(members, below);
  }

  function Below(m: nat): (r: set<nat>)
    ensures |r| == m && forall i :: i in r <==> 0 <= i < m
  {
    if m == 0 then {} else Below(m - 1) + {m - 1}
  }

  lemma {:induction false} MembersSize(s: seq<nat>)
    requires forall k, l :: 0 <= k < l < |s| ==> s[k] != s[l]
    ensures |set k | 0 <= k < |s| :: s[k]| == |s|
  {
    if s != [] {
      var n := |s| - 1;
      MembersSize(s[..n]);
      assert (set k | 0 <= k < |s| :: s[k]) == (set k | 0 <= k < n :: s[..n][k]) + {s[n]};
    }
  }

  /** "Extras come only from the top half of the remaining candidates" holds, whatever the seed, exactly while
      the target asks for no more extras than that half has. `at` are the ranks of the shard's nodes. */
  lemma ExtrasInTopHalfIff(cands: seq<Candidate>, target: int, seed: int) returns (at: seq<nat>)
    requires 2 <= target < |cands|
    ensures |at| == target && (forall k :: 0 <= k < |at| ==> at[k] < |Ranked(cands)|)
    ensures Shard(cands, target, seed) == PickAt(Ranked(cands), at)
    ensures (forall k :: 0 <= k < target ==> at[k] < 2 + Half(|cands|)) <==> target - 2 <= Half(|cands|)
  {
    hide Shard, Ranked;
    at := ShardIsWithinBand(cands, target, seed);
    if forall k :: 0 <= k < target ==> at[k] < 2 + Half(|cands|) {
      Crowded(at, 2 + Half(|cands|));
    }
  }

  /** With the default target of six, seven candidates are enough to break the promise for every seed: one of
      the four extras is ranked below the top half of the other five. */
  lemma SevenBreakTheDefault(cands: seq<Candidate>, seed: int) returns (at: seq<nat>, k: nat)
    requires |cands| == 7
    ensures |at| == 6 && (forall i :: 0 <= i < |at| ==> at[i] < |Ranked(cands)|)
    ensures Shard(cands, 6, seed) == PickAt(Ranked(cands), at)
    ensures k < 6 && at[k] >= 5
  {
    hide Shard, Ranked;
    at := ExtrasInTopHalfIff(cands, 6, seed);
    k :| 0 <= k < 6 && at[k] >= 2 + Half(7);
  }
}
