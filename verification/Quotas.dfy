/** What the three tiers amount to, on the recorded fields, the options and the numbers alone. */
module Quotas {
  import opened Collections
  import opened Cooldown
  import opened SchedulerModel
  import opened SchedulerTheorems

  // ---- Refresh ----

  function VerifiedTime(c: Candidate): real { if c.lastVerifiedAt.Some? then c.lastVerifiedAt.value else 0.0 }

  /** How many seconds a verification of `c` lasts. */
  function Lasts(c: Candidate, ceiling: real): real {
    var tier :=
      if c.verifications < 2 then 3600.0 else if c.failures + c.consecutiveFails >= 2 then 1800.0 else 14400.0;
    if 0.0 < ceiling < 60.0 then 60.0 else if 60.0 <= ceiling < 7200.0 && ceiling < tier then ceiling else tier
  }

  predicate Due(inp: Inputs, n: Node) {
    n.fp in inp.cands &&
    var c := inp.cands[n.fp];
    c.proxyOk == Working
    && inp.now - VerifiedTime(c) >= Lasts(c, inp.opts.verifyTtl) * Clamp(0.0, 1.0, inp.opts.refreshRatio)
  }

  function DueTest(inp: Inputs): Node -> bool { (n: Node) => Due(inp, n) }

  function OtherTest(inp: Inputs): Node -> bool { (n: Node) => !Due(inp, n) }

  function DueNodes(inp: Inputs): seq<Node> { Filter(inp.eligible, DueTest(inp)) }

  function Others(inp: Inputs): seq<Node> { Filter(inp.eligible, OtherTest(inp)) }

  lemma DueIsOverdue(inp: Inputs, n: Node)
    ensures inp.IsOverdue(n) == Due(inp, n)
  {
  }

  lemma SameTests(inp: Inputs, ns: seq<Node>)
    ensures Filter(ns, inp.OverdueTest()) == Filter(ns, DueTest(inp))
    ensures Filter(ns, inp.FreshTest()) == Filter(ns, OtherTest(inp))
  {
    hide Due, Inputs.IsOverdue;
    forall n ensures inp.OverdueTest()(n) == DueTest(inp)(n) && inp.FreshTest()(n) == OtherTest(inp)(n) {
      DueIsOverdue(inp, n);
    }
    FilterCongruent(ns, inp.OverdueTest(), DueTest(inp));
    FilterCongruent(ns, inp.FreshTest(), OtherTest(inp));
  }

  lemma {:induction false} SplitSize<T(!new)>(s: seq<T>, p: T -> bool, q: T -> bool)
    requires forall x :: x in s ==> p(x) == !q(x)
    ensures |Filter(s, p)| + |Filter(s, q)| == |s|
  {
    if s != [] {
      SplitSize(s[..|s| - 1], p, q);
    }
  }

  lemma OthersCount(inp: Inputs, p: Plan)
    requires inp.Valid() && IsPlan(inp, p)
    ensures |p.deficit| + |p.explore| <= |inp.Discovery()|
    ensures |p.explore| < inp.limit - |p.refresh| - |p.deficit| ==> |p.deficit| + |p.explore| == |inp.Discovery()|
  {
    hide IsPlan, Inputs.Valid, Inputs.Discovery, Inputs.Wanted;
    DeficitIsPrefix(inp, p);
    var both := p.deficit + p.explore;
    forall n
      ensures multiset(both)[n] <= multiset(inp.Discovery())[n]
      ensures |p.explore| < inp.limit - |p.refresh| - |p.deficit| ==> multiset(both)[n] == multiset(inp.Discovery())[n]
    {
      RemainingCount(inp, p.deficit, n);
      ExploreCount(inp, p, n);
    }
    BiggerMultiset(multiset(both), multiset(inp.Discovery()));
    assert |multiset(both)| == |both| && |multiset(inp.Discovery())| == |inp.Discovery()|;
    if |p.explore| < inp.limit - |p.refresh| - |p.deficit| {
      BiggerMultiset(multiset(inp.Discovery()), multiset(both));
    }
  }

  /** The most due nodes a call refreshes while others are waiting. */
  function RefreshQuota(inp: Inputs): int {
    Max(1, (inp.limit as real * Clamp(0.1, 1.0, inp.opts.maxRefreshRatio)).Floor)
  }

  lemma RefreshSizes(inp: Inputs, p: Plan)
    requires inp.Valid() && IsPlan(inp, p)
    ensures RefreshQuota(inp) <= inp.limit
    ensures |p.refresh| == Min(|inp.Overdue()|, if inp.Discovery() != [] then RefreshQuota(inp) else inp.limit)
    ensures |p.backfill|
         == Min(Max(0, inp.limit - |p.refresh| - |p.deficit| - |p.explore|), |inp.Overdue()| - |p.refresh|)
  {
    hide Explores, Inputs.Overdue, Inputs.Discovery, Inputs.Wanted, Inputs.DeficitCeiling;
    MulFloor(inp.limit, Clamp(0.1, 1.0, inp.opts.maxRefreshRatio));
    MulFloor(1, Clamp(0.1, 1.0, inp.opts.maxRefreshRatio));
  }

  lemma Sizes(due: nat, others: nat, quota: int, limit: int, r: nat, f: nat, b: nat)
    requires 1 <= quota <= limit && r + f <= limit && f <= others
    requires r == Min(due, if others > 0 then quota else limit) && b == Min(Max(0, limit - r - f), due - r)
    requires r + f < limit ==> f == others
    ensures r + b == Min(due, Max(quota, limit - others))
  {
  }

  /** The due nodes returned number exactly the quota, or what the others leave of the limit if that is more, or
      all of them if there are fewer. */
  lemma RefreshCount(inp: Inputs, p: Plan)
    requires inp.Valid() && IsPlan(inp, p)
    ensures |Filter(p.All(), DueTest(inp))| == Min(|DueNodes(inp)|, Max(RefreshQuota(inp), inp.limit - |Others(inp)|))
    ensures |Filter(p.All(), DueTest(inp))| > RefreshQuota(inp) ==>
      forall n :: n in inp.eligible && !Due(inp, n) ==> n in p.All()
  {
    hide *;
    SameTests(inp, p.All());
    SameTests(inp, inp.eligible);
    DueInOrder(inp, p);
    OthersCount(inp, p);
    RefreshSizes(inp, p);
    PlanSizes(inp, p);
    OverdueSizes(inp);
    Sizes(|inp.Overdue()|, |inp.Discovery()|, RefreshQuota(inp), inp.limit, |p.refresh|, |p.deficit| + |p.explore|,
          |p.backfill|);
    if |Filter(p.All(), DueTest(inp))| > RefreshQuota(inp) {
      OthersTaken(inp, p);
    }
  }

  lemma OverdueSizes(inp: Inputs)
    ensures |inp.Overdue()| == |DueNodes(inp)| && inp.Discovery() == Others(inp)
  {
    SameTests(inp, inp.eligible);
  }

  lemma PlanSizes(inp: Inputs, p: Plan)
    requires inp.Valid() && IsPlan(inp, p)
    ensures |p.refresh| + |p.deficit| + |p.explore| <= inp.limit && 1 <= RefreshQuota(inp)
  {
    PlanFits(inp, p);
  }

  lemma OthersTaken(inp: Inputs, p: Plan)
    requires inp.Valid() && IsPlan(inp, p) && |p.refresh| + |p.backfill| > RefreshQuota(inp)
    ensures forall n :: n in inp.eligible && !Due(inp, n) ==> n in p.All()
  {
    hide IsPlan, Due, Inputs.Overdue, Inputs.Discovery, Inputs.Valid;
    RefreshSizes(inp, p);
    forall n | n in inp.eligible && !Due(inp, n) ensures n in p.All() {
      OverdueSizes(inp);
      assert n in inp.Discovery();
      DiscoverySelected(inp, p, n);
    }
  }

  /** The due nodes of a selection are the refreshed and the backfilled ones, a prefix of the overdue order. */
  lemma DueInOrder(inp: Inputs, p: Plan)
    requires inp.Valid() && IsPlan(inp, p)
    ensures Filter(p.All(), inp.OverdueTest()) == p.refresh + p.backfill <= inp.Overdue()
  {
    hide IsPlan, Inputs.Overdue, Inputs.IsOverdue, Inputs.Valid;
    forall n {
      PartMembers(inp, p, n);
    }
    RefreshPrefix(inp, p);
    OuterParts(p.refresh, p.deficit, p.explore, p.backfill, inp.OverdueTest());
  }

  /** The selection starts with the due nodes within the quota, goes on with the others, and ends with the due nodes
      that fill it up; the others are the deficit picks followed by the explored ones. */
  lemma TiersInOrder(inp: Inputs, p: Plan)
    requires inp.Valid() && IsPlan(inp, p)
    ensures var all := p.All();
      var first := Min(|DueNodes(inp)|, if Others(inp) != [] then RefreshQuota(inp) else inp.limit);
      var middle := first + |p.deficit| + |p.explore|;
      && first <= middle <= |all|
      && (forall i :: 0 <= i < first || middle <= i < |all| ==> Due(inp, all[i]))
      && (forall i :: first <= i < middle ==> !Due(inp, all[i]))
      && all[first..first + |p.deficit|] == p.deficit && all[first + |p.deficit|..middle] == p.explore
  {
    hide IsPlan, Due, Inputs.Valid, Inputs.IsOverdue;
    RefreshSizes(inp, p);
    OverdueSizes(inp);
    forall n
      ensures n in p.refresh || n in p.backfill ==> Due(inp, n)
      ensures n in p.deficit || n in p.explore ==> !Due(inp, n)
    {
      PartMembers(inp, p, n);
      DueIsOverdue(inp, n);
    }
    hide RefreshQuota, DueNodes, Others;
    var all := p.refresh + p.deficit + p.explore + p.backfill;
    assert p.All() == all;
    var r, d, e := |p.refresh|, |p.deficit|, |p.explore|;
    forall i | 0 <= i < |all|
      ensures if i < r then all[i] in p.refresh
              else if i < r + d then all[i] in p.deficit
              else if i < r + d + e then all[i] in p.explore
              else all[i] in p.backfill
    {
    }
  }

  function VerifiedOf(inp: Inputs, n: Node): real { if n.fp in inp.cands then VerifiedTime(inp.cands[n.fp]) else 0.0 }

  function VerifiedAtTime(inp: Inputs, t: real): Node -> bool { (n: Node) => VerifiedOf(inp, n) == t }

  /** The longest verified are refreshed first, and those verified at the same time in feed order. */
  lemma OldestAreRefreshed(inp: Inputs, p: Plan, m: Node, n: Node, t: real)
    requires inp.Valid() && IsPlan(inp, p)
    ensures m in p.All() && n in inp.eligible && n !in p.All() && Due(inp, m) && Due(inp, n) ==>
      VerifiedOf(inp, m) <= VerifiedOf(inp, n)
    ensures Filter(Filter(p.All(), DueTest(inp)), VerifiedAtTime(inp, t))
         <= Filter(DueNodes(inp), VerifiedAtTime(inp, t))
  {
    hide IsPlan, Due, Inputs.Valid, Inputs.IsOverdue;
    SameTests(inp, p.All());
    SameTests(inp, inp.eligible);
    DueInOrder(inp, p);
    var due, le := DueNodes(inp), inp.OldestFirst();
    assert inp.Overdue() == StableSort(due, le);
    SortSorted(due, le);
    SortMembers(due, le);
    SortStable(due, le, VerifiedAtTime(inp, t));
    FilterPrefix(p.refresh + p.backfill, inp.Overdue(), VerifiedAtTime(inp, t));
    if m in p.All() && n in inp.eligible && n !in p.All() && Due(inp, m) && Due(inp, n) {
      assert m in Filter(p.All(), DueTest(inp));
      PrefixBefore(p.refresh + p.backfill, inp.Overdue(), le, m, n);
    }
  }

  // ---- Country deficits ----

  /** Verified within its own interval, seen in the feeds within the flat one, not failing, not backing off. */
  predicate Current(inp: Inputs, c: Candidate) {
    && c.proxyOk == Working && inp.now - VerifiedTime(c) < Lasts(c, inp.opts.verifyTtl)
    && inp.now - c.lastSeenAt < inp.opts.verifyTtl && c.consecutiveFails == 0 && c.cooldownUntil <= inp.now
  }

  ghost function CurrentIn(inp: Inputs, cc: string): nat {
    if cc == "" then 0 else |set fp | fp in inp.cands && Current(inp, inp.cands[fp]) && inp.cands[fp].cc == cc|
  }

  lemma CurrentIsHealthy(inp: Inputs, cc: string)
    ensures inp.HealthyIn(cc) == CurrentIn(inp, cc)
  {
    forall fp | fp in inp.cands
      ensures inp.cands[fp].Healthy(inp.now, inp.opts.verifyTtl) == Current(inp, inp.cands[fp])
    {
    }
    assert inp.HealthyAmong(inp.cands.Keys, cc)
        == set fp | fp in inp.cands && Current(inp, inp.cands[fp]) && inp.cands[fp].cc == cc;
  }

  ghost predicate IsLastUnmet(inp: Inputs, ts: seq<(string, int)>, cc: string, i: nat)
    requires i < |ts|
  {
    && ts[i].0 == cc && ts[i].1 > CurrentIn(inp, cc)
    && forall j :: i < j < |ts| && ts[j].0 == cc ==> ts[j].1 <= CurrentIn(inp, cc)
  }

  /** What a country lacks is its target less its current candidates; of several targets of one country the last
      that is not met counts. */
  lemma {:induction false} NeedIs(inp: Inputs, ts: seq<(string, int)>, cc: string)
    ensures inp.DeficitAmong(ts, cc) == 0 <==>
      forall i :: 0 <= i < |ts| && ts[i].0 == cc ==> ts[i].1 <= CurrentIn(inp, cc)
    ensures forall i :: 0 <= i < |ts| && IsLastUnmet(inp, ts, cc, i) ==>
      inp.DeficitAmong(ts, cc) == ts[i].1 - CurrentIn(inp, cc)
  {
    hide CurrentIn, Inputs.HealthyIn;
    CurrentIsHealthy(inp, cc);
    if ts != [] {
      var init := ts[..|ts| - 1];
      NeedIs(inp, init, cc);
      assert forall i :: 0 <= i < |init| ==> init[i] == ts[i];
    }
  }

  function At(inp: Inputs, cc: string): Node -> bool { (n: Node) => !Due(inp, n) && n.cc == cc }

  /** The eligible nodes of a country that are not due, in feed order. */
  function Available(inp: Inputs, cc: string): seq<Node> { Filter(inp.eligible, At(inp, cc)) }

  function PicksFrom(inp: Inputs, p: Plan, cc: string): seq<Node> { Filter(p.deficit, At(inp, cc)) }

  /** The most nodes a call selects before exploration, so that a limit of five or more leaves it room. */
  function DeficitQuota(inp: Inputs): int {
    if inp.limit >= 5 && Others(inp) != [] then
      Max(1, inp.limit - Max(1, (inp.limit as real * (1.0 - Clamp(0.1, 1.0, inp.opts.maxDeficitRatio))).Floor))
    else inp.limit
  }

  lemma {:induction false} FilterTwice(s: seq<Node>, p: Node -> bool, q: Node -> bool, both: Node -> bool)
    requires forall n :: both(n) <==> p(n) && q(n)
    ensures Filter(Filter(s, p), q) == Filter(s, both)
  {
    if s != [] {
      var init, n := s[..|s| - 1], s[|s| - 1];
      FilterTwice(init, p, q, both);
      FilterAppend(Filter(init, p), n, q);
    }
  }

  lemma AvailableIs(inp: Inputs, cc: string)
    requires cc != ""
    ensures Filter(inp.Discovery(), InCountry(cc)) == Available(inp, cc)
  {
    hide Due, Inputs.IsOverdue, Filter;
    SameTests(inp, inp.eligible);
    FilterTwice(inp.eligible, OtherTest(inp), InCountry(cc), At(inp, cc));
  }

  lemma PicksAre(inp: Inputs, p: Plan, cc: string)
    requires inp.Valid() && IsPlan(inp, p) && cc != ""
    ensures Filter(p.deficit, InCountry(cc)) == PicksFrom(inp, p, cc)
  {
    hide Due, Inputs.IsOverdue, Filter, IsPlan, Inputs.Valid;
    forall n | n in p.deficit ensures InCountry(cc)(n) == At(inp, cc)(n) {
      PartMembers(inp, p, n);
      DueIsOverdue(inp, n);
    }
    FilterCongruent(p.deficit, InCountry(cc), At(inp, cc));
  }

  /** Of the first `k` countries' nodes, those of one country. */
  lemma {:induction false} Block(discovery: seq<Node>, order: seq<string>, deficits: map<string, nat>, k: nat,
                                 cc: string)
    requires DistinctNames(order) && k <= |order| && cc != ""
    ensures Filter(WantedUpTo(discovery, order, deficits, k), InCountry(cc))
         == if cc in order[..k] then WantedFrom(discovery, cc, CountOf(deficits, cc)) else []
  {
    hide WantedFrom, DistinctNames, InCountry, Filter;
    if k == 0 {
      FilterNone<Node>([], InCountry(cc));
    } else {
      var last := order[k - 1];
      Block(discovery, order, deficits, k - 1, cc);
      PrefixNames(order, k, cc);
      FilterConcat(WantedUpTo(discovery, order, deficits, k - 1), WantedFrom(discovery, last, CountOf(deficits, last)),
                   InCountry(cc));
      if last == cc {
        OwnCountry(discovery, cc, CountOf(deficits, cc));
      } else {
        TakenElsewhere(discovery, last, CountOf(deficits, last), cc);
      }
    }
  }

  lemma OwnCountry(discovery: seq<Node>, cc: string, need: nat)
    ensures Filter(WantedFrom(discovery, cc, need), InCountry(cc)) == WantedFrom(discovery, cc, need)
  {
    var here := Filter(discovery, InCountry(cc));
    TakePrefix(here, need);
    forall n | n in Take(here, need) ensures InCountry(cc)(n) {
      assert n in here;
    }
    FilterAll(Take(here, need), InCountry(cc));
  }

  lemma WantedOf(inp: Inputs, cc: string)
    requires cc != ""
    ensures Filter(inp.Wanted(), InCountry(cc)) == Take(Available(inp, cc), inp.DeficitAmong(inp.targets, cc))
  {
    hide *;
    OrderFacts(inp);
    WantedIs(inp);
    var order := inp.DeficitOrder();
    Block(inp.Discovery(), order, inp.Deficits(), |order|, cc);
    assert order[..|order|] == order;
    AvailableIs(inp, cc);
    FromIs(inp.Discovery(), cc, CountOf(inp.Deficits(), cc));
  }

  lemma FromIs(discovery: seq<Node>, cc: string, need: nat)
    ensures WantedFrom(discovery, cc, need) == Take(Filter(discovery, InCountry(cc)), need)
    ensures need == 0 ==> WantedFrom(discovery, cc, need) == []
  {
    hide Filter, InCountry;
  }

  /** A country gets its first available nodes, never more than it lacks, and all of those unless the quota was
      reached; the deficit tier never selects past the quota. */
  lemma CountryIsServed(inp: Inputs, p: Plan, cc: string)
    requires inp.Valid() && IsPlan(inp, p) && cc != ""
    ensures PicksFrom(inp, p, cc) <= Take(Available(inp, cc), inp.DeficitAmong(inp.targets, cc))
    ensures |p.refresh| + |p.deficit| < DeficitQuota(inp) ==>
      PicksFrom(inp, p, cc) == Take(Available(inp, cc), inp.DeficitAmong(inp.targets, cc))
    ensures p.deficit != [] ==> |p.refresh| + |p.deficit| <= DeficitQuota(inp)
  {
    hide *;
    WantedOf(inp, cc);
    PicksAre(inp, p, cc);
    DeficitIsPrefix(inp, p);
    FilterPrefix(p.deficit, inp.Wanted(), InCountry(cc));
    DeficitTaken(inp, p);
  }

  lemma DeficitTaken(inp: Inputs, p: Plan)
    requires inp.Valid() && IsPlan(inp, p)
    ensures |p.refresh| + |p.deficit| < DeficitQuota(inp) ==> p.deficit == inp.Wanted()
    ensures p.deficit != [] ==> |p.refresh| + |p.deficit| <= DeficitQuota(inp)
  {
    hide Explores, Inputs.Wanted, Inputs.Overdue, Inputs.RefreshCeiling, Inputs.DeficitCeiling, DeficitQuota;
    CeilingIsQuota(inp);
  }

  lemma CeilingIsQuota(inp: Inputs)
    requires inp.limit >= 1
    ensures inp.DeficitCeiling() == DeficitQuota(inp)
  {
    hide Inputs.Discovery, Others;
    OverdueSizes(inp);
  }

  /** The country lacking most is served first: none gets anything before every country that lacks more got all it
      lacks, or all there is. */
  lemma LargestNeedFirst(inp: Inputs, p: Plan, a: string, b: string)
    requires inp.Valid() && IsPlan(inp, p) && a != "" && b != ""
    requires inp.DeficitAmong(inp.targets, a) > inp.DeficitAmong(inp.targets, b) && PicksFrom(inp, p, b) != []
    ensures PicksFrom(inp, p, a) == Take(Available(inp, a), inp.DeficitAmong(inp.targets, a))
  {
    hide *;
    var order := inp.DeficitOrder();
    PicksAre(inp, p, a);
    PicksAre(inp, p, b);
    WantedOf(inp, a);
    DeficitIsPrefix(inp, p);
    var i := BeforeIn(inp, p, a, b);
    FilterPrefix(WantedUpTo(inp.Discovery(), order, inp.Deficits(), i), p.deficit, InCountry(a));
    FilterPrefix(p.deficit, inp.Wanted(), InCountry(a));
    FirstBlocks(inp, a, i);
  }

  lemma FirstBlocks(inp: Inputs, a: string, i: nat)
    requires a != "" && i <= |inp.DeficitOrder()| && a in inp.DeficitOrder()[..i]
    ensures Filter(WantedUpTo(inp.Discovery(), inp.DeficitOrder(), inp.Deficits(), i), InCountry(a))
         == Filter(inp.Wanted(), InCountry(a))
  {
    hide Inputs.Discovery, Inputs.DeficitOrder, Inputs.Deficits, InCountry, Filter, WantedUpTo;
    DeficitOrderDistinct(inp);
    var order := inp.DeficitOrder();
    assert order[..|order|] == order;
    Block(inp.Discovery(), order, inp.Deficits(), i, a);
    Block(inp.Discovery(), order, inp.Deficits(), |order|, a);
  }

  lemma OrderFacts(inp: Inputs)
    ensures SortedBy(inp.DeficitOrder(), LargestFirst(inp.Deficits())) && DistinctNames(inp.DeficitOrder())
    ensures forall cc :: cc in inp.DeficitOrder() <==> inp.DeficitAmong(inp.targets, cc) > 0
    ensures forall cc :: CountOf(inp.Deficits(), cc) == inp.DeficitAmong(inp.targets, cc)
  {
    hide Inputs.DeficitAmong, Inputs.LackingAmong;
    DeficitOrderDistinct(inp);
    SortSorted(inp.LackingAmong(inp.targets), LargestFirst(inp.Deficits()));
    SortMembers(inp.LackingAmong(inp.targets), LargestFirst(inp.Deficits()));
  }

  /** Where `b` stands in the order: after `a`, and the selection reaches past everything before it. */
  lemma BeforeIn(inp: Inputs, p: Plan, a: string, b: string) returns (i: nat)
    requires inp.Valid() && IsPlan(inp, p) && a != "" && b != ""
    requires inp.DeficitAmong(inp.targets, a) > inp.DeficitAmong(inp.targets, b)
    requires Filter(p.deficit, InCountry(b)) != []
    ensures i <= |inp.DeficitOrder()| && a in inp.DeficitOrder()[..i]
    ensures WantedUpTo(inp.Discovery(), inp.DeficitOrder(), inp.Deficits(), i) <= p.deficit
  {
    hide *;
    var order, discovery, deficits := inp.DeficitOrder(), inp.Discovery(), inp.Deficits();
    OrderFacts(inp);
    DeficitIsPrefix(inp, p);
    WantedIs(inp);
    i := Places(order, deficits, discovery, p.deficit, a, b);
  }

  lemma WantedIs(inp: Inputs)
    ensures inp.Wanted() == WantedUpTo(inp.Discovery(), inp.DeficitOrder(), inp.Deficits(), |inp.DeficitOrder()|)
  {
    hide WantedUpTo, Inputs.Discovery, Inputs.DeficitOrder, Inputs.Deficits;
  }

  lemma Places(order: seq<string>, deficits: map<string, nat>, discovery: seq<Node>, deficit: seq<Node>, a: string,
               b: string) returns (i: nat)
    requires SortedBy(order, LargestFirst(deficits)) && DistinctNames(order) && a != "" && b != ""
    requires forall cc :: cc in order <==> CountOf(deficits, cc) > 0
    requires CountOf(deficits, a) > CountOf(deficits, b)
    requires deficit <= WantedUpTo(discovery, order, deficits, |order|) && Filter(deficit, InCountry(b)) != []
    ensures i <= |order| && a in order[..i] && WantedUpTo(discovery, order, deficits, i) <= deficit
  {
    hide WantedUpTo, InCountry, Filter;
    Block(discovery, order, deficits, |order|, b);
    FilterPrefix(deficit, WantedUpTo(discovery, order, deficits, |order|), InCountry(b));
    assert order[..|order|] == order;
    i :| 0 <= i < |order| && order[i] == b;
    var j :| 0 <= j < |order| && order[j] == a;
    assert !LargestFirst(deficits)(b, a);
    assert j < i && order[..i][j] == a;
    WantedExtends(discovery, order, deficits, i, |order|);
    Block(discovery, order, deficits, i, b);
    if |deficit| <= |WantedUpTo(discovery, order, deficits, i)| {
      FilterPrefix(deficit, WantedUpTo(discovery, order, deficits, i), InCountry(b));
    }
  }

  // ---- Weights ----

  /** A source's weight grows with its yield from one, up to a sixth, to four, above five sixths. */
  lemma WeightByYield(inp: Inputs, src: string)
    ensures var y := if src in inp.sources then inp.sources[src].ewma else 0.5; var w := inp.Weight(src);
      && (w == 1 <==> y <= 1.0 / 6.0) && (w == 2 <==> 1.0 / 6.0 < y < 0.5)
      && (w == 3 <==> 0.5 <= y <= 5.0 / 6.0) && (w == 4 <==> 5.0 / 6.0 < y)
  {
  }
}
