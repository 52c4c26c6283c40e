/** Properties of every scheduling decision. */
module SchedulerTheorems {
  import opened Collections
  import opened SchedulerModel

  // ---- Distinct fingerprints, through multiplicities ----

  lemma {:induction false} CountInDistinct(ns: seq<Node>, n: Node)
    requires DistinctFps(ns)
    ensures multiset(ns)[n] <= 1
  {
    if ns != [] {
      var init := ns[..|ns| - 1];
      assert ns == init + [ns[|ns| - 1]];
      CountInDistinct(init, n);
      if multiset(init)[n] == 1 {
        assert n in init;
      }
    }
  }

  lemma DistinctSub(ns: seq<Node>, sub: seq<Node>)
    requires DistinctFps(ns) && multiset(sub) <= multiset(ns)
    ensures DistinctFps(sub) && forall n :: n in sub ==> n in ns
  {
    forall n | n in sub ensures n in ns {
      assert n in multiset(sub);
    }
    forall i, j | 0 <= i < j < |sub| ensures sub[i].fp != sub[j].fp {
      if sub[i].fp == sub[j].fp {
        assert sub[i] in ns && sub[j] in ns;
        TwiceCounts(sub, i, j);
        CountInDistinct(ns, sub[i]);
      }
    }
  }

  // ---- What each tier draws from ----

  lemma OverdueCount(inp: Inputs, n: Node)
    ensures multiset(inp.Overdue())[n] == if inp.IsOverdue(n) then multiset(inp.eligible)[n] else 0
  {
    FilterCount(inp.eligible, inp.OverdueTest(), n);
  }

  lemma DiscoveryCount(inp: Inputs, n: Node)
    ensures multiset(inp.Discovery())[n] == if inp.IsOverdue(n) then 0 else multiset(inp.eligible)[n]
  {
    FilterCount(inp.eligible, inp.FreshTest(), n);
  }

  lemma DiscoveryDistinct(inp: Inputs)
    requires inp.Valid()
    ensures DistinctFps(inp.Discovery())
  {
    forall n ensures multiset(inp.Discovery())[n] <= multiset(inp.eligible)[n] {
      DiscoveryCount(inp, n);
    }
    DistinctSub(inp.eligible, inp.Discovery());
  }

  ghost predicate DistinctNames(ss: seq<string>) {
    forall i, j :: 0 <= i < j < |ss| ==> ss[i] != ss[j]
  }

  lemma {:induction false} NamesSize(names: seq<string>)
    requires DistinctNames(names)
    ensures |set fp | fp in names| == |names|
  {
    if names != [] {
      var init, last := names[..|names| - 1], names[|names| - 1];
      assert names == init + [last];
      NamesSize(init);
      assert (set fp | fp in names) == (set fp | fp in init) + {last};
      assert last !in init;
    }
  }

  lemma NamesDistinct(a: seq<string>, b: seq<string>)
    requires DistinctNames(a) && multiset(a) == multiset(b)
    ensures DistinctNames(b)
  {
    forall i, j | 0 <= i < j < |b| ensures b[i] != b[j] {
      if b[i] == b[j] {
        TwiceCounts(b, i, j);
        NameCount(a, b[i]);
      }
    }
  }

  lemma {:induction false} NameCount(a: seq<string>, s: string)
    requires DistinctNames(a)
    ensures multiset(a)[s] <= 1
  {
    if a != [] {
      var init := a[..|a| - 1];
      assert a == init + [a[|a| - 1]];
      NameCount(init, s);
      assert multiset(init)[s] == 1 ==> s in init;
    }
  }

  lemma {:induction false} WantedCount(discovery: seq<Node>, order: seq<string>, deficits: map<string, nat>, k: nat,
                                       n: Node)
    requires DistinctNames(order) && k <= |order|
    ensures multiset(WantedUpTo(discovery, order, deficits, k))[n]
         <= if n.cc in order[..k] then multiset(discovery)[n] else 0
  {
    hide WantedFrom, DistinctNames;
    if k > 0 {
      WantedCount(discovery, order, deficits, k - 1, n);
      PrefixNames(order, k, n.cc);
      WantedFromCount(discovery, order[k - 1], CountOf(deficits, order[k - 1]), n);
    }
  }

  lemma {:induction false} WantedExtends(discovery: seq<Node>, order: seq<string>, deficits: map<string, nat>,
                                         k: nat, l: nat)
    requires k <= l <= |order|
    ensures WantedUpTo(discovery, order, deficits, k) <= WantedUpTo(discovery, order, deficits, l)
  {
    hide WantedFrom;
    if k < l {
      WantedExtends(discovery, order, deficits, k, l - 1);
      PrefixGrows(WantedUpTo(discovery, order, deficits, k), WantedUpTo(discovery, order, deficits, l - 1),
                  WantedFrom(discovery, order[l - 1], CountOf(deficits, order[l - 1])));
    }
  }

  lemma PrefixGrows(a: seq<Node>, b: seq<Node>, c: seq<Node>)
    requires a <= b
    ensures a <= b + c
  {
  }

  lemma PrefixNames(order: seq<string>, k: nat, cc: string)
    requires DistinctNames(order) && 0 < k <= |order|
    ensures cc in order[..k] <==> cc in order[..k - 1] || cc == order[k - 1]
    ensures order[k - 1] !in order[..k - 1]
  {
    assert order[..k] == order[..k - 1] + [order[k - 1]];
  }

  lemma WantedFromCount(discovery: seq<Node>, cc: string, need: nat, n: Node)
    ensures multiset(WantedFrom(discovery, cc, need))[n] <= if n.cc == cc then multiset(discovery)[n] else 0
  {
    FilterCount(discovery, InCountry(cc), n);
    TakePrefix(Filter(discovery, InCountry(cc)), need);
    PrefixCount(WantedFrom(discovery, cc, need), Filter(discovery, InCountry(cc)), n);
  }

  lemma DeficitOrderDistinct(inp: Inputs)
    ensures DistinctNames(inp.DeficitOrder())
  {
    var raw, ordered := inp.LackingAmong(inp.targets), inp.DeficitOrder();
    forall i, j | 0 <= i < j < |ordered| ensures ordered[i] != ordered[j] {
      if ordered[i] == ordered[j] {
        TwiceCounts(ordered, i, j);
        LackingOnce(inp, inp.targets, ordered[i]);
      }
    }
  }

  lemma {:induction false} LackingOnce(inp: Inputs, ts: seq<(string, int)>, cc: string)
    ensures multiset(inp.LackingAmong(ts))[cc] <= 1
  {
    if ts != [] {
      LackingOnce(inp, ts[..|ts| - 1], cc);
      var rest := inp.LackingAmong(ts[..|ts| - 1]);
      assert cc !in rest ==> multiset(rest)[cc] == 0;
    }
  }

  lemma DeficitCount(inp: Inputs, deficit: seq<Node>, n: Node)
    requires deficit <= inp.Wanted()
    ensures multiset(deficit)[n] <= multiset(inp.Discovery())[n]
  {
    DeficitOrderDistinct(inp);
    WantedCount(inp.Discovery(), inp.DeficitOrder(), inp.Deficits(), |inp.DeficitOrder()|, n);
    PrefixCount(deficit, inp.Wanted(), n);
  }

  lemma DeficitMember(inp: Inputs, deficit: seq<Node>, n: Node)
    requires deficit <= inp.Wanted() && n in deficit
    ensures n in inp.Discovery()
  {
    DeficitCount(inp, deficit, n);
    assert n in multiset(deficit);
  }

  /** The deficit picks and what they leave over make up the discovery nodes. */
  lemma RemainingCount(inp: Inputs, deficit: seq<Node>, n: Node)
    requires inp.Valid() && deficit <= inp.Wanted()
    ensures multiset(deficit)[n] + multiset(inp.Remaining(deficit))[n] == multiset(inp.Discovery())[n]
  {
    DeficitCount(inp, deficit, n);
    DiscoveryDistinct(inp);
    CountInDistinct(inp.Discovery(), n);
    FilterCount(inp.Discovery(), NotIn(deficit), n);
    if n in inp.Discovery() && n !in deficit && n.fp in Fps(deficit) {
      var m :| m in deficit && m.fp == n.fp;
      DeficitMember(inp, deficit, m);
    }
  }

  lemma QueueCount(inp: Inputs, deficit: seq<Node>, n: Node)
    ensures n.src in inp.Queues(deficit) ==>
      multiset(inp.Queues(deficit)[n.src])[n] == multiset(inp.Remaining(deficit))[n]
    ensures n.src !in inp.Queues(deficit) ==> multiset(inp.Remaining(deficit))[n] == 0
  {
    FilterCount(inp.Remaining(deficit), FromSource(n.src), n);
  }

  lemma ExplorationCount(queues: map<string, seq<Node>>, rotated: seq<string>, weights: map<string, nat>,
                         budget: int, picks: seq<Node>, rounds: nat, n: Node)
    requires IsExploration(queues, rotated, weights, budget, picks, rounds)
    ensures n.src in queues ==> multiset(picks)[n] <= multiset(queues[n.src])[n]
    ensures n.src in queues && |picks| < budget ==> multiset(picks)[n] == multiset(queues[n.src])[n]
    ensures n.src !in queues ==> multiset(picks)[n] == 0
  {
    FilterCount(picks, FromSource(n.src), n);
    if n.src in queues {
      PrefixCount(OfSource(picks, n.src), queues[n.src], n);
    }
  }

  lemma ExploreCount(inp: Inputs, p: Plan, n: Node)
    requires inp.Valid() && IsPlan(inp, p)
    ensures multiset(p.explore)[n] <= multiset(inp.Remaining(p.deficit))[n]
    ensures |p.explore| < inp.limit - |p.refresh| - |p.deficit| ==>
      multiset(p.explore)[n] == multiset(inp.Remaining(p.deficit))[n]
  {
    QueueCount(inp, p.deficit, n);
    ExplorationCount(inp.Queues(p.deficit), inp.Rotated(p.deficit), inp.Weights(p.deficit),
                     inp.limit - |p.refresh| - |p.deficit|, p.explore, p.rounds, n);
  }

  lemma DeficitIsPrefix(inp: Inputs, p: Plan)
    requires inp.Valid() && IsPlan(inp, p)
    ensures p.deficit <= inp.Wanted()
  {
    TakePrefix(inp.Wanted(), inp.DeficitCeiling() - |p.refresh|);
  }

  lemma RefreshPrefix(inp: Inputs, p: Plan)
    requires inp.Valid() && IsPlan(inp, p)
    ensures p.refresh + p.backfill <= inp.Overdue()
    ensures |p.All()| < inp.limit ==> p.refresh + p.backfill == inp.Overdue()
  {
    hide Explores, Take, Inputs.Overdue, Inputs.Wanted, Inputs.RefreshCeiling, Inputs.DeficitCeiling;
    TakeTwice(inp.Overdue(), inp.RefreshCeiling(), inp.limit - |p.refresh| - |p.deficit| - |p.explore|);
  }

  // ---- Main results about one call ----

  /** No budget is wasted: the selection has exactly min(limit, eligible) nodes, all different and eligible. */
  lemma WorkConserving(inp: Inputs, p: Plan)
    requires inp.Valid() && IsPlan(inp, p)
    ensures |p.All()| == Min(inp.limit, |inp.eligible|)
    ensures DistinctFps(p.All())
    ensures forall n :: n in p.All() ==> n in inp.eligible
  {
    hide IsPlan, Plan.All, Filter;
    forall n
      ensures multiset(p.All())[n] <= multiset(inp.eligible)[n]
      ensures |p.All()| < inp.limit ==> multiset(p.All())[n] == multiset(inp.eligible)[n]
    {
      PlanCount(inp, p, n);
    }
    assert multiset(p.All()) <= multiset(inp.eligible);
    DistinctSub(inp.eligible, p.All());
    PlanFits(inp, p);
    Cardinality(p.All(), inp.eligible, inp.limit);
  }

  lemma PlanCount(inp: Inputs, p: Plan, n: Node)
    requires inp.Valid() && IsPlan(inp, p)
    ensures multiset(p.All())[n] <= multiset(inp.eligible)[n]
    ensures |p.All()| < inp.limit ==> multiset(p.All())[n] == multiset(inp.eligible)[n]
  {
    PartCounts(p.refresh, p.deficit, p.explore, p.backfill, n);
    OverdueCount(inp, n);
    DiscoveryCount(inp, n);
    DeficitIsPrefix(inp, p);
    RemainingCount(inp, p.deficit, n);
    ExploreCount(inp, p, n);
    RefreshPrefix(inp, p);
    PrefixCount(p.refresh + p.backfill, inp.Overdue(), n);
  }

  lemma PartCounts(a: seq<Node>, b: seq<Node>, c: seq<Node>, d: seq<Node>, n: Node)
    ensures multiset(a + b + c + d)[n] == multiset(a + d)[n] + multiset(b)[n] + multiset(c)[n]
  {
  }

  lemma PlanFits(inp: Inputs, p: Plan)
    requires inp.Valid() && IsPlan(inp, p)
    ensures |p.All()| <= inp.limit
  {
  }

  lemma Cardinality(s: seq<Node>, t: seq<Node>, limit: int)
    requires |s| <= limit && multiset(s) <= multiset(t)
    requires |s| < limit ==> multiset(s) == multiset(t)
    ensures |s| == Min(limit, |t|)
  {
    assert |multiset(s)| == |s| && |multiset(t)| == |t|;
    BiggerMultiset(multiset(s), multiset(t));
  }

  lemma BiggerMultiset<T>(a: multiset<T>, b: multiset<T>)
    requires a <= b
    ensures |a| <= |b|
  {
    assert b == a + (b - a);
  }

  lemma PartMembers(inp: Inputs, p: Plan, n: Node)
    requires inp.Valid() && IsPlan(inp, p)
    ensures n in p.refresh || n in p.backfill ==> inp.IsOverdue(n)
    ensures n in p.deficit || n in p.explore ==> !inp.IsOverdue(n)
  {
    OverdueCount(inp, n);
    DiscoveryCount(inp, n);
    DeficitIsPrefix(inp, p);
    RemainingCount(inp, p.deficit, n);
    ExploreCount(inp, p, n);
    RefreshPrefix(inp, p);
    PrefixCount(p.refresh + p.backfill, inp.Overdue(), n);
    MemberCounts(p.refresh, p.backfill, n);
    MemberCounts(p.deficit, p.explore, n);
  }

  lemma MemberCounts(a: seq<Node>, b: seq<Node>, n: Node)
    ensures n in a || n in b <==> multiset(a + b)[n] > 0
    ensures multiset(a + b)[n] == multiset(a)[n] + multiset(b)[n]
  {
    assert n in multiset(a + b) <==> n in a + b;
  }

  lemma DiscoverySelected(inp: Inputs, p: Plan, n: Node)
    requires inp.Valid() && IsPlan(inp, p) && n in inp.Discovery()
    requires |p.refresh| + |p.deficit| + |p.explore| < inp.limit
    ensures n in p.deficit || n in p.explore
  {
    assert n in multiset(inp.Discovery());
    DeficitIsPrefix(inp, p);
    RemainingCount(inp, p.deficit, n);
    ExploreCount(inp, p, n);
    MemberCounts(p.deficit, p.explore, n);
  }

  lemma OuterParts(a: seq<Node>, b: seq<Node>, c: seq<Node>, d: seq<Node>, f: Node -> bool)
    requires forall n :: n in a || n in d ==> f(n)
    requires forall n :: n in b || n in c ==> !f(n)
    ensures Filter(a + b + c + d, f) == a + d
  {
    var ab := a + b;
    var abc := ab + c;
    FilterConcat(abc, d, f);
    FilterConcat(ab, c, f);
    FilterConcat(a, b, f);
    FilterAll(a, f);
    FilterAll(d, f);
    FilterNone(b, f);
    FilterNone(c, f);
    assert Filter(abc, f) == a;
  }

  lemma TakenElsewhere(discovery: seq<Node>, last: string, need: nat, cc: string)
    requires last != cc
    ensures Filter(WantedFrom(discovery, last, need), InCountry(cc)) == []
  {
    var here := Filter(discovery, InCountry(last));
    TakePrefix(here, need);
    forall n | n in Take(here, need) ensures !InCountry(cc)(n) {
      assert n in here;
    }
    FilterNone(Take(here, need), InCountry(cc));
  }

  /** A source left at `ns` picks bounds another's share `nt` in proportion to the weights, so by factor 4. */
  predicate FairTo(ns: nat, nt: nat, ws: nat, wt: nat) {
    nt * ws <= wt * (ns + ws) && nt <= 4 * (ns + 1)
  }

  /** Weighted fairness: a source left with candidates holds every other source to its fair share. */
  lemma ExplorationIsFair(inp: Inputs, p: Plan, s: string, t: string)
    requires Explores(inp, p)
    requires s in inp.Queues(p.deficit) && t in inp.Queues(p.deficit)
    ensures OfSource(p.explore, s) != inp.Queues(p.deficit)[s] ==>
      FairTo(|OfSource(p.explore, s)|, |OfSource(p.explore, t)|, inp.Weight(s), inp.Weight(t))
  {
    hide IsExploration, FairTo, Inputs.Queues, Inputs.Rotated, Inputs.Weights, OfSource;
    WeightOf(inp, p.deficit, s);
    WeightOf(inp, p.deficit, t);
    ServedShare(inp.Queues(p.deficit), inp.Rotated(p.deficit), inp.Weights(p.deficit),
                inp.limit - |p.refresh| - |p.deficit|, p.explore, p.rounds, s, t);
  }

  lemma WeightOf(inp: Inputs, deficit: seq<Node>, s: string)
    requires s in inp.Queues(deficit)
    ensures s in inp.Weights(deficit) && inp.Weights(deficit)[s] == inp.Weight(s)
  {
  }

  /** No source is passed over: with at least as many exploration picks as sources, each was served. */
  lemma EverySourceServed(inp: Inputs, p: Plan, s: string)
    requires Explores(inp, p) && s in inp.Queues(p.deficit)
    ensures |p.explore| >= |inp.Rotated(p.deficit)| ==> OfSource(p.explore, s) != []
  {
    hide IsExploration, Inputs.Queues, Inputs.Rotated, Inputs.Weights, OfSource;
    RotatedMembers(inp, p.deficit, s);
    forall n {
      QueueMembers(inp, p.deficit, s, n);
    }
    FirstPassServes(inp.Queues(p.deficit), inp.Rotated(p.deficit), inp.Weights(p.deficit),
                    inp.limit - |p.refresh| - |p.deficit|, p.explore, p.rounds, s);
  }

  lemma ServedShare(queues: map<string, seq<Node>>, rotated: seq<string>, weights: map<string, nat>,
                    budget: int, picks: seq<Node>, rounds: nat, s: string, t: string)
    requires s in queues && t in queues && s in weights && t in weights
    requires 1 <= weights[s] <= 4 && 1 <= weights[t] <= 4
    requires IsExploration(queues, rotated, weights, budget, picks, rounds)
    ensures OfSource(picks, s) != queues[s] ==>
      FairTo(|OfSource(picks, s)|, |OfSource(picks, t)|, weights[s], weights[t])
  {
    var served := OfSource(picks, s);
    assert served <= queues[s];
    if served != queues[s] {
      assert |served| < |queues[s]|;
      FairShare(|served|, |OfSource(picks, t)|, weights[s], weights[t], rounds);
    }
  }

  lemma FirstPassServes(queues: map<string, seq<Node>>, rotated: seq<string>, weights: map<string, nat>,
                        budget: int, picks: seq<Node>, rounds: nat, s: string)
    requires s in rotated && s in queues
    requires forall n :: n in queues[s] ==> n.src == s
    requires IsExploration(queues, rotated, weights, budget, picks, rounds)
    ensures |picks| >= |rotated| ==> OfSource(picks, s) != []
  {
    if |picks| >= |rotated| {
      var i :| 0 <= i < |rotated| && rotated[i] == s;
      assert picks[i] in OfSource(picks, s);
    }
  }

  lemma FairShare(ns: nat, nt: nat, ws: nat, wt: nat, r: nat)
    requires 1 <= ws <= 4 && 1 <= wt <= 4
    requires nt <= (r + 1) * wt && r * ws <= ns
    ensures FairTo(ns, nt, ws, wt)
  {
    assert nt * ws <= ((r + 1) * wt) * ws;
    assert ((r + 1) * wt) * ws == wt * (r * ws + ws);
    assert wt * (r * ws + ws) <= wt * (ns + ws);
    assert r <= r * ws;
    assert (r + 1) * wt <= (r + 1) * 4;
  }

  lemma RotatedMembers(inp: Inputs, deficit: seq<Node>, s: string)
    ensures s in inp.Rotated(deficit) <==> s in inp.Queues(deficit)
  {
    var raw := SourcesOf(inp.Remaining(deficit));
    var srcs := StableSort(raw, StrLe);
    SortMembers(raw, StrLe);
    if srcs != [] {
      var c := inp.cursor % |srcs|;
      assert srcs == srcs[..c] + srcs[c..];
    }
  }

  lemma QueueMembers(inp: Inputs, deficit: seq<Node>, s: string, n: Node)
    requires s in inp.Queues(deficit)
    ensures n in inp.Queues(deficit)[s] <==> n in inp.Remaining(deficit) && n.src == s
  {
    SortMembers(OfSource(inp.Remaining(deficit), s), inp.LeastRecentFirst());
  }
}
