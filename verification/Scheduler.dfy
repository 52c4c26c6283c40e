/** The candidate scheduler: a persisted state object whose `ScheduleCandidates` makes an `IsPlan` decision. */
module Scheduler {
  import opened Collections
  import opened Cooldown
  import opened SchedulerModel
  import opened SchedulerTheorems
  import opened Exploration
  import opened SchedulerState

  class PoolScheduler {
    var candidates: Candidates
    var sources: map<string, SourceYield>
    var cursor: nat
    var updatedAt: real
    const digest: string -> nat            // hex digest of a fingerprint, as a number
    const jitter: (string, nat) -> real    // digest fraction of a fingerprint and a failure count

    constructor (digest: string -> nat, jitter: (string, nat) -> real)
      ensures candidates == map[] && sources == map[] && cursor == 0 && updatedAt == 0.0
      ensures this.digest == digest && this.jitter == jitter
    {
      candidates, sources, cursor, updatedAt := map[], map[], 0, 0.0;
      this.digest, this.jitter := digest, jitter;
    }

    /** Keep one copy per fingerprint, preferring copies with a country. */
    static method Dedup(nodes: seq<Node>) returns (unique: seq<Node>)
      ensures IsDedup(nodes, unique)
    {
      hide IsDedup, FirstFps, DistinctFps;
      unique := [];
      var index: map<string, nat> := map[];
      EmptyDedup();
      for k := 0 to |nodes|
        invariant Indexed(unique, index)
        invariant IsDedup(nodes[..k], unique)
      {
        var node := nodes[k];
        ghost var was := unique;
        assert nodes[..k + 1] == nodes[..k] + [node];
        IndexedPosition(unique, index, node.fp);
        if node.fp != "" {
          if node.fp !in index {
            index := index[node.fp := |unique|];
            unique := unique + [node];
          } else if node.cc != "" && unique[index[node.fp]].cc == "" {
            unique := unique[index[node.fp] := node];
          }
        }
        DedupStep(nodes[..k], node, was);
      }
      assert nodes[..|nodes|] == nodes;
    }

    // ---- The steps of a call ----

    /** Record that every incoming node was seen. */
    method TouchNodes(unique: seq<Node>, now: real)
      modifies this`candidates
      ensures candidates == TouchAll(old(candidates), unique, now)
    {
      hide TouchAll;
      TouchNone(candidates, now);
      for k := 0 to |unique|
        invariant candidates == TouchAll(old(candidates), unique[..k], now)
      {
        var n := unique[k];
        assert unique[..k + 1] == unique[..k] + [n];
        TouchAppend(old(candidates), unique[..k], n, now);
        var c := if n.fp in candidates then candidates[n.fp] else Fresh(n, now);
        c := c.(lastSeenAt := now);
        if n.src != "" && c.src == "" {
          c := c.(src := n.src);
        }
        if n.cc != "" && c.cc == "" {
          c := c.(cc := n.cc);
        }
        candidates := candidates[n.fp := c];
      }
      assert unique[..|unique|] == unique;
    }

    method SelectEligible(unique: seq<Node>, now: real) returns (eligible: seq<Node>)
      ensures eligible == Filter(unique, EligibleTest(candidates, now))
    {
      eligible := [];
      for k := 0 to |unique|
        invariant eligible == Filter(unique[..k], EligibleTest(candidates, now))
      {
        FilterExtend(unique, k, EligibleTest(candidates, now));
        var n := unique[k];
        if !(n.fp in candidates && candidates[n.fp].InCooldown(now)) {
          eligible := eligible + [n];
        }
      }
      assert unique[..|unique|] == unique;
    }

    /** The overdue nodes oldest first, and the rest in feed order. */
    static method SplitOverdue(inp: Inputs) returns (overdue: seq<Node>, discovery: seq<Node>)
      ensures overdue == inp.Overdue() && discovery == inp.Discovery()
    {
      overdue, discovery := [], [];
      var ns := inp.eligible;
      for k := 0 to |ns|
        invariant overdue == Filter(ns[..k], inp.OverdueTest())
        invariant discovery == Filter(ns[..k], inp.FreshTest())
      {
        FilterExtend(ns, k, inp.OverdueTest());
        FilterExtend(ns, k, inp.FreshTest());
        if inp.IsOverdue(ns[k]) {
          overdue := overdue + [ns[k]];
        } else {
          discovery := discovery + [ns[k]];
        }
      }
      assert ns[..|ns|] == ns;
      overdue := StableSort(overdue, inp.OldestFirst());
    }

    /** Append `n` unless the limit is reached or its fingerprint was already taken. */
    method ScheduleNode(scheduled: seq<Node>, n: Node, limit: int, now: real, record: bool)
      returns (out: seq<Node>, ok: bool)
      modifies this`candidates
      ensures ok <==> |scheduled| < limit && n.fp !in Fps(scheduled)
      ensures out == if ok then scheduled + [n] else scheduled
      ensures candidates == if record && ok then Stamp(old(candidates), [n], now) else old(candidates)
    {
      if |scheduled| >= limit || n.fp in Fps(scheduled) {
        return scheduled, false;
      }
      if record && n.fp in candidates {
        candidates := candidates[n.fp := candidates[n.fp].(lastScheduledAt := now)];
      }
      assert record ==> candidates == Stamp(old(candidates), [n], now);
      return scheduled + [n], true;
    }

    /** Schedule the nodes of `list` in order until `cap` nodes are scheduled in all. `start` is the state
        before the first node of this call was recorded. */
    method Fill(list: seq<Node>, scheduled: seq<Node>, cap: int, limit: int, now: real, record: bool,
                ghost start: Candidates)
      returns (out: seq<Node>)
      requires DistinctFps(list) && cap <= limit
      requires candidates == Recorded(start, scheduled, now, record)
      modifies this`candidates
      ensures out == scheduled + Take(Unpicked(list, scheduled), cap - |scheduled|)
      ensures candidates == Recorded(start, out, now, record)
    {
      hide Recorded, Stamp, Unpicked, DistinctFps, Take;
      out := scheduled;
      ghost var taken: seq<Node> := [];
      var k := 0;
      NothingUnpicked(scheduled);
      while k < |list| && |out| < cap
        invariant 0 <= k <= |list|
        invariant out == scheduled + taken && taken == Unpicked(list[..k], scheduled)
        invariant |taken| <= Max(0, cap - |scheduled|)
        invariant candidates == Recorded(start, out, now, record)
      {
        FillStep(list, k, scheduled);
        RecordMore(start, out, list[k], now, record);
        var ok;
        out, ok := ScheduleNode(out, list[k], limit, now, record);
        if ok {
          taken := taken + [list[k]];
        }
        k := k + 1;
      }
      FillEnd(list, k, scheduled, cap - |scheduled|, taken);
    }

    /** Healthy verified candidates per country. Recording a selection changes nothing this reads. */
    static method CountHealthy(inp: Inputs) returns (counts: map<string, nat>)
      ensures forall cc :: CountOf(counts, cc) == inp.HealthyIn(cc)
    {
      counts := map[];
      var todo := inp.cands.Keys;
      while todo != {}
        invariant todo <= inp.cands.Keys
        invariant forall cc ::
          CountOf(counts, cc) == if cc == "" then 0 else |inp.HealthyAmong(inp.cands.Keys - todo, cc)|
        decreases todo
      {
        var fp :| fp in todo;
        var c := inp.cands[fp];
        ghost var done := inp.cands.Keys - todo;
        forall cc ensures |inp.HealthyAmong(done + {fp}, cc)| == |inp.HealthyAmong(done, cc)| +
          if c.Healthy(inp.now, inp.opts.verifyTtl) && c.cc == cc then 1 else 0
        {
          HealthyGrows(inp, done, fp, cc);
        }
        assert inp.cands.Keys - (todo - {fp}) == done + {fp};
        todo := todo - {fp};
        if c.Healthy(inp.now, inp.opts.verifyTtl) && c.cc != "" {
          counts := counts[c.cc := CountOf(counts, c.cc) + 1];
        }
      }
      assert inp.cands.Keys - todo == inp.cands.Keys;
    }

    static method FindDeficits(inp: Inputs, counts: map<string, nat>)
      returns (lacking: seq<string>, deficits: map<string, nat>)
      requires forall cc :: CountOf(counts, cc) == inp.HealthyIn(cc)
      ensures lacking == inp.LackingAmong(inp.targets) && deficits == inp.Deficits()
    {
      hide Inputs.DeficitAmong, Inputs.LackingAmong, Inputs.HealthyIn;
      lacking, deficits := [], map[];
      var ts := inp.targets;
      NoTargets(inp);
      for k := 0 to |ts|
        invariant lacking == inp.LackingAmong(ts[..k])
        invariant deficits.Keys == set cc | cc in lacking
        invariant forall cc :: cc in deficits ==> deficits[cc] == inp.DeficitAmong(ts[..k], cc)
      {
        var (cc, target) := ts[k];
        NextTarget(inp, ts, k);
        var deficit := Max(0, target - CountOf(counts, cc));
        if deficit > 0 {
          if cc !in deficits {
            lacking := lacking + [cc];
          }
          deficits := deficits[cc := deficit];
        }
      }
      assert ts[..|ts|] == ts;
    }

    /** The discovery nodes of each lacking country, in feed order. */
    static method GroupByCountry(discovery: seq<Node>, deficits: map<string, nat>)
      returns (byCountry: map<string, seq<Node>>)
      ensures forall cc :: cc in deficits ==> NodesOf(byCountry, cc) == Filter(discovery, InCountry(cc))
    {
      byCountry := map[];
      for k := 0 to |discovery|
        invariant forall cc :: cc in deficits ==> NodesOf(byCountry, cc) == Filter(discovery[..k], InCountry(cc))
      {
        var n := discovery[k];
        forall cc | cc in deficits {
          FilterExtend(discovery, k, InCountry(cc));
        }
        if n.cc != "" && n.cc in deficits {
          byCountry := byCountry[n.cc := NodesOf(byCountry, n.cc) + [n]];
        }
      }
      assert discovery[..|discovery|] == discovery;
    }

    /** Serve the countries in `order`, largest deficit first, up to the ceiling. */
    method PickDeficits(discovery: seq<Node>, order: seq<string>, deficits: map<string, nat>,
                        byCountry: map<string, seq<Node>>, refresh: seq<Node>, ceiling: int, limit: int, now: real,
                        record: bool, ghost start: Candidates)
      returns (scheduled: seq<Node>)
      requires DistinctFps(discovery) && DistinctNames(order) && ceiling <= limit
      requires forall cc :: cc in order ==>
        cc in deficits && NodesOf(byCountry, cc) == Filter(discovery, InCountry(cc))
      requires Disjoint(refresh, discovery)
      requires candidates == Recorded(start, refresh, now, record)
      modifies this`candidates
      ensures scheduled == ServedUpTo(discovery, order, deficits, refresh, ceiling, |order|)
      ensures candidates == Recorded(start, scheduled, now, record)
    {
      hide DistinctFps, DistinctNames, Disjoint, ServedUpTo, Recorded, NodesOf, Filter;
      scheduled := refresh;
      var k := 0;
      NoneServed(discovery, order, deficits, refresh, ceiling);
      while k < |order| && |scheduled| < ceiling
        invariant 0 <= k <= |order|
        invariant scheduled == ServedUpTo(discovery, order, deficits, refresh, ceiling, k)
        invariant candidates == Recorded(start, scheduled, now, record)
      {
        scheduled := ServeCountry(discovery, order, deficits, byCountry, refresh, ceiling, limit, now, record, start,
                                  k, scheduled);
        k := k + 1;
      }
      ServeDone(discovery, order, deficits, refresh, ceiling, k);
    }

    method ServeCountry(discovery: seq<Node>, order: seq<string>, deficits: map<string, nat>,
                        byCountry: map<string, seq<Node>>, refresh: seq<Node>, ceiling: int, limit: int, now: real,
                        record: bool, ghost start: Candidates, k: nat, scheduled: seq<Node>)
      returns (out: seq<Node>)
      requires DistinctFps(discovery) && DistinctNames(order) && ceiling <= limit && k < |order|
      requires order[k] in deficits && NodesOf(byCountry, order[k]) == Filter(discovery, InCountry(order[k]))
      requires Disjoint(refresh, discovery) && |scheduled| < ceiling
      requires scheduled == ServedUpTo(discovery, order, deficits, refresh, ceiling, k)
      requires candidates == Recorded(start, scheduled, now, record)
      modifies this`candidates
      ensures out == ServedUpTo(discovery, order, deficits, refresh, ceiling, k + 1)
      ensures candidates == Recorded(start, out, now, record)
    {
      hide DistinctFps, DistinctNames, Disjoint, ServedUpTo, Recorded, Take, Unpicked, Filter, NodesOf;
      var needed := deficits[order[k]];
      var available := NodesOf(byCountry, order[k]);
      ServeStep(discovery, order, deficits, refresh, ceiling, k);
      out := Fill(available, scheduled, Min(ceiling, |scheduled| + needed), limit, now, record, start);
    }

    /** Visit source `src`, the `i`th of a pass: pop and schedule its next candidate unless its weight is used up. */
    method VisitSource(t: Tour, queues: Queues, alloc: Counts, scheduled: seq<Node>, src: string, now: real,
                       record: bool, ghost i: nat, ghost pool: seq<Node>, ghost picks: seq<Node>, ghost rounds: nat,
                       ghost start: Candidates)
      returns (queues': Queues, alloc': Counts, scheduled': seq<Node>, added: bool, ghost picks': seq<Node>)
      requires InPass(t, pool, queues, alloc, picks, rounds, i)
      requires i < |t.rotated| && src == t.rotated[i] && |scheduled| < t.limit && scheduled == t.base + picks
      requires candidates == Recorded(start, scheduled, now, record)
      modifies this`candidates
      ensures scheduled' == t.base + picks' && InPass(t, pool, queues', alloc', picks', rounds, i + 1)
      ensures |scheduled'| == |scheduled| + if added then 1 else 0
      ensures !added ==> queues' == queues && alloc' == alloc && scheduled' == scheduled
      ensures !added ==> PassedOver(queues, alloc, t.weights, src)
      ensures candidates == Recorded(start, scheduled', now, record)
    {
      hide InPass;
      queues', alloc', scheduled', added, picks' := queues, alloc, scheduled, false, picks;
      PassFacts(t, pool, queues, alloc, picks, rounds, i);
      if alloc[src] >= t.weights[src] || queues[src] == [] {
        VisitSkips(t, pool, queues, alloc, picks, rounds, i, src);
        return;
      }
      VisitPicks(t, pool, queues, alloc, picks, rounds, i, src);
      var candidate := queues[src][0];
      RecordMore(start, scheduled, candidate, now, record);
      queues' := queues[src := queues[src][1..]];
      scheduled', added := ScheduleNode(scheduled, candidate, t.limit, now, record);
      alloc' := alloc[src := alloc[src] + 1];
      picks' := picks + [candidate];
    }

    /** One pass over the sources. */
    method RunPass(t: Tour, queues: Queues, alloc: Counts, scheduled: seq<Node>, now: real, record: bool,
                   ghost pool: seq<Node>, ghost picks: seq<Node>, ghost rounds: nat, ghost start: Candidates)
      returns (queues': Queues, alloc': Counts, scheduled': seq<Node>, anyAdded: bool, ghost picks': seq<Node>)
      requires InPass(t, pool, queues, alloc, picks, rounds, 0)
      requires |scheduled| < t.limit && scheduled == t.base + picks
      requires candidates == Recorded(start, scheduled, now, record)
      modifies this`candidates
      ensures scheduled' == t.base + picks' && InPass(t, pool, queues', alloc', picks', rounds, 0)
      ensures queues'.Keys == alloc'.Keys == t.weights.Keys && |scheduled'| <= t.limit
      ensures anyAdded ==> |scheduled'| > |scheduled|
      ensures !anyAdded ==> queues' == queues && alloc' == alloc && scheduled' == scheduled
      ensures !anyAdded ==> Stuck(queues', alloc', t.weights)
      ensures candidates == Recorded(start, scheduled', now, record)
    {
      hide InPass;
      queues', alloc', scheduled', anyAdded, picks' := queues, alloc, scheduled, false, picks;
      var i := 0;
      while i < |t.rotated| && |scheduled'| < t.limit
        invariant 0 <= i <= |t.rotated|
        invariant scheduled' == t.base + picks' && InPass(t, pool, queues', alloc', picks', rounds, i)
        invariant if anyAdded then |scheduled'| > |scheduled|
                  else queues' == queues && alloc' == alloc && scheduled' == scheduled
        invariant !anyAdded ==> forall k :: 0 <= k < i ==> PassedOver(queues', alloc', t.weights, t.rotated[k])
        invariant candidates == Recorded(start, scheduled', now, record)
      {
        var added;
        queues', alloc', scheduled', added, picks' :=
          VisitSource(t, queues', alloc', scheduled', t.rotated[i], now, record, i, pool, picks', rounds, start);
        anyAdded := anyAdded || added;
        i := i + 1;
      }
      PassFacts(t, pool, queues', alloc', picks', rounds, i);
      PassDone(t, pool, queues', alloc', picks', rounds, i);
      if !anyAdded {
        AllPassedOver(t, pool, queues', alloc', picks', rounds);
      }
    }

    /** The weighted round robin: passes over the sources until the limit is reached or all queues are empty,
        granting every source its weight again whenever a pass finds nothing it may pick. */
    method Explore(t: Tour, now: real, record: bool, ghost pool: seq<Node>, ghost start: Candidates)
      returns (scheduled: seq<Node>, ghost picks: seq<Node>, ghost rounds: nat)
      requires WellFormed(t, pool)
      requires candidates == Recorded(start, t.base, now, record)
      modifies this`candidates
      ensures scheduled == t.base + picks
      ensures IsExploration(t.queues, t.rotated, t.weights, t.limit - |t.base|, picks, rounds)
      ensures candidates == Recorded(start, scheduled, now, record)
    {
      hide InPass, WellFormed, IsExploration;
      var queues := t.queues;
      scheduled, picks, rounds := t.base, [], 0;
      var alloc: Counts := map s | s in t.weights :: 0;
      var anyAdded := true;
      StartOfPass(t, pool, alloc);
      while anyAdded && |scheduled| < t.limit
        invariant scheduled == t.base + picks && InPass(t, pool, queues, alloc, picks, rounds, 0)
        invariant queues.Keys == alloc.Keys == t.weights.Keys && |scheduled| <= t.limit
        invariant !anyAdded ==> |scheduled| >= t.limit || forall s :: s in queues ==> queues[s] == []
        invariant candidates == Recorded(start, scheduled, now, record)
        decreases t.limit - |scheduled|, if Stuck(queues, alloc, t.weights) then 1 else 0, if anyAdded then 1 else 0
      {
        queues, alloc, scheduled, anyAdded, picks :=
          RunPass(t, queues, alloc, scheduled, now, record, pool, picks, rounds, start);
        var anyLeft := exists s :: s in queues && queues[s] != [];
        if !anyAdded && |scheduled| < t.limit && anyLeft {
          ghost var spent := alloc;
          alloc := map s | s in t.weights :: 0;
          NextRound(t, pool, queues, spent, alloc, picks, rounds);
          rounds := rounds + 1;
          anyAdded := true;
        }
      }
      Finished(t, pool, queues, alloc, picks, rounds);
    }

    /** What is left of `discovery`, by source: the sources in order of appearance and their sorted queues. */
    static method GroupBySource(inp: Inputs, discovery: seq<Node>, scheduled: seq<Node>,
                                ghost refresh: seq<Node>, ghost deficit: seq<Node>)
      returns (queues: Queues, srcs: seq<string>)
      requires discovery == inp.Discovery() && scheduled == refresh + deficit && Disjoint(refresh, discovery)
      ensures queues == inp.Queues(deficit) && srcs == SourcesOf(inp.Remaining(deficit))
    {
      hide Grouped, Unpicked, SourcesOf, OfSource, Inputs.Discovery;
      queues, srcs := map[], [];
      NothingGrouped();
      NothingUnpicked(deficit);
      for k := 0 to |discovery|
        invariant Grouped(Unpicked(discovery[..k], deficit), queues, srcs)
      {
        var n := discovery[k];
        UnpickedStep(discovery, k, refresh, deficit);
        if n.fp !in Fps(scheduled) {
          if n.src in queues {
            GroupStep(Unpicked(discovery[..k], deficit), n, queues, srcs);
            queues := queues[n.src := queues[n.src] + [n]];
          } else {
            GroupStart(Unpicked(discovery[..k], deficit), n, queues, srcs);
            queues := queues[n.src := [n]];
            srcs := srcs + [n.src];
          }
        }
      }
      assert discovery[..|discovery|] == discovery;
      QueuesFromGroups(inp, deficit, queues, srcs);
      queues := map s | s in queues :: StableSort(queues[s], inp.LeastRecentFirst());
    }

    /** Make the decision on `inp` and record it. */
    method Select(inp: Inputs, record: bool) returns (scheduled: seq<Node>, ghost plan: Plan)
      requires inp.Valid() && inp.cands == candidates && inp.cursor == cursor
      modifies this`candidates, this`cursor
      ensures IsPlan(inp, plan) && scheduled == plan.All()
      ensures candidates == Recorded(inp.cands, scheduled, inp.now, record)
      ensures cursor == if record then inp.NextCursor(plan) else old(cursor)
    {
      hide *;
      var overdue, discovery := SplitOverdue(inp);
      StartFacts(inp);
      StampNothing(candidates, inp.now);
      scheduled := Fill(overdue, [], inp.RefreshCeiling(), inp.limit, inp.now, record, inp.cands);
      ghost var refresh := scheduled;
      RefreshFacts(inp, refresh);
      if |scheduled| >= inp.limit {
        plan := FullAfterRefresh(inp, refresh);
        return;
      }
      var counts := CountHealthy(inp);
      var lacking, deficits := FindDeficits(inp, counts);
      var order := StableSort(lacking, LargestFirst(deficits));
      var byCountry := GroupByCountry(discovery, deficits);
      DeficitTierFacts(inp, refresh);
      scheduled := PickDeficits(discovery, order, deficits, byCountry, scheduled, inp.DeficitCeiling(), inp.limit,
                                inp.now, record, inp.cands);
      ghost var deficit := Take(inp.Wanted(), inp.DeficitCeiling() - |refresh|);
      if |scheduled| >= inp.limit {
        plan := FullEarly(inp, refresh, deficit);
        return;
      }
      scheduled, plan := Discover(inp, overdue, discovery, order, byCountry, scheduled, record, refresh, deficit);
    }

    /** The exploration tier, and overdue nodes for what is left of the budget. */
    method Discover(inp: Inputs, overdue: seq<Node>, discovery: seq<Node>, order: seq<string>,
                    byCountry: map<string, seq<Node>>, scheduled: seq<Node>, record: bool,
                    ghost refresh: seq<Node>, ghost deficit: seq<Node>)
      returns (out: seq<Node>, ghost plan: Plan)
      requires inp.Valid() && overdue == inp.Overdue() && discovery == inp.Discovery() && cursor == inp.cursor
      requires scheduled == refresh + deficit && |scheduled| < inp.limit
      requires refresh == Take(inp.Overdue(), inp.RefreshCeiling())
      requires deficit == Take(inp.Wanted(), inp.DeficitCeiling() - |refresh|)
      requires forall cc :: cc in order ==> NodesOf(byCountry, cc) == Filter(discovery, InCountry(cc))
      requires candidates == Recorded(inp.cands, scheduled, inp.now, record)
      modifies this`candidates, this`cursor
      ensures IsPlan(inp, plan) && out == plan.All()
      ensures candidates == Recorded(inp.cands, out, inp.now, record)
      ensures cursor == if record then inp.NextCursor(plan) else old(cursor)
    {
      hide *;
      TakePrefix(inp.Wanted(), inp.DeficitCeiling() - |refresh|);
      TakePrefix(inp.Overdue(), inp.RefreshCeiling());
      StartFacts(inp);
      RefreshFacts(inp, refresh);
      OverdueApart(inp);
      var queues, srcs := GroupBySource(inp, discovery, scheduled, refresh, deficit);
      out := scheduled;
      ghost var picks, rounds := [], 0;
      if srcs == [] {
        NothingLeft(inp, deficit, inp.limit - |scheduled|);
        out := FillLeftovers(inp, discovery, order, byCountry, scheduled, record, refresh, deficit);
      } else {
        var tour := MakeTour(inp, queues, srcs, scheduled, deficit);
        TourReady(inp, refresh, deficit, tour);
        out, picks, rounds := Explore(tour, inp.now, record, inp.Remaining(deficit), inp.cands);
        if record {
          cursor := (cursor % |tour.rotated| + 1) % |tour.rotated|;
        }
      }
      plan := Plan(refresh, deficit, picks, Take(overdue[|refresh|..], inp.limit - |out|), rounds);
      PicksFromDiscovery(inp, refresh, deficit, picks, rounds);
      OverdueLeft(overdue, discovery, refresh, deficit, picks);
      AssemblePlan(inp, plan);
      CursorAfter(inp, plan);
      assert out == refresh + deficit + picks;
      out := Fill(overdue, out, inp.limit, inp.limit, inp.now, record, inp.cands);
    }

    /** With no exploration candidate left there are no deficit leftovers either. */
    method FillLeftovers(inp: Inputs, discovery: seq<Node>, order: seq<string>, byCountry: map<string, seq<Node>>,
                         scheduled: seq<Node>, record: bool, ghost refresh: seq<Node>, ghost deficit: seq<Node>)
      returns (out: seq<Node>)
      requires inp.Valid() && discovery == inp.Discovery()
      requires scheduled == refresh + deficit && inp.Remaining(deficit) == []
      requires forall cc :: cc in order ==> NodesOf(byCountry, cc) == Filter(discovery, InCountry(cc))
      requires candidates == Recorded(inp.cands, scheduled, inp.now, record)
      modifies this`candidates
      ensures out == scheduled && candidates == old(candidates)
    {
      out := scheduled;
      var k := 0;
      while k < |order| && |out| < inp.limit
        invariant 0 <= k <= |order| && out == scheduled && candidates == old(candidates)
      {
        LeftoversTaken(inp, refresh, deficit, order[k]);
        out := Fill(NodesOf(byCountry, order[k]), out, inp.limit, inp.limit, inp.now, record, inp.cands);
        k := k + 1;
      }
    }

    static method MakeTour(inp: Inputs, queues: Queues, srcs: seq<string>, scheduled: seq<Node>,
                           ghost deficit: seq<Node>)
      returns (tour: Tour)
      requires queues == inp.Queues(deficit) && srcs == SourcesOf(inp.Remaining(deficit)) && srcs != []
      ensures tour == Tour(inp.Queues(deficit), inp.Rotated(deficit), inp.Weights(deficit), scheduled, inp.limit)
      ensures tour.rotated != []
    {
      var sorted := StableSort(srcs, StrLe);
      var at := inp.cursor % |sorted|;
      var rotated := sorted[at..] + sorted[..at];
      var weights := map s | s in srcs :: inp.Weight(s);
      tour := Tour(queues, rotated, weights, scheduled, inp.limit);
    }

    /** Select at most `totalLimit` distinct nodes that are not backing off. `unique` and `plan` describe how. */
    method ScheduleCandidates(nodes: seq<Node>, totalLimit: int, now: real, targets: seq<(string, int)>,
                              opts: Options, record: bool)
      returns (scheduled: seq<Node>, ghost unique: seq<Node>, ghost plan: Plan)
      modifies this`candidates, this`cursor
      ensures totalLimit <= 0 || FirstFps(nodes) == [] ==>
        scheduled == [] && candidates == old(candidates) && cursor == old(cursor)
      ensures totalLimit > 0 && FirstFps(nodes) != [] ==>
        var inp := InputsOf(unique, old(candidates), sources, old(cursor), targets, totalLimit, now, opts, digest);
        && IsDedup(nodes, unique) && inp.Valid() && IsPlan(inp, plan) && scheduled == plan.All()
        && candidates == Recorded(inp.cands, scheduled, now, record)
        && cursor == if record then inp.NextCursor(plan) else old(cursor)
      ensures totalLimit > 0 && FirstFps(nodes) != [] ==>
        forall s ::
          Step(State(old(candidates), sources, old(cursor)), Scheduling(unique, scheduled, now, record, cursor),
               State(candidates, sources, cursor), s, jitter)
      ensures |scheduled| == Min(Max(0, totalLimit), |EligibleFps(nodes, old(candidates), now)|)
      ensures DistinctFps(scheduled)
      ensures forall n :: n in scheduled ==> n in nodes && n.fp in EligibleFps(nodes, old(candidates), now)
    {
      scheduled, unique, plan := [], [], Plan([], [], [], [], 0);
      NoFingerprints(nodes, old(candidates), now);
      if totalLimit <= 0 || nodes == [] {
        return;
      }
      var kept := Dedup(nodes);
      unique := kept;
      if kept == [] {
        return;
      }
      TouchNodes(kept, now);
      var eligible := SelectEligible(kept, now);
      var inp := Inputs(eligible, candidates, sources, cursor, targets, totalLimit, now, opts, digest);
      InputsAreValid(nodes, kept, old(candidates), inp);
      scheduled, plan := Select(inp, record);
      WorkConserving(inp, plan);
      CallIsStep(State(old(candidates), sources, old(cursor)), Scheduling(kept, scheduled, now, record, cursor),
                 State(candidates, sources, cursor), jitter);
    }

    // ---- Probe results ----

    /** Take the probe results of one cycle, then prune. */
    method UpdateState(checked: seq<Node>, now: real, s: Settings)
      modifies this`candidates, this`sources, this`updatedAt
      ensures Step(State(old(candidates), old(sources), cursor), Updating(checked, now),
                   State(candidates, sources, cursor), s, jitter)
      ensures updatedAt == now
    {
      for k := 0 to |checked|
        invariant candidates == CheckAll(old(candidates), checked[..k], now, s, jitter)
        invariant sources == CheckYields(old(sources), checked[..k], s.alpha)
      {
        assert checked[..k + 1] == checked[..k] + [checked[k]];
        CheckAppend(old(candidates), old(sources), checked[..k], checked[k], now, s, jitter);
        if checked[k].fp != "" {
          TakeResult(checked[k], now, s);
        }
      }
      assert checked[..|checked|] == checked;
      updatedAt := now;
      Prune(now, s.pruneTtl, MAX_CANDIDATES);
    }

    method TakeResult(n: Node, now: real, s: Settings)
      requires n.fp != ""
      modifies this`candidates, this`sources
      ensures candidates == CheckOne(old(candidates), n, now, s, jitter)
      ensures sources == CheckYield(old(sources), n, s.alpha)
    {
      hide ComputeCooldown;
      var c := if n.fp in candidates then candidates[n.fp] else Fresh(n, now);
      c := c.(lastCheckedAt := Some(now));
      if n.src != "" && c.src == "" {
        c := c.(src := n.src);
      }
      if n.cc != "" {
        c := c.(cc := n.cc);
      }
      var y := if n.src in sources then sources[n.src] else SourceYield(0.5, 0, 0);
      match n.proxyOk {
        case Working =>
          c := c.(proxyOk := Working, consecutiveFails := 0, cooldownUntil := 0.0, lastVerifiedAt := Some(now),
                  verifications := c.verifications + 1);
          y := SourceYield((1.0 - s.alpha) * y.ewma + s.alpha, y.checks + 1, y.successes + 1);
          sources := sources[n.src := y];
        case Broken =>
          var fails := c.consecutiveFails + 1;
          var cooldown := ComputeCooldown(fails, s.base, s.maxCooldown, JITTER, jitter(n.fp, fails));
          c := c.(proxyOk := Broken, consecutiveFails := fails, failures := c.failures + 1,
                  cooldownUntil := now + cooldown);
          y := SourceYield((1.0 - s.alpha) * y.ewma, y.checks + 1, y.successes);
          sources := sources[n.src := y];
        case Unknown =>
      }
      assert n.proxyOk.Unknown? || y == CheckSource(YieldOf(old(sources), n.src), n.proxyOk.Working?, s.alpha);
      candidates := candidates[n.fp := c];
    }

    /** Drop stale candidates, then the least valuable ones beyond `max`. */
    method Prune(now: real, ttl: real, max: nat)
      modifies this`candidates
      ensures Pruned(old(candidates), now, ttl, max, candidates)
    {
      hide DistinctNames, EvictBefore, NoBetter, Stale, StableSort, Pruned;
      candidates := map fp | fp in candidates && !Stale(candidates[fp], now, ttl) :: candidates[fp];
      assert candidates == NotStale(old(candidates), now, ttl);
      if |candidates| <= max {
        PruningFits(old(candidates), now, ttl, max);
      } else {
        var keys := KeysOf(candidates);
        var order := StableSort(keys, LeastValuableFirst(candidates));
        EvictionOrder(candidates, keys);
        var excess := |candidates| - max;
        EvictSize(candidates, order, excess);
        EvictedNoBetter(candidates, order, excess);
        EvictingPrunes(old(candidates), now, ttl, max, order[..excess]);
        candidates := map fp | fp in candidates && fp !in order[..excess] :: candidates[fp];
      }
    }

    /** The keys of `m` in some order. */
    static method KeysOf(m: Candidates) returns (keys: seq<string>)
      ensures DistinctNames(keys) && forall fp :: fp in keys <==> fp in m
      ensures |keys| == |m|
    {
      keys := [];
      var todo := m.Keys;
      while todo != {}
        invariant DistinctNames(keys) && |keys| + |todo| == |m.Keys|
        invariant forall fp :: fp in m <==> fp in keys || fp in todo
        invariant forall fp :: fp in keys ==> fp !in todo
        decreases todo
      {
        var fp :| fp in todo;
        keys, todo := keys + [fp], todo - {fp};
      }
    }
  }

  // ---- Pruning ----

  predicate EvictBefore(m: Candidates, a: string, b: string) { a in m && b in m && NoBetter(m[a], m[b]) }

  function LeastValuableFirst(m: Candidates): (string, string) -> bool {
    (a: string, b: string) => EvictBefore(m, a, b)
  }

  lemma EvictionOrder(m: Candidates, keys: seq<string>)
    requires DistinctNames(keys) && forall fp :: fp in keys <==> fp in m
    ensures var order := StableSort(keys, LeastValuableFirst(m));
      && DistinctNames(order)
      && (forall fp :: fp in order <==> fp in m)
      && (forall i, j :: 0 <= i < j < |order| ==> EvictBefore(m, order[i], order[j]))
  {
    var le := LeastValuableFirst(m);
    var order := StableSort(keys, le);
    SortMembers(keys, le);
    NamesDistinct(keys, order);
    EvictionIsOrder(m, keys);
    SortSorted(keys, le);
    forall i, j | 0 <= i < j < |order| ensures EvictBefore(m, order[i], order[j]) {
      assert le(order[i], order[j]);
    }
  }

  lemma EvictionIsOrder(m: Candidates, keys: seq<string>)
    requires forall fp :: fp in keys ==> fp in m
    ensures TotalPreorderOn(keys, LeastValuableFirst(m))
  {
  }

  lemma EvictedNoBetter(m: Candidates, order: seq<string>, excess: nat)
    requires excess <= |order| && DistinctNames(order) && forall fp :: fp in order <==> fp in m
    requires forall i, j :: 0 <= i < j < |order| ==> EvictBefore(m, order[i], order[j])
    ensures forall e, k :: e in m && e in order[..excess] && k in m && k !in order[..excess] ==> NoBetter(m[e], m[k])
  {
    forall e, k | e in m && e in order[..excess] && k in m && k !in order[..excess] ensures NoBetter(m[e], m[k]) {
      var i :| 0 <= i < excess && order[i] == e;
      var j :| 0 <= j < |order| && order[j] == k;
      assert EvictBefore(m, order[i], order[j]);
    }
  }

  /** Dropping the stale ones is enough when the rest fit. */
  lemma PruningFits(before: Candidates, now: real, ttl: real, max: nat)
    requires |NotStale(before, now, ttl)| <= max
    ensures Pruned(before, now, ttl, max, NotStale(before, now, ttl))
  {
  }

  lemma EvictingPrunes(before: Candidates, now: real, ttl: real, max: nat, gone: seq<string>)
    requires var kept := NotStale(before, now, ttl);
      && |kept| >= max && |map fp | fp in kept && fp !in gone :: kept[fp]| == max
      && (forall e, k :: e in kept && e in gone && k in kept && k !in gone ==> NoBetter(kept[e], kept[k]))
    ensures var kept := NotStale(before, now, ttl);
      Pruned(before, now, ttl, max, map fp | fp in kept && fp !in gone :: kept[fp])
  {
    hide NoBetter, NotStale;
  }

  lemma EvictSize(m: Candidates, order: seq<string>, excess: nat)
    requires DistinctNames(order) && (forall fp :: fp in order <==> fp in m) && excess <= |m|
    ensures |order| == |m|
    ensures |map fp | fp in m && fp !in order[..excess] :: m[fp]| == |m| - excess
  {
    NamesSize(order);
    assert (set fp | fp in order) == m.Keys;
    var gone := set fp | fp in order[..excess];
    NamesSize(order[..excess]);
    var kept := map fp | fp in m && fp !in order[..excess] :: m[fp];
    assert forall fp :: fp in order[..excess] ==> fp in order;
    assert kept.Keys == m.Keys - gone;
    assert |kept| == |kept.Keys|;
  }

  // ---- What touching and recording do to the state ----

  lemma TouchNone(cands: Candidates, now: real)
    ensures TouchAll(cands, [], now) == cands
  {
  }

  lemma TouchAppend(cands: Candidates, ns: seq<Node>, n: Node, now: real)
    ensures TouchAll(cands, ns + [n], now) == Touch(TouchAll(cands, ns, now), n, now)
  {
    assert (ns + [n])[..|ns|] == ns;
  }

  function Recorded(cands: Candidates, ns: seq<Node>, now: real, record: bool): Candidates {
    if record then Stamp(cands, ns, now) else cands
  }

  lemma StampNothing(cands: Candidates, now: real)
    ensures forall record :: Recorded(cands, [], now, record) == cands
  {
  }

  lemma RecordMore(start: Candidates, ns: seq<Node>, n: Node, now: real, record: bool)
    ensures Recorded(start, ns + [n], now, record)
         == if record then Stamp(Recorded(start, ns, now, record), [n], now) else Recorded(start, ns, now, record)
  {
  }

  // ---- Filling ----

  lemma NothingUnpicked(scheduled: seq<Node>)
    ensures Unpicked([], scheduled) == []
  {
  }

  lemma FillStep(list: seq<Node>, k: nat, scheduled: seq<Node>)
    requires DistinctFps(list) && k < |list|
    ensures Unpicked(list[..k + 1], scheduled)
         == if list[k].fp in Fps(scheduled) then Unpicked(list[..k], scheduled)
            else Unpicked(list[..k], scheduled) + [list[k]]
    ensures list[k].fp in Fps(scheduled + Unpicked(list[..k], scheduled)) <==> list[k].fp in Fps(scheduled)
  {
    FilterExtend(list, k, NotIn(scheduled));
    forall n | n in Unpicked(list[..k], scheduled) ensures n.fp != list[k].fp {
      assert n in list[..k];
    }
  }

  lemma FillEnd(list: seq<Node>, k: nat, scheduled: seq<Node>, cap: int, taken: seq<Node>)
    requires k <= |list| && taken == Unpicked(list[..k], scheduled)
    requires |taken| <= Max(0, cap)
    requires k == |list| || |taken| >= cap
    ensures taken == Take(Unpicked(list, scheduled), cap)
  {
    hide NotIn;
    assert list == list[..k] + list[k..];
    FilterConcat(list[..k], list[k..], NotIn(scheduled));
  }

  // ---- Deficits ----

  function NodesOf(m: map<string, seq<Node>>, k: string): seq<Node> { if k in m then m[k] else [] }

  lemma HealthyGrows(inp: Inputs, fps: set<string>, fp: string, cc: string)
    requires fp in inp.cands && fp !in fps
    ensures |inp.HealthyAmong(fps + {fp}, cc)| == |inp.HealthyAmong(fps, cc)| +
      if inp.cands[fp].Healthy(inp.now, inp.opts.verifyTtl) && inp.cands[fp].cc == cc then 1 else 0
  {
    if inp.cands[fp].Healthy(inp.now, inp.opts.verifyTtl) && inp.cands[fp].cc == cc {
      assert inp.HealthyAmong(fps + {fp}, cc) == inp.HealthyAmong(fps, cc) + {fp};
    } else {
      assert inp.HealthyAmong(fps + {fp}, cc) == inp.HealthyAmong(fps, cc);
    }
  }

  lemma NoTargets(inp: Inputs)
    ensures inp.LackingAmong([]) == [] && forall cc :: inp.DeficitAmong([], cc) == 0
  {
  }

  lemma NextTarget(inp: Inputs, ts: seq<(string, int)>, k: nat)
    requires k < |ts|
    ensures var (cc, target) := ts[k]; var deficit := target - inp.HealthyIn(cc);
      && (forall c :: inp.DeficitAmong(ts[..k + 1], c) ==
            if c == cc && deficit > 0 then deficit else inp.DeficitAmong(ts[..k], c))
      && inp.LackingAmong(ts[..k + 1]) ==
            if deficit <= 0 || cc in inp.LackingAmong(ts[..k]) then inp.LackingAmong(ts[..k])
            else inp.LackingAmong(ts[..k]) + [cc]
  {
    hide Inputs.HealthyIn;
    var upTo := ts[..k + 1];
    assert upTo[..|upTo| - 1] == ts[..k] && upTo[|upTo| - 1] == ts[k];
    var (cc, target) := ts[k];
    var deficit := target - inp.HealthyIn(cc);
    forall c
      ensures inp.DeficitAmong(upTo, c) == if c == cc && deficit > 0 then deficit else inp.DeficitAmong(ts[..k], c)
    {
    }
  }

  ghost predicate Disjoint(a: seq<Node>, b: seq<Node>) {
    forall m, n :: m in a && n in b ==> m.fp != n.fp
  }

  /** The selection after the first `k` countries were served. */
  ghost function ServedUpTo(discovery: seq<Node>, order: seq<string>, deficits: map<string, nat>,
                            refresh: seq<Node>, ceiling: int, k: nat): seq<Node>
    requires k <= |order|
  {
    refresh + Take(WantedUpTo(discovery, order, deficits, k), ceiling - |refresh|)
  }

  /** The next country's nodes are untouched so far, and taking from them extends the wanted prefix. */
  lemma ServeStep(discovery: seq<Node>, order: seq<string>, deficits: map<string, nat>,
                  refresh: seq<Node>, ceiling: int, k: nat)
    requires DistinctFps(discovery) && DistinctNames(order) && k < |order| && Disjoint(refresh, discovery)
    requires |ServedUpTo(discovery, order, deficits, refresh, ceiling, k)| < ceiling
    ensures var available := Filter(discovery, InCountry(order[k]));
      var scheduled := ServedUpTo(discovery, order, deficits, refresh, ceiling, k);
      var cap := Min(ceiling, |scheduled| + CountOf(deficits, order[k]));
      && DistinctFps(available)
      && scheduled + Take(Unpicked(available, scheduled), cap - |scheduled|)
           == ServedUpTo(discovery, order, deficits, refresh, ceiling, k + 1)
  {
    AvailableApart(discovery, order, deficits, refresh, ceiling, k);
    ServeMore(refresh, WantedUpTo(discovery, order, deficits, k), Filter(discovery, InCountry(order[k])),
              CountOf(deficits, order[k]), ceiling);
  }

  lemma AvailableApart(discovery: seq<Node>, order: seq<string>, deficits: map<string, nat>,
                       refresh: seq<Node>, ceiling: int, k: nat)
    requires DistinctFps(discovery) && DistinctNames(order) && k < |order| && Disjoint(refresh, discovery)
    ensures var available := Filter(discovery, InCountry(order[k]));
      && DistinctFps(available)
      && Unpicked(available, ServedUpTo(discovery, order, deficits, refresh, ceiling, k)) == available
  {
    var available := Filter(discovery, InCountry(order[k]));
    var wanted := WantedUpTo(discovery, order, deficits, k);
    var taken := Take(wanted, ceiling - |refresh|);
    DistinctFilter(discovery, InCountry(order[k]));
    TakePrefix(wanted, ceiling - |refresh|);
    forall n, m | n in available && m in refresh + taken ensures m.fp != n.fp {
      if m in taken {
        TakenApart(discovery, order, deficits, k, n, m);
      }
    }
    FilterAll(available, NotIn(refresh + taken));
  }

  lemma TakenApart(discovery: seq<Node>, order: seq<string>, deficits: map<string, nat>, k: nat, n: Node, m: Node)
    requires DistinctFps(discovery) && DistinctNames(order) && k < |order|
    requires n in Filter(discovery, InCountry(order[k])) && m in WantedUpTo(discovery, order, deficits, k)
    ensures m.fp != n.fp
  {
    WantedCount(discovery, order, deficits, k, m);
    assert m in multiset(WantedUpTo(discovery, order, deficits, k));
    SameNode(discovery, m, n);
  }

  lemma ServeMore(refresh: seq<Node>, wanted: seq<Node>, available: seq<Node>, need: nat, ceiling: int)
    requires |refresh| + |Take(wanted, ceiling - |refresh|)| < ceiling
    ensures var scheduled := refresh + Take(wanted, ceiling - |refresh|);
      scheduled + Take(available, Min(ceiling, |scheduled| + need) - |scheduled|)
        == refresh + Take(wanted + Take(available, need), ceiling - |refresh|)
  {
    var slack := ceiling - |refresh|;
    assert Take(wanted, slack) == wanted;
    TakeMore(wanted, available, slack, need);
    assert Min(ceiling, |refresh + wanted| + need) - |refresh + wanted| == Min(slack - |wanted|, need);
    Regroup(refresh, wanted, Take(available, Min(slack - |wanted|, need)));
  }

  lemma Regroup(a: seq<Node>, b: seq<Node>, c: seq<Node>)
    ensures (a + b) + c == a + (b + c)
  {
  }

  lemma NoneServed(discovery: seq<Node>, order: seq<string>, deficits: map<string, nat>, refresh: seq<Node>,
                   ceiling: int)
    ensures ServedUpTo(discovery, order, deficits, refresh, ceiling, 0) == refresh
  {
  }

  lemma ServeDone(discovery: seq<Node>, order: seq<string>, deficits: map<string, nat>,
                  refresh: seq<Node>, ceiling: int, k: nat)
    requires k <= |order|
    requires k == |order| || |ServedUpTo(discovery, order, deficits, refresh, ceiling, k)| >= ceiling
    ensures ServedUpTo(discovery, order, deficits, refresh, ceiling, k)
         == ServedUpTo(discovery, order, deficits, refresh, ceiling, |order|)
  {
    WantedExtends(discovery, order, deficits, k, |order|);
  }

  lemma SameNode(ns: seq<Node>, m: Node, n: Node)
    requires DistinctFps(ns) && m in ns && n in ns && m != n
    ensures m.fp != n.fp
  {
  }

  lemma DistinctFilter(ns: seq<Node>, f: Node -> bool)
    requires DistinctFps(ns)
    ensures DistinctFps(Filter(ns, f))
  {
    forall n ensures multiset(Filter(ns, f))[n] <= multiset(ns)[n] {
      FilterCount(ns, f, n);
    }
    DistinctSub(ns, Filter(ns, f));
  }

  // ---- Grouping by source ----

  ghost predicate Grouped(remaining: seq<Node>, queues: Queues, srcs: seq<string>) {
    && srcs == SourcesOf(remaining)
    && (forall s :: s in queues <==> s in srcs)
    && (forall s :: s in queues ==> queues[s] == OfSource(remaining, s))
  }

  lemma NothingGrouped()
    ensures Grouped([], map[], [])
  {
  }

  lemma UnpickedStep(discovery: seq<Node>, k: nat, refresh: seq<Node>, deficit: seq<Node>)
    requires k < |discovery| && Disjoint(refresh, discovery)
    ensures Unpicked(discovery[..k + 1], deficit)
         == if discovery[k].fp in Fps(refresh + deficit) then Unpicked(discovery[..k], deficit)
            else Unpicked(discovery[..k], deficit) + [discovery[k]]
  {
    FilterExtend(discovery, k, NotIn(deficit));
    assert discovery[k] in discovery;
  }

  lemma QueuesFromGroups(inp: Inputs, deficit: seq<Node>, groups: Queues, srcs: seq<string>)
    requires Grouped(Unpicked(inp.Discovery(), deficit), groups, srcs)
    ensures srcs == SourcesOf(inp.Remaining(deficit))
    ensures (map s | s in groups :: StableSort(groups[s], inp.LeastRecentFirst())) == inp.Queues(deficit)
  {
  }

  lemma OfSourceAppend(ns: seq<Node>, n: Node, src: string)
    ensures OfSource(ns + [n], src) == if src == n.src then OfSource(ns, src) + [n] else OfSource(ns, src)
  {
    FilterAppend(ns, n, FromSource(src));
  }

  lemma SourcesAppend(ns: seq<Node>, n: Node)
    ensures SourcesOf(ns + [n]) == if n.src in SourcesOf(ns) then SourcesOf(ns) else SourcesOf(ns) + [n.src]
  {
    assert (ns + [n])[..|ns|] == ns;
  }

  lemma GroupStep(remaining: seq<Node>, n: Node, queues: Queues, srcs: seq<string>)
    requires Grouped(remaining, queues, srcs) && n.src in queues
    ensures Grouped(remaining + [n], queues[n.src := queues[n.src] + [n]], srcs)
  {
    hide OfSource, SourcesOf;
    SourcesAppend(remaining, n);
    forall s | s in queues ensures queues[n.src := queues[n.src] + [n]][s] == OfSource(remaining + [n], s) {
      OfSourceAppend(remaining, n, s);
    }
  }

  lemma GroupStart(remaining: seq<Node>, n: Node, queues: Queues, srcs: seq<string>)
    requires Grouped(remaining, queues, srcs) && n.src !in queues
    ensures Grouped(remaining + [n], queues[n.src := [n]], srcs + [n.src])
  {
    hide OfSource, SourcesOf;
    NotYetSeen(remaining, n.src);
    SourcesAppend(remaining, n);
    forall s | s in queues || s == n.src ensures queues[n.src := [n]][s] == OfSource(remaining + [n], s) {
      OfSourceAppend(remaining, n, s);
    }
  }

  lemma NotYetSeen(ns: seq<Node>, src: string)
    requires src !in SourcesOf(ns)
    ensures OfSource(ns, src) == []
  {
    forall m | m in ns ensures m.src != src {
      assert m.src in SourcesOf(ns);
    }
    FilterNone(ns, FromSource(src));
  }

  // ---- Assembling the plan ----

  lemma OverdueDistinct(inp: Inputs)
    requires inp.Valid()
    ensures DistinctFps(inp.Overdue())
  {
    forall n ensures multiset(inp.Overdue())[n] <= multiset(inp.eligible)[n] {
      OverdueCount(inp, n);
    }
    DistinctSub(inp.eligible, inp.Overdue());
  }

  lemma OverdueApart(inp: Inputs)
    requires inp.Valid()
    ensures Disjoint(inp.Overdue(), inp.Discovery())
  {
    SortMembers(Filter(inp.eligible, inp.OverdueTest()), inp.OldestFirst());
    forall m, n | m in inp.Overdue() && n in inp.Discovery() ensures m.fp != n.fp {
      SameNode(inp.eligible, m, n);
    }
  }

  lemma StartFacts(inp: Inputs)
    requires inp.Valid()
    ensures inp.limit >= 1
    ensures DistinctFps(inp.Overdue()) && DistinctFps(inp.Discovery()) && Unpicked(inp.Overdue(), []) == inp.Overdue()
  {
    OverdueDistinct(inp);
    DiscoveryDistinct(inp);
    FilterAll(inp.Overdue(), NotIn([]));
  }

  lemma RefreshFacts(inp: Inputs, refresh: seq<Node>)
    requires inp.Valid() && refresh == Take(inp.Overdue(), inp.RefreshCeiling())
    ensures Disjoint(refresh, inp.Discovery()) && |refresh| <= inp.limit
  {
    TakePrefix(inp.Overdue(), inp.RefreshCeiling());
    OverdueApart(inp);
  }

  lemma EmptyExploration(queues: Queues, rotated: seq<string>, weights: Counts, budget: int)
    requires queues.Keys == weights.Keys && (budget <= 0 || queues == map[])
    ensures IsExploration(queues, rotated, weights, budget, [], 0)
  {
  }

  lemma AssemblePlan(inp: Inputs, p: Plan)
    requires inp.Valid()
    requires p.refresh == Take(inp.Overdue(), inp.RefreshCeiling())
    requires p.deficit == Take(inp.Wanted(), inp.DeficitCeiling() - |p.refresh|)
    requires IsExploration(inp.Queues(p.deficit), inp.Rotated(p.deficit), inp.Weights(p.deficit),
                           inp.limit - |p.refresh| - |p.deficit|, p.explore, p.rounds)
    requires p.backfill == Take(inp.Overdue()[|p.refresh|..], inp.limit - |p.refresh| - |p.deficit| - |p.explore|)
    ensures IsPlan(inp, p) && p.All() == p.refresh + p.deficit + p.explore + p.backfill
  {
    hide IsExploration, Take;
    hide Inputs.Overdue, Inputs.Wanted, Inputs.Queues, Inputs.Rotated, Inputs.Weights, Inputs.Valid;
    hide Inputs.RefreshCeiling, Inputs.DeficitCeiling;
  }

  lemma CursorAfter(inp: Inputs, p: Plan)
    ensures inp.NextCursor(p) ==
      if |p.refresh| + |p.deficit| < inp.limit && inp.Rotated(p.deficit) != []
      then (inp.cursor % |inp.Rotated(p.deficit)| + 1) % |inp.Rotated(p.deficit)| else inp.cursor
  {
    hide Inputs.Rotated;
  }

  lemma SameSources(inp: Inputs, deficit: seq<Node>)
    ensures inp.Queues(deficit).Keys == inp.Weights(deficit).Keys
  {
  }

  /** A call whose budget is spent before exploration. */
  lemma FullEarly(inp: Inputs, refresh: seq<Node>, deficit: seq<Node>) returns (plan: Plan)
    requires inp.Valid() && refresh == Take(inp.Overdue(), inp.RefreshCeiling())
    requires deficit == Take(inp.Wanted(), inp.DeficitCeiling() - |refresh|) && |refresh| + |deficit| >= inp.limit
    ensures IsPlan(inp, plan) && plan.All() == refresh + deficit && inp.NextCursor(plan) == inp.cursor
  {
    hide IsPlan, IsExploration, Inputs.Queues, Inputs.Rotated, Inputs.Wanted, Inputs.Overdue;
    plan := Plan(refresh, deficit, [], [], 0);
    SameSources(inp, deficit);
    EmptyExploration(inp.Queues(deficit), inp.Rotated(deficit), inp.Weights(deficit),
                     inp.limit - |refresh| - |deficit|);
    AssemblePlan(inp, plan);
    CursorAfter(inp, plan);
  }

  lemma FullAfterRefresh(inp: Inputs, refresh: seq<Node>) returns (plan: Plan)
    requires inp.Valid() && refresh == Take(inp.Overdue(), inp.RefreshCeiling()) && |refresh| >= inp.limit
    ensures IsPlan(inp, plan) && plan.All() == refresh && inp.NextCursor(plan) == inp.cursor
  {
    hide IsPlan, IsExploration, Inputs.Queues, Inputs.Rotated, Inputs.Wanted, Inputs.Overdue;
    assert Take(inp.Wanted(), inp.DeficitCeiling() - |refresh|) == [];
    plan := FullEarly(inp, refresh, []);
  }

  lemma DeficitTierFacts(inp: Inputs, refresh: seq<Node>)
    ensures StableSort(inp.LackingAmong(inp.targets), LargestFirst(inp.Deficits())) == inp.DeficitOrder()
    ensures DistinctNames(inp.DeficitOrder())
    ensures forall cc :: cc in inp.DeficitOrder() ==> cc in inp.Deficits()
    ensures inp.limit >= 1 ==>
      ServedUpTo(inp.Discovery(), inp.DeficitOrder(), inp.Deficits(), refresh, inp.DeficitCeiling(),
                 |inp.DeficitOrder()|)
      == refresh + Take(inp.Wanted(), inp.DeficitCeiling() - |refresh|)
  {
    DeficitOrderDistinct(inp);
    SortMembers(inp.LackingAmong(inp.targets), LargestFirst(inp.Deficits()));
  }

  lemma NothingLeft(inp: Inputs, deficit: seq<Node>, budget: int)
    requires SourcesOf(inp.Remaining(deficit)) == []
    ensures inp.Remaining(deficit) == [] && inp.Rotated(deficit) == []
    ensures IsExploration(inp.Queues(deficit), inp.Rotated(deficit), inp.Weights(deficit), budget, [], 0)
  {
    var remaining := inp.Remaining(deficit);
    assert forall n :: n in remaining ==> n.src in SourcesOf(remaining);
    assert forall n :: n !in remaining;
    EmptyExploration(inp.Queues(deficit), inp.Rotated(deficit), inp.Weights(deficit), budget);
  }

  lemma LeftoversTaken(inp: Inputs, refresh: seq<Node>, deficit: seq<Node>, cc: string)
    requires inp.Valid() && inp.Remaining(deficit) == []
    ensures var available := Filter(inp.Discovery(), InCountry(cc));
      DistinctFps(available) && Unpicked(available, refresh + deficit) == []
  {
    var available := Filter(inp.Discovery(), InCountry(cc));
    DiscoveryDistinct(inp);
    DistinctFilter(inp.Discovery(), InCountry(cc));
    forall n | n in available ensures !NotIn(refresh + deficit)(n) {
      assert n !in inp.Remaining(deficit);
      var m :| m in deficit && m.fp == n.fp;
      assert m in refresh + deficit;
    }
    FilterNone(available, NotIn(refresh + deficit));
  }

  lemma TourReady(inp: Inputs, refresh: seq<Node>, deficit: seq<Node>, t: Tour)
    requires inp.Valid() && Disjoint(refresh, inp.Discovery()) && |refresh + deficit| <= inp.limit
    requires t == Tour(inp.Queues(deficit), inp.Rotated(deficit), inp.Weights(deficit), refresh + deficit, inp.limit)
    ensures WellFormed(t, inp.Remaining(deficit))
  {
    DiscoveryDistinct(inp);
    DistinctFilter(inp.Discovery(), NotIn(deficit));
    RemainingApart(inp.Discovery(), refresh, deficit);
    forall s
      ensures s in t.queues ==> IsQueue(t.queues[s], s, inp.Remaining(deficit))
      ensures s in t.rotated <==> s in t.queues
    {
      if s in t.queues {
        QueueReady(inp, deficit, s);
      }
      RotatedMembers(inp, deficit, s);
    }
    RotatedDistinct(inp, deficit);
    TourIsReady(t, inp.Remaining(deficit));
  }

  lemma RemainingApart(discovery: seq<Node>, refresh: seq<Node>, deficit: seq<Node>)
    requires Disjoint(refresh, discovery)
    ensures forall n :: n in Unpicked(discovery, deficit) ==> n.fp !in Fps(refresh + deficit)
  {
  }

  lemma TourIsReady(t: Tour, pool: seq<Node>)
    requires DistinctFps(pool) && |t.base| <= t.limit && t.queues.Keys == t.weights.Keys
    requires forall n :: n in pool ==> n.fp !in Fps(t.base)
    requires forall s :: s in t.rotated <==> s in t.queues
    requires DistinctNames(t.rotated)
    requires forall s :: s in t.queues ==> t.weights[s] >= 1 && IsQueue(t.queues[s], s, pool)
    ensures WellFormed(t, pool)
  {
  }

  lemma QueueReady(inp: Inputs, deficit: seq<Node>, s: string)
    requires inp.Valid() && s in inp.Queues(deficit)
    ensures IsQueue(inp.Queues(deficit)[s], s, inp.Remaining(deficit))
  {
    var remaining := inp.Remaining(deficit);
    DiscoveryDistinct(inp);
    DistinctFilter(inp.Discovery(), NotIn(deficit));
    DistinctFilter(remaining, FromSource(s));
    DistinctSub(OfSource(remaining, s), inp.Queues(deficit)[s]);
    forall n {
      QueueMembers(inp, deficit, s, n);
    }
    var m :| m in remaining && m.src == s;
    assert m in inp.Queues(deficit)[s];
  }

  lemma RotatedDistinct(inp: Inputs, deficit: seq<Node>)
    ensures DistinctNames(inp.Rotated(deficit))
  {
    var raw := SourcesOf(inp.Remaining(deficit));
    var sorted := StableSort(raw, StrLe);
    if sorted != [] {
      RotationKeeps(sorted, inp.cursor % |sorted|);
      NamesDistinct(raw, inp.Rotated(deficit));
    }
  }

  lemma RotationKeeps(names: seq<string>, at: nat)
    requires at <= |names|
    ensures multiset(names[at..] + names[..at]) == multiset(names)
  {
    assert names == names[..at] + names[at..];
  }

  /** What backfilling can draw on: the overdue nodes after the refreshed ones. */
  lemma OverdueLeft(overdue: seq<Node>, discovery: seq<Node>, refresh: seq<Node>, deficit: seq<Node>, picks: seq<Node>)
    requires DistinctFps(overdue) && refresh <= overdue && Disjoint(overdue, discovery)
    requires forall n :: n in deficit || n in picks ==> n in discovery
    ensures Unpicked(overdue, refresh + deficit + picks) == overdue[|refresh|..]
  {
    var rest := overdue[|refresh|..];
    var all := refresh + deficit + picks;
    RestIsNew(overdue, discovery, refresh, deficit, picks);
    hide *;
    assert overdue == refresh + rest;
    FilterConcat(refresh, rest, NotIn(all));
    FilterNone(refresh, NotIn(all));
    FilterAll(rest, NotIn(all));
    UnpickedIs(overdue, all);
  }

  lemma UnpickedIs(ns: seq<Node>, picked: seq<Node>)
    ensures Unpicked(ns, picked) == Filter(ns, NotIn(picked))
  {
  }

  lemma RestIsNew(overdue: seq<Node>, discovery: seq<Node>, refresh: seq<Node>, deficit: seq<Node>, picks: seq<Node>)
    requires DistinctFps(overdue) && refresh <= overdue && Disjoint(overdue, discovery)
    requires forall n :: n in deficit || n in picks ==> n in discovery
    ensures forall n :: n in overdue[|refresh|..] ==> NotIn(refresh + deficit + picks)(n)
    ensures forall n :: n in refresh ==> !NotIn(refresh + deficit + picks)(n)
  {
    forall n, m | n in overdue[|refresh|..] && m in refresh + deficit + picks ensures m.fp != n.fp {
      assert n in overdue;
    }
    assert forall n :: n in refresh ==> n in refresh + deficit + picks;
  }

  lemma PicksFromDiscovery(inp: Inputs, refresh: seq<Node>, deficit: seq<Node>, picks: seq<Node>, rounds: nat)
    requires inp.Valid() && deficit <= inp.Wanted()
    requires IsExploration(inp.Queues(deficit), inp.Rotated(deficit), inp.Weights(deficit),
                           inp.limit - |refresh| - |deficit|, picks, rounds)
    ensures forall n :: n in deficit || n in picks ==> n in inp.Discovery()
  {
    hide IsExploration, Inputs.Queues, Inputs.Rotated, Inputs.Weights, Inputs.Wanted, Inputs.Discovery, Inputs.Valid;
    forall n | n in deficit || n in picks ensures n in inp.Discovery() {
      if n in deficit {
        DeficitMember(inp, deficit, n);
      } else {
        PickRemains(inp, deficit, inp.limit - |refresh| - |deficit|, picks, rounds, n);
        assert n in inp.Discovery();
      }
    }
  }

  lemma PickRemains(inp: Inputs, deficit: seq<Node>, budget: int, picks: seq<Node>, rounds: nat, n: Node)
    requires IsExploration(inp.Queues(deficit), inp.Rotated(deficit), inp.Weights(deficit), budget, picks, rounds)
    requires n in picks
    ensures n in inp.Remaining(deficit)
  {
    assert n in OfSource(picks, n.src);
    QueueMembers(inp, deficit, n.src, n);
  }

  // ---- The whole call ----

  /** What a call leaves behind is one step of the state machine. */
  lemma CallIsStep(st: State, e: Event, st': State, jitter: (string, nat) -> real)
    requires e.Scheduling? && st'.sources == st.sources && st'.cursor == if e.record then e.cursor else st.cursor
    requires st'.cands == Recorded(TouchAll(st.cands, e.unique, e.now), e.picked, e.now, e.record)
    ensures forall s :: Step(st, e, st', s, jitter)
  {
  }

  function CooldownOf(cands: Candidates, fp: string): real { if fp in cands then cands[fp].cooldownUntil else 0.0 }

  /** The fingerprints a call may select. */
  ghost function EligibleFps(nodes: seq<Node>, cands: Candidates, now: real): set<string> {
    set fp | fp in Fps(nodes) && fp != "" && CooldownOf(cands, fp) <= now
  }

  lemma NoFingerprints(nodes: seq<Node>, cands: Candidates, now: real)
    ensures FirstFps(nodes) == [] ==> EligibleFps(nodes, cands, now) == {}
  {
    forall fp | fp in EligibleFps(nodes, cands, now) ensures fp in FirstFps(nodes) {
    }
  }

  lemma {:induction false} TouchAllFacts(cands: Candidates, ns: seq<Node>, now: real, fp: string)
    ensures fp in TouchAll(cands, ns, now) <==> fp in cands || fp in Fps(ns)
    ensures CooldownOf(TouchAll(cands, ns, now), fp) == CooldownOf(cands, fp)
  {
    if ns != [] {
      var init := ns[..|ns| - 1];
      assert ns == init + [ns[|ns| - 1]];
      TouchAllFacts(cands, init, now, fp);
      TouchAllFacts(cands, init, now, ns[|ns| - 1].fp);
    }
  }

  lemma InputsAreValid(nodes: seq<Node>, kept: seq<Node>, cands: Candidates, inp: Inputs)
    requires IsDedup(nodes, kept) && inp.limit >= 1
    requires inp.cands == TouchAll(cands, kept, inp.now)
    requires inp.eligible == Filter(kept, EligibleTest(inp.cands, inp.now))
    ensures inp.Valid() && |inp.eligible| == |EligibleFps(nodes, cands, inp.now)|
    ensures forall n :: n in inp.eligible ==> n in nodes && n.fp in EligibleFps(nodes, cands, inp.now)
  {
    DistinctFilter(kept, EligibleTest(inp.cands, inp.now));
    DedupKeys(nodes, kept);
    forall fp ensures fp in Fps(inp.eligible) <==> fp in EligibleFps(nodes, cands, inp.now) {
      TouchAllFacts(cands, kept, inp.now, fp);
      if fp in EligibleFps(nodes, cands, inp.now) {
        var n :| n in kept && n.fp == fp;
        assert n in inp.eligible;
      }
    }
    assert Fps(inp.eligible) == EligibleFps(nodes, cands, inp.now);
    FpsCount(inp.eligible);
    forall n | n in inp.eligible ensures n in nodes {
      var k :| 0 <= k < |kept| && kept[k] == n;
      assert Represents(nodes, kept[k]);
    }
    forall fp | fp in Fps(inp.eligible) ensures fp in inp.cands {
      TouchAllFacts(cands, kept, inp.now, fp);
    }
  }

  lemma {:induction false} FpsCount(ns: seq<Node>)
    requires DistinctFps(ns)
    ensures |Fps(ns)| == |ns|
  {
    if ns != [] {
      var init, last := ns[..|ns| - 1], ns[|ns| - 1];
      assert ns == init + [last];
      FpsCount(init);
      assert Fps(ns) == Fps(init) + {last.fp};
      assert last.fp !in Fps(init);
    }
  }

  /** `index` gives each fingerprint's position in `unique`. */
  ghost predicate Indexed(unique: seq<Node>, index: map<string, nat>) {
    && (forall i :: 0 <= i < |unique| ==> unique[i].fp in index && index[unique[i].fp] == i)
    && (forall fp :: fp in index ==> index[fp] < |unique| && unique[index[fp]].fp == fp)
  }

  lemma IndexedPosition(unique: seq<Node>, index: map<string, nat>, fp: string)
    requires Indexed(unique, index)
    ensures fp in index <==> fp in Fps(unique)
    ensures fp in index ==> PositionOf(unique, fp) == index[fp]
  {
  }

  lemma EmptyDedup()
    ensures IsDedup([], [])
  {
  }

  /** What one more node makes of the copies kept so far. */
  ghost function Deduped(was: seq<Node>, node: Node): (now: seq<Node>)
    ensures |now| >= |was|
    ensures forall k :: 0 <= k < |was| ==> now[k].fp == was[k].fp
    ensures node.fp == "" || node.fp in Fps(was) ==> |now| == |was|
    ensures !(node.fp == "" || node.fp in Fps(was)) ==> now == was + [node]
  {
    if node.fp == "" then was
    else if node.fp !in Fps(was) then was + [node]
    else var i := PositionOf(was, node.fp); if node.cc != "" && was[i].cc == "" then was[i := node] else was
  }

  lemma DedupStep(seen: seq<Node>, node: Node, was: seq<Node>)
    requires IsDedup(seen, was)
    ensures IsDedup(seen + [node], Deduped(was, node))
  {
    hide Represents, FirstFps, Deduped, Fps;
    var now := Deduped(was, node);
    DedupKeys(seen, was);
    FirstFpsAppend(seen, node);
    forall k | 0 <= k < |was| ensures Represents(seen + [node], now[k]) {
      assert was[k].fp == FirstFps(seen)[k] && FirstFps(seen)[k] in FirstFps(seen);
      StillRepresented(seen, node, was, k);
    }
    if |now| > |was| {
      NewlyDistinct(was, node);
      FirstChosen(seen, node);
    } else {
      SameFpsDistinct(was, now);
    }
  }

  lemma NewlyDistinct(was: seq<Node>, node: Node)
    requires DistinctFps(was) && node.fp !in Fps(was)
    ensures DistinctFps(was + [node])
  {
    assert forall i :: 0 <= i < |was| ==> was[i] in was;
  }

  lemma SameFpsDistinct(was: seq<Node>, now: seq<Node>)
    requires DistinctFps(was) && |now| == |was| && forall k :: 0 <= k < |was| ==> now[k].fp == was[k].fp
    ensures DistinctFps(now)
  {
  }

  lemma FirstFpsAppend(seen: seq<Node>, node: Node)
    ensures FirstFps(seen + [node]) ==
      if node.fp == "" || node.fp in FirstFps(seen) then FirstFps(seen) else FirstFps(seen) + [node.fp]
  {
    assert (seen + [node])[..|seen|] == seen;
  }

  lemma StillRepresented(seen: seq<Node>, node: Node, was: seq<Node>, k: nat)
    requires DistinctFps(was) && k < |was| && Represents(seen, was[k]) && was[k].fp != ""
    ensures Represents(seen + [node], Deduped(was, node)[k])
  {
    hide Represents;
    assert was[k] in was;
    if was[k].fp == node.fp {
      assert k == PositionOf(was, node.fp);
      if node.cc != "" && was[k].cc == "" {
        NowChosen(seen, node, was[k]);
      } else {
        KeepsChosen(seen, node, was[k]);
      }
    } else {
      KeepsChosen(seen, node, was[k]);
    }
  }

  lemma DedupKeys(seen: seq<Node>, was: seq<Node>)
    requires IsDedup(seen, was)
    ensures forall fp :: fp in Fps(was) <==> fp != "" && fp in Fps(seen)
    ensures forall fp :: fp in Fps(was) <==> fp in FirstFps(seen)
  {
    forall fp ensures fp in Fps(was) <==> fp in FirstFps(seen) {
      if fp in FirstFps(seen) {
        var k :| 0 <= k < |FirstFps(seen)| && FirstFps(seen)[k] == fp;
        assert was[k] in was;
      }
    }
  }

  ghost function PositionOf(ns: seq<Node>, fp: string): (i: nat)
    requires fp in Fps(ns)
    ensures i < |ns| && ns[i].fp == fp
  {
    var n :| n in ns && n.fp == fp;
    var i :| 0 <= i < |ns| && ns[i] == n;
    i
  }

  lemma KeepsChosen(seen: seq<Node>, node: Node, u: Node)
    requires Represents(seen, u) && !(node.fp == u.fp && node.cc != "" && u.cc == "")
    ensures Represents(seen + [node], u)
  {
    var i :| 0 <= i < |seen| && IsChosen(seen, u, i);
    assert IsChosen(seen + [node], u, i);
  }

  lemma NowChosen(seen: seq<Node>, node: Node, u: Node)
    requires Represents(seen, u) && node.fp == u.fp && node.cc != "" && u.cc == ""
    ensures Represents(seen + [node], node)
  {
    assert IsChosen(seen + [node], node, |seen|);
  }

  lemma FirstChosen(seen: seq<Node>, node: Node)
    requires node.fp !in Fps(seen)
    ensures Represents(seen + [node], node)
  {
    assert IsChosen(seen + [node], node, |seen|);
  }
}
