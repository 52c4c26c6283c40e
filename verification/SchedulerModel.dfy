/** What one scheduling call decides, as functions of the state it reads.
    A node carries its canonical fingerprint, source and country ("" when unknown). */
module SchedulerModel {
  import opened Collections
  import opened Cooldown

  datatype Verdict = Unknown | Working | Broken

  datatype Node = Node(fp: string, src: string, cc: string, proxyOk: Verdict)

  datatype Candidate = Candidate(
    src: string,
    cc: string,
    consecutiveFails: nat,
    cooldownUntil: real,
    lastSeenAt: real,
    lastScheduledAt: real,
    lastCheckedAt: Option<real>,
    lastVerifiedAt: Option<real>,
    proxyOk: Verdict,
    verifications: nat,
    failures: nat)
  {
    predicate InCooldown(now: real) { cooldownUntil > now }

    function VerifiedAt(): real { if lastVerifiedAt.Some? then lastVerifiedAt.value else 0.0 }

    function Tier(): Tier { TierOf(proxyOk.Working?, verifications, failures + consecutiveFails) }

    /** Counts towards a country quota: verified within its own tier, still in the feeds, not backing off. */
    predicate Healthy(now: real, verifyTtl: real) {
      && proxyOk.Working?
      && now - VerifiedAt() < VerifyTtl(Tier(), verifyTtl)
      && now - lastSeenAt < verifyTtl
      && consecutiveFails == 0
      && !InCooldown(now)
    }
  }

  datatype SourceYield = SourceYield(ewma: real, checks: nat, successes: nat)

  type Candidates = map<string, Candidate>

  datatype Options = Options(verifyTtl: real, refreshRatio: real, maxDeficitRatio: real, maxRefreshRatio: real)

  // ---- Lists of nodes ----

  function Fps(ns: seq<Node>): set<string> { set n | n in ns :: n.fp }

  ghost predicate DistinctFps(ns: seq<Node>) {
    forall i, j :: 0 <= i < j < |ns| ==> ns[i].fp != ns[j].fp
  }

  function FromSource(src: string): Node -> bool { (n: Node) => n.src == src }

  function OfSource(ns: seq<Node>, src: string): seq<Node> { Filter(ns, FromSource(src)) }

  function InCountry(cc: string): Node -> bool { (n: Node) => n.cc != "" && n.cc == cc }

  function NotIn(picked: seq<Node>): Node -> bool { (n: Node) => n.fp !in Fps(picked) }

  function Unpicked(ns: seq<Node>, picked: seq<Node>): seq<Node> { Filter(ns, NotIn(picked)) }

  /** The sources of `ns` in order of first appearance. */
  function SourcesOf(ns: seq<Node>): (r: seq<string>)
    ensures forall s :: s in r <==> exists n :: n in ns && n.src == s
    ensures forall i, j :: 0 <= i < j < |r| ==> r[i] != r[j]
  {
    if ns == [] then []
    else
      var rest := SourcesOf(ns[..|ns| - 1]);
      var src := ns[|ns| - 1].src;
      assert ns == ns[..|ns| - 1] + [ns[|ns| - 1]];
      if src in rest then rest else rest + [src]
  }

  /** The non-empty fingerprints of `ns` in order of first appearance. */
  function FirstFps(ns: seq<Node>): (r: seq<string>)
    ensures forall fp :: fp in r <==> fp != "" && fp in Fps(ns)
  {
    if ns == [] then []
    else
      var rest := FirstFps(ns[..|ns| - 1]);
      var fp := ns[|ns| - 1].fp;
      assert ns == ns[..|ns| - 1] + [ns[|ns| - 1]];
      if fp == "" || fp in rest then rest else rest + [fp]
  }

  /** `u` is the first copy of its fingerprint that knows its country, or else the very first copy. */
  ghost predicate Represents(ns: seq<Node>, u: Node) {
    exists i :: 0 <= i < |ns| && IsChosen(ns, u, i)
  }

  ghost predicate IsChosen(ns: seq<Node>, u: Node, i: nat)
    requires i < |ns|
  {
    && ns[i] == u
    && (forall j :: 0 <= j < i && ns[j].fp == u.fp ==> ns[j].cc == "" && u.cc != "")
    && (u.cc == "" ==> forall j :: 0 <= j < |ns| && ns[j].fp == u.fp ==> ns[j].cc == "")
  }

  ghost predicate IsDedup(ns: seq<Node>, unique: seq<Node>) {
    && DistinctFps(unique)
    && |unique| == |FirstFps(ns)|
    && (forall k :: 0 <= k < |unique| ==> unique[k].fp == FirstFps(ns)[k] && Represents(ns, unique[k]))
  }

  function LargestFirst(amounts: map<string, nat>): (string, string) -> bool {
    (a: string, b: string) => CountOf(amounts, a) >= CountOf(amounts, b)
  }

  function CountOf(counts: map<string, nat>, k: string): nat { if k in counts then counts[k] else 0 }

  /** For each of the first `k` countries in turn, its first nodes up to its deficit. */
  function WantedUpTo(discovery: seq<Node>, order: seq<string>, deficits: map<string, nat>, k: nat): seq<Node>
    requires k <= |order|
  {
    if k == 0 then []
    else
      WantedUpTo(discovery, order, deficits, k - 1)
      + WantedFrom(discovery, order[k - 1], CountOf(deficits, order[k - 1]))
  }

  function WantedFrom(discovery: seq<Node>, cc: string, need: nat): seq<Node> {
    Take(Filter(discovery, InCountry(cc)), need)
  }

  predicate StrLe(a: string, b: string) {
    if a == "" then true
    else if b == "" then false
    else if a[0] != b[0] then a[0] < b[0]
    else StrLe(a[1..], b[1..])
  }

  /** Python's round(): ties go to the even neighbour. */
  function RoundHalfEven(x: real): int {
    var f := x.Floor;
    var d := x - f as real;
    if d < 0.5 then f else if d > 0.5 then f + 1 else if f % 2 == 0 then f else f + 1
  }

  // ---- The state writes of a scheduling call ----

  function Fresh(n: Node, now: real): Candidate {
    Candidate(n.src, n.cc, 0, 0.0, now, 0.0, None, None, Unknown, 0, 0)
  }

  function Touched(c: Candidate, n: Node, now: real): Candidate {
    c.(lastSeenAt := now,
       src := if n.src != "" && c.src == "" then n.src else c.src,
       cc := if n.cc != "" && c.cc == "" then n.cc else c.cc)
  }

  function Touch(cands: Candidates, n: Node, now: real): Candidates {
    cands[n.fp := Touched(if n.fp in cands then cands[n.fp] else Fresh(n, now), n, now)]
  }

  function TouchAll(cands: Candidates, ns: seq<Node>, now: real): Candidates {
    if ns == [] then cands else Touch(TouchAll(cands, ns[..|ns| - 1], now), ns[|ns| - 1], now)
  }

  function Stamp(cands: Candidates, ns: seq<Node>, now: real): Candidates {
    map fp | fp in cands :: if fp in Fps(ns) then cands[fp].(lastScheduledAt := now) else cands[fp]
  }

  /** When `fp` was last scheduled. */
  function ScheduledAt(cands: Candidates, fp: string): real {
    if fp in cands then cands[fp].lastScheduledAt else 0.0
  }

  // ---- One call ----

  /** Everything the selection reads: the eligible nodes in feed order and the state after they were touched. */
  datatype Inputs = Inputs(
    eligible: seq<Node>,
    cands: Candidates,
    sources: map<string, SourceYield>,
    cursor: nat,
    targets: seq<(string, int)>,
    limit: int,
    now: real,
    opts: Options,
    digest: string -> nat)
  {
    ghost predicate Valid() {
      && limit >= 1
      && DistinctFps(eligible)
      && Fps(eligible) <= cands.Keys
    }

    // Tier 1: overdue refresh

    function VerifiedAt(n: Node): real { if n.fp in cands then cands[n.fp].VerifiedAt() else 0.0 }

    predicate IsOverdue(n: Node) {
      n.fp in cands &&
      var c := cands[n.fp];
      c.proxyOk.Working? &&
      now - c.VerifiedAt() >= VerifyTtl(c.Tier(), opts.verifyTtl) * Clamp(0.0, 1.0, opts.refreshRatio)
    }

    function OverdueTest(): Node -> bool { (n: Node) => IsOverdue(n) }

    function FreshTest(): Node -> bool { (n: Node) => !IsOverdue(n) }

    function OldestFirst(): (Node, Node) -> bool { (a: Node, b: Node) => VerifiedAt(a) <= VerifiedAt(b) }

    function Overdue(): seq<Node> { StableSort(Filter(eligible, OverdueTest()), OldestFirst()) }

    /** Eligible nodes that are not due for a refresh: the deficit and exploration tiers draw from these. */
    function Discovery(): seq<Node> { Filter(eligible, FreshTest()) }

    function RefreshCeiling(): (r: int)
      requires limit >= 1
      ensures 1 <= r <= limit
    {
      if Discovery() != [] && limit >= 2
      then
        var ratio := Clamp(0.1, 1.0, opts.maxRefreshRatio);
        MulFloor(limit, ratio);
        Max(1, (limit as real * ratio).Floor)
      else limit
    }

    // Tier 2: country deficits

    ghost function HealthyIn(cc: string): nat {
      if cc == "" then 0 else |HealthyAmong(cands.Keys, cc)|
    }

    ghost function HealthyAmong(fps: set<string>, cc: string): set<string> {
      set fp | fp in fps && fp in cands && cands[fp].Healthy(now, opts.verifyTtl) && cands[fp].cc == cc
    }

    /** What country `cc` still lacks; 0 when it is no target or already met. */
    ghost function DeficitAmong(ts: seq<(string, int)>, cc: string): nat {
      if ts == [] then 0
      else
        var (tcc, target) := ts[|ts| - 1];
        if tcc == cc && target - HealthyIn(cc) > 0 then target - HealthyIn(cc)
        else DeficitAmong(ts[..|ts| - 1], cc)
    }

    ghost function LackingAmong(ts: seq<(string, int)>): (r: seq<string>)
      ensures forall cc :: cc in r <==> DeficitAmong(ts, cc) > 0
    {
      if ts == [] then []
      else
        var rest := LackingAmong(ts[..|ts| - 1]);
        var cc := ts[|ts| - 1].0;
        if cc in rest || ts[|ts| - 1].1 - HealthyIn(cc) <= 0 then rest else rest + [cc]
    }

    ghost function Deficits(): map<string, nat> {
      map cc | cc in LackingAmong(targets) :: DeficitAmong(targets, cc)
    }

    ghost function DeficitOrder(): seq<string> { StableSort(LackingAmong(targets), LargestFirst(Deficits())) }

    ghost function Wanted(): seq<Node> {
      WantedUpTo(Discovery(), DeficitOrder(), Deficits(), |DeficitOrder()|)
    }

    function DeficitCeiling(): (r: int)
      requires limit >= 1
      ensures 1 <= r <= limit
    {
      if limit >= 5 && Discovery() != [] then
        var minExploration := Max(1, (limit as real * (1.0 - Clamp(0.1, 1.0, opts.maxDeficitRatio))).Floor);
        Max(1, limit - minExploration)
      else limit
    }

    // Tier 3: exploration

    /** Least recently scheduled first; ties by the fingerprint's digest. */
    predicate Precedes(a: string, b: string) {
      ScheduledAt(cands, a) < ScheduledAt(cands, b)
      || (ScheduledAt(cands, a) == ScheduledAt(cands, b) && digest(a) <= digest(b))
    }

    function LeastRecentFirst(): (Node, Node) -> bool { (a: Node, b: Node) => Precedes(a.fp, b.fp) }

    function Remaining(deficit: seq<Node>): seq<Node> { Unpicked(Discovery(), deficit) }

    function Queues(deficit: seq<Node>): map<string, seq<Node>> {
      map src | src in SourcesOf(Remaining(deficit)) ::
        StableSort(OfSource(Remaining(deficit), src), LeastRecentFirst())
    }

    function Rotated(deficit: seq<Node>): seq<string> {
      var srcs := StableSort(SourcesOf(Remaining(deficit)), StrLe);
      if srcs == [] then [] else var c := cursor % |srcs|; srcs[c..] + srcs[..c]
    }

    function Weight(src: string): (w: nat)
      ensures 1 <= w <= 4
    {
      var ewma := if src in sources then sources[src].ewma else 0.5;
      Max(1, Min(4, RoundHalfEven(ewma * 3.0) + 1))
    }

    /** The cursor moves on only when the exploration tier was reached. */
    function NextCursor(p: Plan): nat {
      var n := |Rotated(p.deficit)|;
      if |p.refresh| + |p.deficit| < limit && n > 0 then (cursor % n + 1) % n else cursor
    }

    function Weights(deficit: seq<Node>): map<string, nat> {
      map src | src in SourcesOf(Remaining(deficit)) :: Weight(src)
    }
  }

  function EligibleTest(cands: Candidates, now: real): Node -> bool {
    (n: Node) => !(n.fp in cands && cands[n.fp].InCooldown(now))
  }

  /** The inputs of a call on deduplicated nodes: the nodes are touched first, then filtered by cooldown. */
  function InputsOf(unique: seq<Node>, cands: Candidates, sources: map<string, SourceYield>, cursor: nat,
                    targets: seq<(string, int)>, limit: int, now: real, opts: Options, digest: string -> nat): Inputs
  {
    var touched := TouchAll(cands, unique, now);
    Inputs(Filter(unique, EligibleTest(touched, now)), touched, sources, cursor, targets, limit, now, opts, digest)
  }

  lemma MulFloor(limit: int, ratio: real)
    requires limit >= 1 && ratio <= 1.0
    ensures (limit as real * ratio).Floor <= limit
  {
    MulMonotone(limit as real, ratio, 1.0);
  }

  /** The four parts of a selection, in the order they are returned, and the number of completed
      exploration rounds. */
  datatype Plan = Plan(refresh: seq<Node>, deficit: seq<Node>, explore: seq<Node>, backfill: seq<Node>, rounds: nat)
  {
    function All(): seq<Node> { refresh + deficit + explore + backfill }
  }

  /** What the weighted round robin over `rotated` guarantees about its picks. */
  ghost predicate IsExploration(queues: map<string, seq<Node>>, rotated: seq<string>, weights: map<string, nat>,
                                budget: int, picks: seq<Node>, rounds: nat)
  {
    && queues.Keys == weights.Keys
    && |picks| <= Max(0, budget)
    && (forall n :: n in picks ==> n.src in queues)
    // each source is served from the front of its queue
    && (forall s :: s in queues ==> OfSource(picks, s) <= queues[s])
    // the budget is used up or nothing is left
    && (|picks| < budget ==> forall s :: s in queues ==> OfSource(picks, s) == queues[s])
    // `rounds` full rounds, each serving a source that still has candidates exactly its weight
    && (forall s :: s in queues ==> Served(|OfSource(picks, s)|, |queues[s]|, weights[s], rounds))
    // the very first picks walk the sources from the cursor
    && (forall i :: 0 <= i < |rotated| && i < |picks| ==>
          rotated[i] in queues && queues[rotated[i]] != [] && picks[i] == queues[rotated[i]][0])
  }

  predicate Served(count: nat, available: nat, weight: nat, rounds: nat) {
    count <= (rounds + 1) * weight && (count < available ==> rounds * weight <= count)
  }

  ghost predicate Explores(inp: Inputs, p: Plan) {
    IsExploration(inp.Queues(p.deficit), inp.Rotated(p.deficit), inp.Weights(p.deficit),
                  inp.limit - |p.refresh| - |p.deficit|, p.explore, p.rounds)
  }

  /** The decision the scheduler makes on `inp`. */
  ghost predicate IsPlan(inp: Inputs, p: Plan)
    requires inp.Valid()
  {
    && p.refresh == Take(inp.Overdue(), inp.RefreshCeiling())
    && p.deficit == Take(inp.Wanted(), inp.DeficitCeiling() - |p.refresh|)
    && Explores(inp, p)
    && p.backfill == Take(inp.Overdue()[|p.refresh|..], inp.limit - |p.refresh| - |p.deficit| - |p.explore|)
  }
}
