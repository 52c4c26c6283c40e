/** How probe results change the scheduler's state, and what every run of scheduling and updating keeps. */
module SchedulerState {
  import opened Collections
  import opened Cooldown
  import opened SchedulerModel

  const JITTER := 0.2
  const MAX_CANDIDATES := 50000

  datatype Settings = Settings(alpha: real, base: real, maxCooldown: real, pruneTtl: real)

  type Sources = map<string, SourceYield>

  /** `jitter` gives the digest fraction of a fingerprint and a failure count. */
  function CheckCandidate(c: Candidate, n: Node, now: real, s: Settings, jitter: (string, nat) -> real): Candidate {
    var seen := c.(lastCheckedAt := Some(now),
                   src := if n.src != "" && c.src == "" then n.src else c.src,
                   cc := if n.cc != "" then n.cc else c.cc);
    match n.proxyOk
    case Working =>
      seen.(proxyOk := Working, consecutiveFails := 0, cooldownUntil := 0.0, lastVerifiedAt := Some(now),
            verifications := c.verifications + 1)
    case Broken =>
      var fails := c.consecutiveFails + 1;
      seen.(proxyOk := Broken, consecutiveFails := fails, failures := c.failures + 1,
            cooldownUntil := now + ComputeCooldown(fails, s.base, s.maxCooldown, JITTER, jitter(n.fp, fails)))
    case Unknown => seen
  }

  function CheckSource(y: SourceYield, working: bool, alpha: real): SourceYield {
    SourceYield((1.0 - alpha) * y.ewma + (if working then alpha else 0.0), y.checks + 1,
                y.successes + if working then 1 else 0)
  }

  function CheckOne(cands: Candidates, n: Node, now: real, s: Settings, jitter: (string, nat) -> real): Candidates {
    if n.fp == "" then cands
    else cands[n.fp := CheckCandidate(if n.fp in cands then cands[n.fp] else Fresh(n, now), n, now, s, jitter)]
  }

  function YieldOf(sources: Sources, src: string): SourceYield {
    if src in sources then sources[src] else SourceYield(0.5, 0, 0)
  }

  function CheckYield(sources: Sources, n: Node, alpha: real): Sources {
    if n.fp == "" || n.proxyOk.Unknown? then sources
    else sources[n.src := CheckSource(YieldOf(sources, n.src), n.proxyOk.Working?, alpha)]
  }

  function CheckAll(cands: Candidates, ns: seq<Node>, now: real, s: Settings,
                    jitter: (string, nat) -> real): Candidates
  {
    if ns == [] then cands
    else CheckOne(CheckAll(cands, ns[..|ns| - 1], now, s, jitter), ns[|ns| - 1], now, s, jitter)
  }

  function CheckYields(sources: Sources, ns: seq<Node>, alpha: real): Sources {
    if ns == [] then sources else CheckYield(CheckYields(sources, ns[..|ns| - 1], alpha), ns[|ns| - 1], alpha)
  }

  lemma CheckAppend(cands: Candidates, sources: Sources, ns: seq<Node>, n: Node, now: real, s: Settings,
                    jitter: (string, nat) -> real)
    ensures CheckAll(cands, ns + [n], now, s, jitter)
         == CheckOne(CheckAll(cands, ns, now, s, jitter), n, now, s, jitter)
    ensures CheckYields(sources, ns + [n], s.alpha) == CheckYield(CheckYields(sources, ns, s.alpha), n, s.alpha)
  {
    assert (ns + [n])[..|ns|] == ns;
  }

  // ---- Pruning ----

  predicate Stale(c: Candidate, now: real, ttl: real) { !c.proxyOk.Working? && now - c.lastSeenAt > ttl }

  function NotStale(cands: Candidates, now: real, ttl: real): Candidates {
    map fp | fp in cands && !Stale(cands[fp], now, ttl) :: cands[fp]
  }

  /** `a` is at most as worth keeping as `b`: unverified before verified, then the longest unseen first. */
  predicate NoBetter(a: Candidate, b: Candidate) {
    if a.proxyOk.Working? != b.proxyOk.Working? then b.proxyOk.Working? else a.lastSeenAt <= b.lastSeenAt
  }

  /** Stale unverified candidates go; beyond `max` the least valuable go. Which of equals goes is left open. */
  ghost predicate Pruned(before: Candidates, now: real, ttl: real, max: nat, after: Candidates) {
    var kept := NotStale(before, now, ttl);
    && after.Keys <= kept.Keys
    && (forall fp :: fp in after ==> after[fp] == kept[fp])
    && |after| == Min(|kept|, max)
    && (forall e, k :: e in kept && e !in after && k in after ==> NoBetter(kept[e], kept[k]))
  }

  // ---- Runs ----

  datatype State = State(cands: Candidates, sources: Sources, cursor: nat)

  /** One call on the state: scheduling touches `unique` and records `picked` and the cursor, updating takes probe
      results. */
  datatype Event =
    | Scheduling(unique: seq<Node>, picked: seq<Node>, now: real, record: bool, cursor: nat)
    | Updating(checked: seq<Node>, now: real)

  ghost predicate Step(st: State, e: Event, st': State, s: Settings, jitter: (string, nat) -> real) {
    match e
    case Scheduling(unique, picked, now, record, cursor) =>
      && st'.sources == st.sources
      && st'.cands == (var touched := TouchAll(st.cands, unique, now);
                       if record then Stamp(touched, picked, now) else touched)
      && st'.cursor == (if record then cursor else st.cursor)
    case Updating(checked, now) =>
      && st'.sources == CheckYields(st.sources, checked, s.alpha)
      && st'.cursor == st.cursor
      && Pruned(CheckAll(st.cands, checked, now, s, jitter), now, s.pruneTtl, MAX_CANDIDATES, st'.cands)
  }

  ghost predicate Run(states: seq<State>, events: seq<Event>, s: Settings, jitter: (string, nat) -> real) {
    && |states| == |events| + 1
    && states[0] == State(map[], map[], 0)
    && forall k :: 0 <= k < |events| ==> Step(states[k], events[k], states[k + 1], s, jitter)
  }

  // ---- Invariants ----

  /** `broken` is when the candidate last failed a probe. */
  predicate CandidateSound(c: Candidate, s: Settings, broken: Option<real>) {
    && (!c.proxyOk.Broken? ==> c.consecutiveFails == 0 && c.cooldownUntil == 0.0)
    && c.consecutiveFails <= c.failures
    && (c.proxyOk.Broken? ==>
          broken.Some? && c.consecutiveFails >= 1
          && broken.value <= c.cooldownUntil <= broken.value + MaxReal(0.0, s.maxCooldown))
    && (c.proxyOk.Working? ==> c.verifications >= 1 && c.lastVerifiedAt.Some?)
  }

  predicate YieldSound(y: SourceYield) { 0.0 <= y.ewma <= 1.0 && y.successes <= y.checks }

  function ConclusiveIn(ns: seq<Node>, src: string): nat {
    if ns == [] then 0
    else
      var n := ns[|ns| - 1];
      ConclusiveIn(ns[..|ns| - 1], src) + if n.fp != "" && n.src == src && !n.proxyOk.Unknown? then 1 else 0
  }

  /** The conclusive probes of `src` ever processed. */
  function Conclusive(events: seq<Event>, src: string): nat {
    if events == [] then 0
    else
      var e := events[|events| - 1];
      Conclusive(events[..|events| - 1], src) + if e.Updating? then ConclusiveIn(e.checked, src) else 0
  }

  predicate FailedIn(ns: seq<Node>, fp: string) { fp != "" && exists n :: n in ns && n.fp == fp && n.proxyOk.Broken? }

  /** When `fp` last failed a probe. */
  function LastBroken(events: seq<Event>, fp: string): Option<real> {
    if events == [] then None
    else
      var e := events[|events| - 1];
      if e.Updating? && FailedIn(e.checked, fp) then Some(e.now) else LastBroken(events[..|events| - 1], fp)
  }

  ghost predicate Sound(st: State, events: seq<Event>, s: Settings) {
    && (forall fp :: fp in st.cands ==> CandidateSound(st.cands[fp], s, LastBroken(events, fp)))
    && (forall src :: src in st.sources ==> YieldSound(st.sources[src]))
    && (forall src :: YieldOf(st.sources, src).checks == Conclusive(events, src))
  }

  lemma NonNegative(a: real, b: real)
    requires a >= 0.0 && b >= 0.0
    ensures a * b >= 0.0
  {
  }

  lemma Average(alpha: real, x: real, y: real)
    requires 0.0 <= alpha <= 1.0 && 0.0 <= x <= 1.0 && 0.0 <= y <= alpha
    ensures 0.0 <= (1.0 - alpha) * x + y <= 1.0
  {
    var rest := 1.0 - alpha;
    NonNegative(rest, x);
    NonNegative(rest, 1.0 - x);
    assert rest * (1.0 - x) == rest - rest * x;
  }

  lemma CheckedYieldSound(y: SourceYield, working: bool, alpha: real)
    requires 0.0 <= alpha <= 1.0 && YieldSound(y)
    ensures YieldSound(CheckSource(y, working, alpha))
  {
    Average(alpha, y.ewma, if working then alpha else 0.0);
  }

  lemma {:induction false} YieldsSound(sources: Sources, ns: seq<Node>, alpha: real)
    requires 0.0 <= alpha <= 1.0 && forall src :: src in sources ==> YieldSound(sources[src])
    ensures var after := CheckYields(sources, ns, alpha);
      && (forall src :: src in after ==> YieldSound(after[src]))
      && (forall src :: YieldOf(after, src).checks == YieldOf(sources, src).checks + ConclusiveIn(ns, src))
  {
    if ns != [] {
      var init, n := ns[..|ns| - 1], ns[|ns| - 1];
      YieldsSound(sources, init, alpha);
      CheckedYieldSound(YieldOf(CheckYields(sources, init, alpha), n.src), n.proxyOk.Working?, alpha);
      hide YieldSound;
    }
  }

  lemma CheckedSound(c: Candidate, n: Node, now: real, s: Settings, jitter: (string, nat) -> real, broken: Option<real>)
    requires CandidateSound(c, s, broken)
    ensures CandidateSound(CheckCandidate(c, n, now, s, jitter), s, if n.proxyOk.Broken? then Some(now) else broken)
  {
    hide ComputeCooldown;
  }

  lemma FreshSound(n: Node, now: real, s: Settings, broken: Option<real>)
    ensures CandidateSound(Fresh(n, now), s, broken)
  {
  }

  lemma CheckOneSound(cands: Candidates, n: Node, now: real, s: Settings, jitter: (string, nat) -> real, fp: string,
                      broken: Option<real>)
    requires fp in cands ==> CandidateSound(cands[fp], s, broken)
    ensures var after := CheckOne(cands, n, now, s, jitter);
      fp in after ==>
        CandidateSound(after[fp], s, if n.fp != "" && n.fp == fp && n.proxyOk.Broken? then Some(now) else broken)
  {
    hide CandidateSound, CheckCandidate, Fresh;
    if n.fp != "" && n.fp == fp {
      FreshSound(n, now, s, broken);
      CheckedSound(if fp in cands then cands[fp] else Fresh(n, now), n, now, s, jitter, broken);
    }
  }

  lemma FailedInLast(ns: seq<Node>, fp: string)
    requires ns != []
    ensures var n := ns[|ns| - 1];
      FailedIn(ns, fp) <==> FailedIn(ns[..|ns| - 1], fp) || (n.fp != "" && n.fp == fp && n.proxyOk.Broken?)
  {
    assert ns == ns[..|ns| - 1] + [ns[|ns| - 1]];
  }

  /** Probing `ns` at `now` keeps every candidate sound, its last failure moving to `now` if it failed. */
  lemma {:induction false} ChecksSound(cands: Candidates, ns: seq<Node>, now: real, s: Settings,
                                       jitter: (string, nat) -> real, fp: string, broken: Option<real>)
    requires fp in cands ==> CandidateSound(cands[fp], s, broken)
    ensures var after := CheckAll(cands, ns, now, s, jitter);
      fp in after ==> CandidateSound(after[fp], s, if FailedIn(ns, fp) then Some(now) else broken)
  {
    hide CandidateSound, CheckOne, FailedIn;
    if ns == [] {
      NothingFailed(fp);
    } else {
      var init, n := ns[..|ns| - 1], ns[|ns| - 1];
      ChecksSound(cands, init, now, s, jitter, fp, broken);
      FailedInLast(ns, fp);
      CheckOneSound(CheckAll(cands, init, now, s, jitter), n, now, s, jitter, fp,
                    if FailedIn(init, fp) then Some(now) else broken);
    }
  }

  lemma NothingFailed(fp: string)
    ensures !FailedIn([], fp)
  {
  }

  lemma {:induction false} TouchSound(cands: Candidates, ns: seq<Node>, now: real, s: Settings, fp: string,
                                      broken: Option<real>)
    requires fp in cands ==> CandidateSound(cands[fp], s, broken)
    ensures fp in TouchAll(cands, ns, now) ==> CandidateSound(TouchAll(cands, ns, now)[fp], s, broken)
  {
    if ns != [] {
      TouchSound(cands, ns[..|ns| - 1], now, s, fp, broken);
    }
  }

  lemma StepKeepsCandidates(st: State, e: Event, st': State, s: Settings, jitter: (string, nat) -> real,
                            fp: string, broken: Option<real>)
    requires Step(st, e, st', s, jitter) && (fp in st.cands ==> CandidateSound(st.cands[fp], s, broken))
    ensures fp in st'.cands ==>
      CandidateSound(st'.cands[fp], s, if e.Updating? && FailedIn(e.checked, fp) then Some(e.now) else broken)
  {
    match e
    case Scheduling(unique, picked, now, record, cursor) => TouchSound(st.cands, unique, now, s, fp, broken);
    case Updating(checked, now) => ChecksSound(st.cands, checked, now, s, jitter, fp, broken);
  }

  lemma LastBrokenAppend(events: seq<Event>, e: Event, fp: string)
    ensures LastBroken(events + [e], fp) ==
      if e.Updating? && FailedIn(e.checked, fp) then Some(e.now) else LastBroken(events, fp)
  {
    assert (events + [e])[..|events|] == events;
  }

  lemma ConclusiveAppend(events: seq<Event>, e: Event, src: string)
    ensures Conclusive(events + [e], src)
         == Conclusive(events, src) + if e.Updating? then ConclusiveIn(e.checked, src) else 0
  {
    assert (events + [e])[..|events|] == events;
  }

  lemma StepKeepsYields(st: State, e: Event, st': State, events: seq<Event>, s: Settings, jitter: (string, nat) -> real)
    requires Step(st, e, st', s, jitter) && Sound(st, events, s) && 0.0 <= s.alpha <= 1.0
    ensures forall src :: src in st'.sources ==> YieldSound(st'.sources[src])
    ensures forall src :: YieldOf(st'.sources, src).checks == Conclusive(events + [e], src)
  {
    hide YieldSound, CandidateSound, Conclusive, ConclusiveIn, CheckYields, CheckAll, TouchAll, Stamp, Pruned;
    hide LastBroken;
    if e.Updating? {
      YieldsSound(st.sources, e.checked, s.alpha);
      assert st'.sources == CheckYields(st.sources, e.checked, s.alpha);
    } else {
      assert st'.sources == st.sources;
    }
    forall src | src in st'.sources ensures YieldSound(st'.sources[src]) {
    }
    forall src ensures YieldOf(st'.sources, src).checks == Conclusive(events + [e], src) {
      ConclusiveAppend(events, e, src);
    }
  }

  lemma StepKeepsSound(st: State, e: Event, st': State, events: seq<Event>, s: Settings, jitter: (string, nat) -> real)
    requires Step(st, e, st', s, jitter) && Sound(st, events, s) && 0.0 <= s.alpha <= 1.0
    ensures Sound(st', events + [e], s)
  {
    hide Step, YieldSound, CandidateSound, YieldOf, Conclusive, LastBroken;
    forall fp | fp in st'.cands ensures CandidateSound(st'.cands[fp], s, LastBroken(events + [e], fp)) {
      LastBrokenAppend(events, e, fp);
      StepKeepsCandidates(st, e, st', s, jitter, fp, LastBroken(events, fp));
    }
    StepKeepsYields(st, e, st', events, s, jitter);
  }

  lemma NewStateIsSound(s: Settings)
    ensures Sound(State(map[], map[], 0), [], s)
  {
  }

  /** Every run keeps the state sound: failure counters, cooldowns, yields in [0, 1], and one counted check
      per conclusive probe. */
  lemma {:induction false} RunIsSound(states: seq<State>, events: seq<Event>, s: Settings,
                                      jitter: (string, nat) -> real, k: nat)
    requires Run(states, events, s, jitter) && 0.0 <= s.alpha <= 1.0 && k <= |events|
    ensures Sound(states[k], events[..k], s)
  {
    hide Sound, Step;
    if k == 0 {
      NewStateIsSound(s);
      assert events[..0] == [];
    } else {
      RunIsSound(states, events, s, jitter, k - 1);
      assert events[..k] == events[..k - 1] + [events[k - 1]];
      assert Step(states[k - 1], events[k - 1], states[k - 1 + 1], s, jitter);
      StepKeepsSound(states[k - 1], events[k - 1], states[k], events[..k - 1], s, jitter);
    }
  }

  /** A backoff ends: `maxCooldown` after its last failure a candidate is eligible again. */
  lemma BackoffEnds(states: seq<State>, events: seq<Event>, s: Settings, jitter: (string, nat) -> real, fp: string,
                    t: real)
    requires Run(states, events, s, jitter) && 0.0 <= s.alpha <= 1.0
    requires fp in states[|events|].cands && t >= 0.0
    requires LastBroken(events, fp).Some? ==> t >= LastBroken(events, fp).value + MaxReal(0.0, s.maxCooldown)
    ensures !states[|events|].cands[fp].InCooldown(t)
  {
    RunIsSound(states, events, s, jitter, |events|);
    assert events[..|events|] == events;
  }

  // ---- Evidence only accumulates ----

  predicate MoreEvidence(a: Candidate, b: Candidate) { a.failures <= b.failures && a.verifications <= b.verifications }

  lemma {:induction false} ChecksAddEvidence(cands: Candidates, ns: seq<Node>, now: real, s: Settings,
                                             jitter: (string, nat) -> real, fp: string)
    requires fp in cands
    ensures var after := CheckAll(cands, ns, now, s, jitter);
      fp in after && MoreEvidence(cands[fp], after[fp])
  {
    if ns != [] {
      ChecksAddEvidence(cands, ns[..|ns| - 1], now, s, jitter, fp);
    }
  }

  lemma {:induction false} TouchKeepsEvidence(cands: Candidates, ns: seq<Node>, now: real, fp: string)
    requires fp in cands
    ensures fp in TouchAll(cands, ns, now) && MoreEvidence(cands[fp], TouchAll(cands, ns, now)[fp])
  {
    if ns != [] {
      TouchKeepsEvidence(cands, ns[..|ns| - 1], now, fp);
    }
  }

  lemma {:induction false} RunAddsEvidence(states: seq<State>, events: seq<Event>, s: Settings,
                                           jitter: (string, nat) -> real, i: nat, j: nat, fp: string)
    requires Run(states, events, s, jitter) && i <= j <= |events|
    requires forall k :: i <= k <= j ==> fp in states[k].cands
    ensures MoreEvidence(states[i].cands[fp], states[j].cands[fp])
  {
    if i < j {
      RunAddsEvidence(states, events, s, jitter, i, j - 1, fp);
      var e := events[j - 1];
      assert Step(states[j - 1], e, states[j], s, jitter);
      match e
      case Scheduling(unique, picked, now, record, cursor) => TouchKeepsEvidence(states[j - 1].cands, unique, now, fp);
      case Updating(checked, now) => ChecksAddEvidence(states[j - 1].cands, checked, now, s, jitter, fp);
    }
  }

  /** While a candidate is retained, a degraded one that is verified again is still degraded. */
  lemma DegradedStaysDegraded(states: seq<State>, events: seq<Event>, s: Settings, jitter: (string, nat) -> real,
                              i: nat, j: nat, fp: string)
    requires Run(states, events, s, jitter) && 0.0 <= s.alpha <= 1.0 && i <= j <= |events|
    requires forall k :: i <= k <= j ==> fp in states[k].cands
    requires states[i].cands[fp].Tier() == Degraded && states[j].cands[fp].proxyOk.Working?
    ensures states[j].cands[fp].Tier() == Degraded
  {
    RunIsSound(states, events, s, jitter, i);
    RunAddsEvidence(states, events, s, jitter, i, j, fp);
  }
}
