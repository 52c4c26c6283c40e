/** What the scheduler's state says of the probes there were, in every run. */
module ProbeRuns {
  import opened Collections
  import opened Cooldown
  import opened SchedulerModel
  import opened SchedulerTheorems
  import opened SchedulerState

  // ---- The probes of a candidate ----

  datatype Probe = Probe(verdict: Verdict, at: real)

  function ProbesIn(ns: seq<Node>, fp: string, now: real): seq<Probe> {
    if ns == [] then []
    else
      var n := ns[|ns| - 1];
      ProbesIn(ns[..|ns| - 1], fp, now) + if n.fp == fp then [Probe(n.proxyOk, now)] else []
  }

  function ProbesOf(events: seq<Event>, fp: string): seq<Probe> {
    if events == [] then []
    else
      var e := events[|events| - 1];
      ProbesOf(events[..|events| - 1], fp) + if e.Updating? then ProbesIn(e.checked, fp, e.now) else []
  }

  /** The failures since the last success. */
  function BrokenSince(h: seq<Probe>): nat {
    if h == [] then 0
    else
      match h[|h| - 1].verdict
      case Working => 0
      case Broken => BrokenSince(h[..|h| - 1]) + 1
      case Unknown => BrokenSince(h[..|h| - 1])
  }

  function Number(h: seq<Probe>, v: Verdict): nat {
    if h == [] then 0 else Number(h[..|h| - 1], v) + if h[|h| - 1].verdict == v then 1 else 0
  }

  function LastAt(h: seq<Probe>, v: Verdict): Option<real> {
    if h == [] then None else if h[|h| - 1].verdict == v then Some(h[|h| - 1].at) else LastAt(h[..|h| - 1], v)
  }

  /** The last conclusive verdict. */
  function Standing(h: seq<Probe>): Verdict {
    if h == [] then Unknown
    else if h[|h| - 1].verdict != Unknown then h[|h| - 1].verdict else Standing(h[..|h| - 1])
  }

  /** When the backoff after the probes `h` ends. */
  function BackoffUntil(h: seq<Probe>, s: Settings, jitter: (string, nat) -> real, fp: string): real {
    if Standing(h) == Broken && LastAt(h, Broken).Some? then
      LastAt(h, Broken).value + ComputeCooldown(BrokenSince(h), s.base, s.maxCooldown, 0.2, jitter(fp, BrokenSince(h)))
    else 0.0
  }

  /** The candidate's record is exactly what the probes `h` of it say. */
  predicate Tells(c: Candidate, h: seq<Probe>, s: Settings, jitter: (string, nat) -> real, fp: string) {
    && c.consecutiveFails == BrokenSince(h)
    && c.failures == Number(h, Broken) && c.verifications == Number(h, Working)
    && c.proxyOk == Standing(h) && c.lastVerifiedAt == LastAt(h, Working)
    && c.lastCheckedAt == (if h == [] then None else Some(h[|h| - 1].at))
    && c.cooldownUntil == BackoffUntil(h, s, jitter, fp)
  }

  predicate TellsIn(cands: Candidates, h: seq<Probe>, s: Settings, jitter: (string, nat) -> real, fp: string) {
    if fp in cands then Tells(cands[fp], h, s, jitter, fp) else h == []
  }

  lemma FreshTells(n: Node, now: real, s: Settings, jitter: (string, nat) -> real, fp: string)
    ensures Tells(Fresh(n, now), [], s, jitter, fp)
  {
  }

  lemma CheckedTells(c: Candidate, n: Node, now: real, s: Settings, jitter: (string, nat) -> real, h: seq<Probe>)
    requires Tells(c, h, s, jitter, n.fp)
    ensures Tells(CheckCandidate(c, n, now, s, jitter), h + [Probe(n.proxyOk, now)], s, jitter, n.fp)
  {
    hide ComputeCooldown;
    var h' := h + [Probe(n.proxyOk, now)];
    assert h'[..|h|] == h;
  }

  lemma CheckOneTells(cands: Candidates, n: Node, now: real, s: Settings, jitter: (string, nat) -> real,
                      h: seq<Probe>, fp: string)
    requires TellsIn(cands, h, s, jitter, fp) && fp != ""
    ensures TellsIn(CheckOne(cands, n, now, s, jitter), if n.fp == fp then h + [Probe(n.proxyOk, now)] else h, s,
                    jitter, fp)
  {
    hide Tells, CheckCandidate, Fresh;
    if n.fp == fp {
      FreshTells(n, now, s, jitter, fp);
      CheckedTells(if fp in cands then cands[fp] else Fresh(n, now), n, now, s, jitter, h);
    }
  }

  lemma {:induction false} ChecksTell(cands: Candidates, ns: seq<Node>, now: real, s: Settings,
                                      jitter: (string, nat) -> real, h: seq<Probe>, fp: string)
    requires TellsIn(cands, h, s, jitter, fp) && fp != ""
    ensures TellsIn(CheckAll(cands, ns, now, s, jitter), h + ProbesIn(ns, fp, now), s, jitter, fp)
  {
    hide TellsIn, CheckOne;
    if ns == [] {
      assert h + [] == h;
    } else {
      var init, n := ns[..|ns| - 1], ns[|ns| - 1];
      ChecksTell(cands, init, now, s, jitter, h, fp);
      CheckOneTells(CheckAll(cands, init, now, s, jitter), n, now, s, jitter, h + ProbesIn(init, fp, now), fp);
      if n.fp == fp {
        assert h + ProbesIn(ns, fp, now) == h + ProbesIn(init, fp, now) + [Probe(n.proxyOk, now)];
      } else {
        assert ProbesIn(ns, fp, now) == ProbesIn(init, fp, now);
      }
    }
  }

  lemma {:induction false} TouchTells(cands: Candidates, ns: seq<Node>, now: real, s: Settings,
                                      jitter: (string, nat) -> real, h: seq<Probe>, fp: string)
    requires TellsIn(cands, h, s, jitter, fp)
    ensures TellsIn(TouchAll(cands, ns, now), h, s, jitter, fp)
  {
    hide ComputeCooldown;
    if ns != [] {
      TouchTells(cands, ns[..|ns| - 1], now, s, jitter, h, fp);
      FreshTells(ns[|ns| - 1], now, s, jitter, fp);
    }
  }

  lemma StepTells(st: State, e: Event, st': State, s: Settings, jitter: (string, nat) -> real, h: seq<Probe>,
                  fp: string)
    requires Step(st, e, st', s, jitter) && TellsIn(st.cands, h, s, jitter, fp) && fp != "" && fp in st'.cands
    ensures Tells(st'.cands[fp], h + (if e.Updating? then ProbesIn(e.checked, fp, e.now) else []), s, jitter, fp)
  {
    hide TouchAll, CheckAll, CheckYields, ProbesIn, BackoffUntil;
    match e
    case Scheduling(unique, picked, now, record, cursor) =>
      TouchTells(st.cands, unique, now, s, jitter, h, fp);
      assert h + [] == h;
    case Updating(checked, now) => ChecksTell(st.cands, checked, now, s, jitter, h, fp);
  }

  /** The state keeps `fp` from the event at `i` that brings it in until after the one before `j`. */
  ghost predicate Retained(states: seq<State>, fp: string, i: nat, j: nat) {
    && i < j < |states| && fp !in states[i].cands
    && forall k :: i < k <= j ==> fp in states[k].cands
  }

  /** In every run a candidate's record is exactly what the probes since it was taken in say: its failures in a row
      since the last success, several in one cycle each counted, its lifetime counts, and when its backoff ends. */
  lemma {:induction false} RecordTellsProbes(states: seq<State>, events: seq<Event>, s: Settings,
                                             jitter: (string, nat) -> real, i: nat, j: nat, fp: string)
    requires Run(states, events, s, jitter) && Retained(states, fp, i, j) && fp != ""
    ensures Tells(states[j].cands[fp], ProbesOf(events[i..j], fp), s, jitter, fp)
    decreases j
  {
    hide Step, Tells, ProbesIn;
    var h := ProbesOf(events[i..j - 1], fp);
    if i == j - 1 {
      assert events[i..j - 1] == [];
    } else {
      RecordTellsProbes(states, events, s, jitter, i, j - 1, fp);
    }
    var e := events[j - 1];
    assert events[i..j] == events[i..j - 1] + [e];
    assert events[i..j][..|events[i..j]| - 1] == events[i..j - 1];
    assert Step(states[j - 1], e, states[j - 1 + 1], s, jitter);
    StepTells(states[j - 1], e, states[j], s, jitter, h, fp);
  }

  /** Every candidate there is was taken in at some event and kept since. */
  lemma {:induction false} TakenIn(states: seq<State>, events: seq<Event>, s: Settings, jitter: (string, nat) -> real,
                                   j: nat, fp: string) returns (i: nat)
    requires Run(states, events, s, jitter) && j < |states| && fp in states[j].cands
    ensures Retained(states, fp, i, j)
    decreases j
  {
    hide Step;
    if fp in states[j - 1].cands {
      i := TakenIn(states, events, s, jitter, j - 1, fp);
    } else {
      i := j - 1;
    }
  }

  /** The last country the probed copies of `fp` name, or else the one known before. */
  function LastCountry(ns: seq<Node>, fp: string, known: string): string {
    if ns == [] then known
    else if ns[|ns| - 1].fp == fp && ns[|ns| - 1].cc != "" then ns[|ns| - 1].cc
    else LastCountry(ns[..|ns| - 1], fp, known)
  }

  /** The source known before, or else the first the probed copies of `fp` name. */
  function FirstSource(ns: seq<Node>, fp: string, known: string): string {
    if ns == [] then known
    else
      var before := FirstSource(ns[..|ns| - 1], fp, known);
      if ns[|ns| - 1].fp == fp && before == "" then ns[|ns| - 1].src else before
  }

  /** Probing changes the rest of a known candidate's record only so far: its country becomes the last one named, a
      missing source is filled in, and when it was seen and scheduled stays. */
  lemma {:induction false} ProbesPlace(cands: Candidates, ns: seq<Node>, now: real, s: Settings,
                                       jitter: (string, nat) -> real, fp: string)
    requires fp in cands && fp != ""
    ensures var after := CheckAll(cands, ns, now, s, jitter);
      && fp in after
      && after[fp].cc == LastCountry(ns, fp, cands[fp].cc) && after[fp].src == FirstSource(ns, fp, cands[fp].src)
      && after[fp].lastSeenAt == cands[fp].lastSeenAt && after[fp].lastScheduledAt == cands[fp].lastScheduledAt
  {
    hide ComputeCooldown;
    if ns != [] {
      ProbesPlace(cands, ns[..|ns| - 1], now, s, jitter, fp);
    }
  }

  // ---- The backoff in numbers ----

  function TwoTo(n: nat): int { if n == 0 then 1 else 2 * TwoTo(n - 1) }

  lemma {:induction false} DoubledIsPower(base: real, n: nat)
    ensures Doubled(base, n) == base * TwoTo(n) as real
  {
    if n > 0 {
      DoubledIsPower(base, n - 1);
      assert TwoTo(n) as real == 2.0 * TwoTo(n - 1) as real;
    }
  }

  /** After `fails` failures the backoff is the base doubled for each but the first, sixteen times at most, and
      capped, give or take a fifth and capped again. */
  lemma CooldownInNumbers(fails: int, base: real, maxCooldown: real, r: real)
    requires base > 0.0 && maxCooldown > 0.0 && 0.0 <= r <= 1.0 && fails >= 1
    ensures var doubled := base * TwoTo(Min(fails - 1, 16)) as real;
      var nominal := if doubled <= maxCooldown then doubled else maxCooldown;
      var cd := ComputeCooldown(fails, base, maxCooldown, JITTER, r);
      cd == if nominal * (0.8 + 0.4 * r) <= maxCooldown then nominal * (0.8 + 0.4 * r) else maxCooldown
  {
    hide Doubled, TwoTo, Jittered, JitterFactor;
    DoubledIsPower(base, Min(fails - 1, 16));
    JitteredIs(Nominal(fails, base, maxCooldown), maxCooldown, r);
  }

  lemma JitteredIs(nominal: real, maxCooldown: real, r: real)
    requires nominal > 0.0 && maxCooldown > 0.0 && 0.0 <= r <= 1.0
    ensures Jittered(nominal, maxCooldown, JitterFactor(JITTER, r))
         == if nominal * (0.8 + 0.4 * r) <= maxCooldown then nominal * (0.8 + 0.4 * r) else maxCooldown
  {
    var factor := 0.8 + 0.4 * r;
    assert JitterFactor(JITTER, r) == factor;
    Positive(nominal, factor);
  }

  lemma Positive(a: real, b: real)
    requires a > 0.0 && b > 0.0
    ensures a * b > 0.0
  {
  }

  lemma {:induction false} DoubledGrows(base: real, m: nat, n: nat)
    requires base > 0.0 && m <= n
    ensures Doubled(base, m) <= Doubled(base, n)
  {
    if m < n {
      DoubledGrows(base, m, n - 1);
    }
  }

  /** Below the ceiling more failures wait strictly longer, whatever the digests. */
  lemma {:induction false} MoreFailuresWaitLonger(f: nat, g: nat, base: real, maxCooldown: real, r: real, r': real)
    requires 1 <= f < g <= 17 && base > 0.0 && base * TwoTo(g - 1) as real <= maxCooldown
    requires 0.0 <= r <= 1.0 && 0.0 <= r' <= 1.0
    ensures ComputeCooldown(f, base, maxCooldown, 0.2, r) < ComputeCooldown(g, base, maxCooldown, 0.2, r')
    decreases g
  {
    hide ComputeCooldown, TwoTo, Doubled;
    DoubledIsPower(base, g - 1);
    BackoffGrowsIffJitterSmall(g - 1, base, maxCooldown, 0.2);
    if f + 1 == g {
      assert Longer(f, base, maxCooldown, 0.2, r, r');
    } else {
      DoubledGrows(base, g - 2, g - 1);
      DoubledIsPower(base, g - 2);
      MoreFailuresWaitLonger(f, g - 1, base, maxCooldown, r, 0.0);
      assert Longer(g - 1, base, maxCooldown, 0.2, 0.0, r');
    }
  }

  function Waits(st: State, fp: string, h: seq<Probe>): real
    requires fp in st.cands && LastAt(h, Broken).Some?
  {
    st.cands[fp].cooldownUntil - LastAt(h, Broken).value
  }

  /** In every run, of two moments at which a retained candidate stands broken, the one with more failures in a row
      waits strictly longer after the last of them, as long as the doubled base stays below the ceiling. */
  lemma BackoffGrowsInRuns(states: seq<State>, events: seq<Event>, s: Settings, jitter: (string, nat) -> real,
                           i: nat, j: nat, k: nat, fp: string)
    requires Run(states, events, s, jitter) && Retained(states, fp, i, j) && Retained(states, fp, i, k) && fp != ""
    requires Standing(ProbesOf(events[i..j], fp)) == Broken && Standing(ProbesOf(events[i..k], fp)) == Broken
    requires forall n :: 0.0 <= jitter(fp, n) <= 1.0
    requires s.base > 0.0
    ensures var h, h' := ProbesOf(events[i..j], fp), ProbesOf(events[i..k], fp);
      && LastAt(h, Broken).Some? && LastAt(h', Broken).Some?
      && (BrokenSince(h) < BrokenSince(h') <= 17 && s.base * TwoTo(BrokenSince(h') - 1) as real <= s.maxCooldown ==>
            Waits(states[j], fp, h) < Waits(states[k], fp, h'))
  {
    hide Step, Retained, ProbesOf, ComputeCooldown, TwoTo;
    RetainedIn(states, fp, i, j);
    RetainedIn(states, fp, i, k);
    var h, h' := ProbesOf(events[i..j], fp), ProbesOf(events[i..k], fp);
    RecordTellsProbes(states, events, s, jitter, i, j, fp);
    RecordTellsProbes(states, events, s, jitter, i, k, fp);
    BrokenOnce(h);
    BrokenOnce(h');
    if BrokenSince(h) < BrokenSince(h') <= 17 && s.base * TwoTo(BrokenSince(h') - 1) as real <= s.maxCooldown {
      MoreFailuresWaitLonger(BrokenSince(h), BrokenSince(h'), s.base, s.maxCooldown,
                             jitter(fp, BrokenSince(h)), jitter(fp, BrokenSince(h')));
    }
  }

  lemma RetainedIn(states: seq<State>, fp: string, i: nat, j: nat)
    requires Retained(states, fp, i, j)
    ensures i < j < |states| && fp in states[j].cands
  {
  }

  lemma {:induction false} BrokenOnce(h: seq<Probe>)
    ensures Standing(h) == Broken ==> LastAt(h, Broken).Some? && BrokenSince(h) >= 1
  {
    if h != [] {
      BrokenOnce(h[..|h| - 1]);
    }
  }

  // ---- The yield of a source ----

  function OutcomesIn(ns: seq<Node>, src: string): seq<bool> {
    if ns == [] then []
    else
      var n := ns[|ns| - 1];
      OutcomesIn(ns[..|ns| - 1], src)
      + if n.fp != "" && n.src == src && n.proxyOk != Unknown then [n.proxyOk == Working] else []
  }

  /** The conclusive probes of a source, true for those that worked. */
  function Outcomes(events: seq<Event>, src: string): seq<bool> {
    if events == [] then []
    else
      var e := events[|events| - 1];
      Outcomes(events[..|events| - 1], src) + if e.Updating? then OutcomesIn(e.checked, src) else []
  }

  function Power(x: real, n: nat): real { if n == 0 then 1.0 else x * Power(x, n - 1) }

  /** The successes, each discounted once for every probe after it. */
  function Discounted(h: seq<bool>, alpha: real): real {
    if h == [] then 0.0
    else (if h[0] then alpha * Power(1.0 - alpha, |h| - 1) else 0.0) + Discounted(h[1..], alpha)
  }

  function Successes(h: seq<bool>): nat {
    if h == [] then 0 else Successes(h[..|h| - 1]) + if h[|h| - 1] then 1 else 0
  }

  lemma PowerMore(x: real, n: nat)
    ensures Power(x, 0) == 1.0 && Power(x, n + 1) == x * Power(x, n)
  {
  }

  lemma DiscountFirst(x: bool, rest: seq<bool>, alpha: real)
    ensures Discounted([], alpha) == 0.0
    ensures Discounted([x] + rest, alpha)
         == (if x then alpha * Power(1.0 - alpha, |rest|) else 0.0) + Discounted(rest, alpha)
  {
    hide Power;
    assert ([x] + rest)[1..] == rest;
  }

  lemma {:induction false} DiscountMore(h: seq<bool>, x: bool, alpha: real)
    ensures Discounted(h + [x], alpha) == (1.0 - alpha) * Discounted(h, alpha) + if x then alpha else 0.0
  {
    hide Discounted, Power;
    if h == [] {
      assert h + [x] == [x] + [];
      DiscountFirst(x, [], alpha);
      PowerMore(1.0 - alpha, 0);
    } else {
      var first, rest := h[0], h[1..];
      assert h == [first] + rest && h + [x] == [first] + (rest + [x]);
      DiscountFirst(first, rest + [x], alpha);
      DiscountFirst(first, rest, alpha);
      PowerMore(1.0 - alpha, |rest|);
      DiscountMore(rest, x, alpha);
      Distribute(1.0 - alpha, alpha, Power(1.0 - alpha, |rest|), Discounted(rest, alpha));
    }
  }

  lemma Distribute(q: real, alpha: real, power: real, rest: real)
    ensures q * (alpha * power + rest) == alpha * (q * power) + q * rest
    ensures q * (0.0 + rest) == q * rest
  {
  }

  /** What a source's record must be after the outcomes `h`. */
  predicate YieldTells(y: SourceYield, h: seq<bool>, alpha: real) {
    && y.ewma == Power(1.0 - alpha, |h|) * 0.5 + Discounted(h, alpha)
    && y.checks == |h| && y.successes == Successes(h)
  }

  lemma CheckedYieldTells(y: SourceYield, h: seq<bool>, x: bool, alpha: real)
    requires YieldTells(y, h, alpha)
    ensures YieldTells(CheckSource(y, x, alpha), h + [x], alpha)
  {
    hide Discounted, Power;
    DiscountMore(h, x, alpha);
    assert (h + [x])[..|h|] == h;
    PowerMore(1.0 - alpha, |h|);
    Distribute(1.0 - alpha, 0.5, Power(1.0 - alpha, |h|), Discounted(h, alpha));
  }

  lemma {:induction false} YieldsTell(sources: Sources, ns: seq<Node>, alpha: real, h: seq<bool>, src: string)
    requires YieldTells(YieldOf(sources, src), h, alpha)
    ensures YieldTells(YieldOf(CheckYields(sources, ns, alpha), src), h + OutcomesIn(ns, src), alpha)
  {
    hide YieldTells, CheckSource;
    if ns == [] {
      assert h + [] == h;
    } else {
      var init, n := ns[..|ns| - 1], ns[|ns| - 1];
      YieldsTell(sources, init, alpha, h, src);
      var h' := h + OutcomesIn(init, src);
      if n.fp != "" && n.src == src && n.proxyOk != Unknown {
        CheckedYieldTells(YieldOf(CheckYields(sources, init, alpha), src), h', n.proxyOk == Working, alpha);
        assert h + OutcomesIn(ns, src) == h' + [n.proxyOk == Working];
      } else {
        assert h + OutcomesIn(ns, src) == h';
      }
    }
  }

  /** In every run a source's checks are its conclusive probes, its successes those that worked, and its yield their
      average discounted exponentially, starting from a half. */
  lemma {:induction false} YieldTellsOutcomes(states: seq<State>, events: seq<Event>, s: Settings,
                                              jitter: (string, nat) -> real, j: nat, src: string)
    requires Run(states, events, s, jitter) && j <= |events|
    ensures YieldTells(YieldOf(states[j].sources, src), Outcomes(events[..j], src), s.alpha)
  {
    hide Pruned, CheckAll, CheckYields, TouchAll, YieldTells, OutcomesIn;
    if j == 0 {
      NoOutcomes(src, s.alpha);
      assert events[..0] == [];
    } else {
      YieldTellsOutcomes(states, events, s, jitter, j - 1, src);
      var e := events[j - 1];
      assert events[..j][..j - 1] == events[..j - 1];
      assert Step(states[j - 1], e, states[j - 1 + 1], s, jitter);
      if e.Updating? {
        YieldsTell(states[j - 1].sources, e.checked, s.alpha, Outcomes(events[..j - 1], src), src);
      } else {
        assert Outcomes(events[..j], src) == Outcomes(events[..j - 1], src);
      }
    }
  }

  lemma NoOutcomes(src: string, alpha: real)
    ensures YieldTells(YieldOf(map[], src), [], alpha)
  {
  }

  // ---- Pruning, and what a scheduling call writes ----

  /** Pruning drops every unverified candidate unseen for longer than `ttl`. Beyond `max` it also drops others, none
      verified while an unverified one is kept, and among the equally verified none seen later than one kept. */
  lemma PruningInFields(before: Candidates, now: real, ttl: real, max: nat, after: Candidates)
    requires Pruned(before, now, ttl, max, after)
    ensures |after| <= max && forall fp :: fp in after ==> fp in before && after[fp] == before[fp]
    ensures forall fp :: fp in after ==> !Expendable(after[fp], now, ttl)
    ensures forall fp, k :: fp in before && fp !in after && k in after && !Expendable(before[fp], now, ttl) ==>
      |after| == max && NoWorseKept(before[fp], after[k])
  {
    var kept := NotStale(before, now, ttl);
    forall fp, k | fp in before && fp !in after && k in after && !Expendable(before[fp], now, ttl)
      ensures |after| == max && NoWorseKept(before[fp], after[k])
    {
      assert fp in kept && k in kept && NoBetter(kept[fp], kept[k]);
      if |kept| <= max {
        SameSize(after.Keys, kept.Keys);
      }
    }
  }

  predicate Expendable(c: Candidate, now: real, ttl: real) { c.proxyOk != Working && now - c.lastSeenAt > ttl }

  predicate NoWorseKept(gone: Candidate, kept: Candidate) {
    && (gone.proxyOk == Working ==> kept.proxyOk == Working)
    && ((gone.proxyOk == Working) == (kept.proxyOk == Working) ==> gone.lastSeenAt <= kept.lastSeenAt)
  }

  lemma SameSize<T>(a: set<T>, b: set<T>)
    requires a <= b && |a| == |b|
    ensures a == b
  {
    assert b == a + (b - a);
  }

  /** A scheduling call marks the nodes it is given as seen, takes in new ones with nothing known about them, fills
      in a source or country only where none was known, and leaves every other candidate alone. */
  lemma {:induction false} TouchingInFields(cands: Candidates, unique: seq<Node>, now: real, fp: string)
    requires DistinctFps(unique)
    ensures var after := TouchAll(cands, unique, now);
      && (fp !in Fps(unique) ==> (fp in after <==> fp in cands) && (fp in cands ==> after[fp] == cands[fp]))
      && forall n :: n in unique && n.fp == fp ==>
           && fp in after && after[fp].lastSeenAt == now
           && (fp !in cands ==>
                 after[fp] == Candidate(n.src, n.cc, 0, 0.0, now, 0.0, None, None, Unknown, 0, 0))
           && (fp in cands ==>
                 && after[fp].src == (if cands[fp].src == "" then n.src else cands[fp].src)
                 && after[fp].cc == (if cands[fp].cc == "" then n.cc else cands[fp].cc)
                 && after[fp].(lastSeenAt := cands[fp].lastSeenAt, src := cands[fp].src, cc := cands[fp].cc)
                    == cands[fp])
  {
    if unique != [] {
      var init, last := unique[..|unique| - 1], unique[|unique| - 1];
      assert unique == init + [last];
      TouchingInFields(cands, init, now, fp);
      assert last.fp !in Fps(init);
      assert forall n :: n in unique ==> n in init || n == last;
    }
  }
}
