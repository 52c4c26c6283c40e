/** Least-recently-scheduled-first exploration leaves no candidate behind. */
module Starvation {
  import opened Collections
  import opened Cooldown
  import opened SchedulerModel
  import opened SchedulerTheorems
  import opened SchedulerState

  /** The non-overdue eligible candidates of `src`. */
  function Members(inp: Inputs, src: string): set<string> { Fps(OfSource(inp.Discovery(), src)) }

  /** When `fp` was last scheduled once the run has been recorded. */
  function ScheduledAfter(inp: Inputs, p: Plan, fp: string): real {
    if fp in Fps(p.All()) then inp.now else ScheduledAt(inp.cands, fp)
  }

  /** Successive plans under one digest. */
  ghost predicate Plans(inps: seq<Inputs>, plans: seq<Plan>) {
    && |inps| == |plans|
    && (forall k :: 0 <= k < |inps| ==> inps[k].Valid() && IsPlan(inps[k], plans[k]))
    && (forall k :: 0 <= k < |inps| ==> inps[k].digest == inps[0].digest)
  }

  /** What later plans see of `members` is what the earlier ones recorded. */
  ghost predicate Succession(inps: seq<Inputs>, plans: seq<Plan>, members: set<string>) {
    && Plans(inps, plans)
    && (forall k :: 0 < k < |inps| ==> inps[k - 1].now < inps[k].now)
    && (|inps| > 0 ==> forall fp :: fp in members ==> ScheduledAt(inps[0].cands, fp) < inps[0].now)
    && (forall k, fp :: 0 < k < |inps| && fp in members ==>
          ScheduledAt(inps[k].cands, fp) == ScheduledAfter(inps[k - 1], plans[k - 1], fp))
  }

  /** The run sees `members` as the candidates of `src` and explores at least one of them. */
  predicate Serves(inp: Inputs, p: Plan, src: string, members: set<string>) {
    Members(inp, src) == members && OfSource(p.explore, src) != []
  }

  /** How many of the first `k` runs do. */
  function Serving(inps: seq<Inputs>, plans: seq<Plan>, src: string, members: set<string>, k: nat): nat
    requires k <= |inps| == |plans|
  {
    if k == 0 then 0
    else
      Serving(inps, plans, src, members, k - 1) + if Serves(inps[k - 1], plans[k - 1], src, members) then 1 else 0
  }

  /** The members that may be explored before `c`. */
  function Ahead(inp: Inputs, members: set<string>, c: string): set<string> {
    set d | d in members && d != c && inp.Precedes(d, c)
  }

  /** Whoever is explored while `c` waits was ahead of it. */
  lemma PickedWasAhead(inp: Inputs, p: Plan, src: string, c: string) returns (d: string)
    requires inp.Valid() && IsPlan(inp, p) && OfSource(p.explore, src) != []
    requires c in Members(inp, src) && c !in Fps(p.All())
    ensures d in Ahead(inp, Members(inp, src), c) && d in Fps(p.All())
  {
    hide *;
    PlanExplores(inp, p);
    var head := ServedFirst(inp.Queues(p.deficit), inp.Rotated(p.deficit), inp.Weights(p.deficit),
                            inp.limit - |p.refresh| - |p.deficit|, p.explore, p.rounds, src);
    HeadWasAhead(inp, p, src, c, head);
    d := head.fp;
  }

  lemma PlanExplores(inp: Inputs, p: Plan)
    requires inp.Valid() && IsPlan(inp, p)
    ensures IsExploration(inp.Queues(p.deficit), inp.Rotated(p.deficit), inp.Weights(p.deficit),
                          inp.limit - |p.refresh| - |p.deficit|, p.explore, p.rounds)
  {
  }

  lemma HeadWasAhead(inp: Inputs, p: Plan, src: string, c: string, head: Node)
    requires c in Members(inp, src) && c !in Fps(p.All())
    requires src in inp.Queues(p.deficit) && inp.Queues(p.deficit)[src] != []
    requires head == inp.Queues(p.deficit)[src][0] && head in p.explore
    ensures head.fp in Ahead(inp, Members(inp, src), c) && head.fp in Fps(p.All())
  {
    hide Inputs.Queues, Inputs.Discovery;
    var n :| n in OfSource(inp.Discovery(), src) && n.fp == c;
    StillWaiting(inp.Discovery(), p, n);
    QueueMembers(inp, p.deficit, src, n);
    QueueMembers(inp, p.deficit, src, head);
    HeadIsFirst(inp, p.deficit, src, n);
    assert head in p.All();
    assert head in OfSource(inp.Discovery(), src);
  }

  lemma ServedFirst(queues: map<string, seq<Node>>, rotated: seq<string>, weights: map<string, nat>,
                    budget: int, picks: seq<Node>, rounds: nat, src: string) returns (head: Node)
    requires IsExploration(queues, rotated, weights, budget, picks, rounds) && OfSource(picks, src) != []
    ensures src in queues && queues[src] != [] && head == queues[src][0] && head in picks
  {
    head := OfSource(picks, src)[0];
    assert head in OfSource(picks, src);
  }

  lemma StillWaiting(discovery: seq<Node>, p: Plan, n: Node)
    requires n in discovery && n.fp !in Fps(p.All())
    ensures n in Unpicked(discovery, p.deficit)
  {
    forall m | m in p.deficit ensures m.fp != n.fp {
      assert m in p.All();
    }
  }

  lemma BeforeIsOrder(inp: Inputs, ns: seq<Node>)
    ensures TotalPreorderOn(ns, inp.LeastRecentFirst())
  {
    hide ScheduledAt;
  }

  lemma HeadIsLeast<T(!new)>(s: seq<T>, le: (T, T) -> bool, x: T)
    requires SortedBy(s, le) && x in s && le(x, x)
    ensures le(s[0], x)
  {
    var j :| 0 <= j < |s| && s[j] == x;
  }

  lemma HeadIsFirst(inp: Inputs, deficit: seq<Node>, src: string, n: Node)
    requires src in inp.Queues(deficit) && n in inp.Queues(deficit)[src]
    ensures inp.Precedes(inp.Queues(deficit)[src][0].fp, n.fp)
  {
    hide TotalPreorderOn, SortedBy, OfSource, Inputs.Remaining, StableSort;
    var ns := OfSource(inp.Remaining(deficit), src);
    BeforeIsOrder(inp, ns);
    SortSorted(ns, inp.LeastRecentFirst());
    HeadIsLeast(inp.Queues(deficit)[src], inp.LeastRecentFirst(), n);
  }

  /** Within a source, whoever is explored was scheduled less recently than whoever is not selected, or at the same
      time with no greater digest. */
  lemma ExploresLeastRecent(inp: Inputs, p: Plan, m: Node, n: Node)
    requires inp.Valid() && IsPlan(inp, p) && m in p.explore && n.src == m.src
    requires n in inp.Discovery() && n.fp !in Fps(p.All())
    ensures m.fp in inp.cands && n.fp in inp.cands
    ensures var a, b := inp.cands[m.fp].lastScheduledAt, inp.cands[n.fp].lastScheduledAt;
      a < b || (a == b && inp.digest(m.fp) <= inp.digest(n.fp))
  {
    hide IsPlan, Inputs.Discovery, Inputs.Queues, Inputs.Remaining, OfSource, Fps;
    PlanExplores(inp, p);
    QueueOf(inp.Queues(p.deficit), inp.Rotated(p.deficit), inp.Weights(p.deficit),
            inp.limit - |p.refresh| - |p.deficit|, p.explore, p.rounds, m);
    StillWaiting(inp.Discovery(), p, n);
    RemainingIs(inp, p.deficit);
    QueueMembers(inp, p.deficit, m.src, n);
    QueueSorted(inp, p.deficit, m.src);
    NotPicked(p, n);
    PrefixBefore(OfSource(p.explore, m.src), inp.Queues(p.deficit)[m.src], inp.LeastRecentFirst(), m, n);
    KnownNode(inp, p, m);
    KnownNode(inp, p, n);
  }

  lemma RemainingIs(inp: Inputs, deficit: seq<Node>)
    ensures inp.Remaining(deficit) == Unpicked(inp.Discovery(), deficit)
  {
  }

  lemma QueueOf(queues: map<string, seq<Node>>, rotated: seq<string>, weights: map<string, nat>,
                budget: int, picks: seq<Node>, rounds: nat, m: Node)
    requires IsExploration(queues, rotated, weights, budget, picks, rounds) && m in picks
    ensures m.src in queues && m in OfSource(picks, m.src) && OfSource(picks, m.src) <= queues[m.src]
  {
  }

  lemma NotPicked(p: Plan, n: Node)
    requires n.fp !in Fps(p.All())
    ensures n !in OfSource(p.explore, n.src)
  {
    forall m | m in p.explore ensures m.fp in Fps(p.All()) {
      assert m in p.All();
    }
  }

  lemma QueueSorted(inp: Inputs, deficit: seq<Node>, src: string)
    requires src in inp.Queues(deficit)
    ensures SortedBy(inp.Queues(deficit)[src], inp.LeastRecentFirst())
  {
    hide Inputs.Remaining, OfSource, StableSort, TotalPreorderOn, SortedBy;
    BeforeIsOrder(inp, OfSource(inp.Remaining(deficit), src));
    SortSorted(OfSource(inp.Remaining(deficit), src), inp.LeastRecentFirst());
  }

  lemma KnownNode(inp: Inputs, p: Plan, n: Node)
    requires inp.Valid() && IsPlan(inp, p) && (n in p.explore || n in inp.Discovery())
    ensures n.fp in inp.cands
  {
    hide IsPlan, Filter;
    if n in p.explore {
      assert n in p.All();
      WorkConserving(inp, p);
    }
  }

  lemma {:induction false} ScheduledBeforeNow(inps: seq<Inputs>, plans: seq<Plan>, members: set<string>, k: nat,
                                              fp: string)
    requires Succession(inps, plans, members) && k < |inps| && fp in members
    ensures ScheduledAt(inps[k].cands, fp) < inps[k].now
  {
    hide Plans, ScheduledAt, Plan.All, Fps;
    if k > 0 {
      ScheduledBeforeNow(inps, plans, members, k - 1, fp);
    }
  }

  lemma Carried(inps: seq<Inputs>, plans: seq<Plan>, members: set<string>, k: nat, fp: string)
    requires Succession(inps, plans, members) && k + 1 < |inps| && fp in members
    ensures ScheduledAt(inps[k + 1].cands, fp) == ScheduledAfter(inps[k], plans[k], fp)
  {
    hide Plans, ScheduledAt, ScheduledAfter;
  }

  lemma SameDigest(inps: seq<Inputs>, plans: seq<Plan>, members: set<string>, k: nat)
    requires Succession(inps, plans, members) && k + 1 < |inps|
    ensures |inps| == |plans|
    ensures inps[k + 1].digest == inps[k].digest && inps[k].Valid() && IsPlan(inps[k], plans[k])
  {
    hide IsPlan, Inputs.Valid, ScheduledAfter, ScheduledAt;
  }

  /** No run that passes `c` over puts anybody ahead of it. */
  lemma AheadNeverGrows(inps: seq<Inputs>, plans: seq<Plan>, members: set<string>, k: nat, c: string)
    requires Succession(inps, plans, members) && k + 1 < |inps| && c in members && c !in Fps(plans[k].All())
    ensures Ahead(inps[k + 1], members, c) <= Ahead(inps[k], members, c)
  {
    hide Succession, Plan.All, Fps, ScheduledAt;
    ScheduledBeforeNow(inps, plans, members, k, c);
    Carried(inps, plans, members, k, c);
    SameDigest(inps, plans, members, k);
    forall e | e in Ahead(inps[k + 1], members, c) ensures e in Ahead(inps[k], members, c) {
      Carried(inps, plans, members, k, e);
    }
  }

  /** One that serves the source puts at least one member behind it. */
  lemma AheadShrinks(inps: seq<Inputs>, plans: seq<Plan>, src: string, members: set<string>, k: nat, c: string)
    requires Succession(inps, plans, members) && k + 1 < |inps| && c in members && c !in Fps(plans[k].All())
    requires Serves(inps[k], plans[k], src, members)
    ensures Ahead(inps[k + 1], members, c) < Ahead(inps[k], members, c)
  {
    hide Succession, Plan.All, Fps, ScheduledAt, IsPlan, Inputs.Valid, OfSource, Members;
    AheadNeverGrows(inps, plans, members, k, c);
    SameDigest(inps, plans, members, k);
    var d := PickedWasAhead(inps[k], plans[k], src, c);
    ScheduledBeforeNow(inps, plans, members, k, c);
    Carried(inps, plans, members, k, c);
    Carried(inps, plans, members, k, d);
    assert d !in Ahead(inps[k + 1], members, c);
  }

  lemma {:induction false} WaitersAdvance(inps: seq<Inputs>, plans: seq<Plan>, src: string, members: set<string>,
                                          k: nat, c: string)
    requires Succession(inps, plans, members) && k < |inps| == |plans| && c in members
    requires forall j :: 0 <= j < k ==> c !in Fps(plans[j].All())
    ensures |Ahead(inps[k], members, c)| + Serving(inps, plans, src, members, k) < |members|
  {
    hide Succession, Serves, Ahead;
    if k == 0 {
      assert Ahead(inps[0], members, c) <= members - {c} by { NotAheadOfItself(inps[0], members, c); }
      SubsetSize(Ahead(inps[0], members, c), members - {c});
    } else {
      WaitersAdvance(inps, plans, src, members, k - 1, c);
      AheadNeverGrows(inps, plans, members, k - 1, c);
      SubsetSize(Ahead(inps[k], members, c), Ahead(inps[k - 1], members, c));
      if Serves(inps[k - 1], plans[k - 1], src, members) {
        AheadShrinks(inps, plans, src, members, k - 1, c);
        StrictSubsetSize(Ahead(inps[k], members, c), Ahead(inps[k - 1], members, c));
      }
    }
  }

  lemma NotAheadOfItself(inp: Inputs, members: set<string>, c: string)
    ensures Ahead(inp, members, c) <= members - {c}
  {
  }

  lemma StrictSubsetSize<T>(a: set<T>, b: set<T>)
    requires a < b
    ensures |a| < |b|
  {
    var x :| x in b && x !in a;
    SubsetSize(a + {x}, b);
  }

  /** Runs that serve the source as often as it has members schedule every one of them. */
  lemma EveryoneIsServed(inps: seq<Inputs>, plans: seq<Plan>, src: string, members: set<string>, c: string)
    requires Succession(inps, plans, members) && |inps| == |plans| && c in members
    requires Serving(inps, plans, src, members, |inps|) >= |members|
    ensures exists k :: 0 <= k < |plans| && c in Fps(plans[k].All())
  {
    hide Serves;
    if forall k :: 0 <= k < |plans| ==> c !in Fps(plans[k].All()) {
      var last := |inps| - 1;
      WaitersAdvance(inps, plans, src, members, last, c);
      if Serves(inps[last], plans[last], src, members) {
        SomebodyAhead(inps[last], plans[last], src, members, c);
      }
    }
  }

  lemma SomebodyAhead(inp: Inputs, p: Plan, src: string, members: set<string>, c: string)
    requires inp.Valid() && IsPlan(inp, p) && Serves(inp, p, src, members) && c in members && c !in Fps(p.All())
    ensures |Ahead(inp, members, c)| >= 1
  {
    hide IsPlan, Inputs.Valid, Fps, Plan.All, Members, Ahead;
    var d := PickedWasAhead(inp, p, src, c);
    SubsetSize({d}, Ahead(inp, members, c));
  }

  // ---- Runs within the scheduler's history ----

  predicate Records(e: Event) { e.Scheduling? && e.record }

  /** The event records `p`, decided on the state before it. */
  ghost predicate RecordsPlan(e: Event, st: State, inp: Inputs, p: Plan) {
    && Records(e) && e.picked == p.All() && inp.now == e.now && inp.cursor == st.cursor && e.cursor == inp.NextCursor(p)
    && inp == InputsOf(e.unique, st.cands, st.sources, st.cursor, inp.targets, inp.limit, e.now, inp.opts, inp.digest)
  }

  /** Recorded runs happen at ever later, positive times. */
  ghost predicate ClockAdvances(events: seq<Event>) {
    && (forall i :: 0 <= i < |events| && Records(events[i]) ==> 0.0 < events[i].now)
    && (forall i, j :: 0 <= i < j < |events| && Records(events[i]) && Records(events[j])
          ==> events[i].now < events[j].now)
  }

  /** Nothing else is recorded between events `i` and `j`, and the state retains `members`. */
  ghost predicate Quiet(states: seq<State>, events: seq<Event>, i: nat, j: nat, members: set<string>)
    requires |states| == |events| + 1
  {
    && i < j < |events|
    && (forall k :: i < k < j ==> !Records(events[k]))
    && (forall k, fp :: i < k <= j && fp in members ==> fp in states[k].cands)
  }

  /** The events `at` of the history are consecutive recorded runs, deciding `plans` on `inps`. */
  ghost predicate InHistory(states: seq<State>, events: seq<Event>, at: seq<nat>, inps: seq<Inputs>, plans: seq<Plan>,
                            members: set<string>)
    requires |states| == |events| + 1
  {
    && ClockAdvances(events)
    && |at| == |inps| == |plans|
    && (forall k :: 0 <= k < |at| ==> at[k] < |events| && RecordsPlan(events[at[k]], states[at[k]], inps[k], plans[k]))
    && (forall k :: 0 < k < |at| ==> Quiet(states, events, at[k - 1], at[k], members))
  }

  lemma {:induction false} TouchingKeepsSchedule(cands: Candidates, ns: seq<Node>, now: real, fp: string)
    ensures ScheduledAt(TouchAll(cands, ns, now), fp) == ScheduledAt(cands, fp)
  {
    if ns != [] {
      TouchingKeepsSchedule(cands, ns[..|ns| - 1], now, fp);
    }
  }

  lemma {:induction false} CheckingKeepsSchedule(cands: Candidates, ns: seq<Node>, now: real, s: Settings,
                                                 jitter: (string, nat) -> real, fp: string)
    ensures ScheduledAt(CheckAll(cands, ns, now, s, jitter), fp) == ScheduledAt(cands, fp)
  {
    hide ComputeCooldown;
    if ns != [] {
      CheckingKeepsSchedule(cands, ns[..|ns| - 1], now, s, jitter, fp);
    }
  }

  /** One step changes when a candidate was last scheduled by recording it, or forgets it altogether. */
  lemma StepSchedules(st: State, e: Event, st': State, s: Settings, jitter: (string, nat) -> real, fp: string)
    requires Step(st, e, st', s, jitter)
    ensures fp !in st'.cands ==> ScheduledAt(st'.cands, fp) == 0.0
    ensures fp in st'.cands ==>
      ScheduledAt(st'.cands, fp) == (if Records(e) && fp in Fps(e.picked) then e.now else ScheduledAt(st.cands, fp))
  {
    hide TouchAll, CheckAll, CheckYields, Fps;
    match e
    case Scheduling(unique, picked, now, record, cursor) => TouchingKeepsSchedule(st.cands, unique, now, fp);
    case Updating(checked, now) => CheckingKeepsSchedule(st.cands, checked, now, s, jitter, fp);
  }

  lemma {:induction false} ScheduledInThePast(states: seq<State>, events: seq<Event>, s: Settings,
                                              jitter: (string, nat) -> real, i: nat, t: real, fp: string)
    requires Run(states, events, s, jitter) && i <= |events| && 0.0 < t
    requires forall j :: 0 <= j < i && Records(events[j]) ==> events[j].now < t
    ensures ScheduledAt(states[i].cands, fp) < t
  {
    hide Step, ScheduledAt;
    if i == 0 {
      assert ScheduledAt(map[], fp) == 0.0 by { NeverScheduled(fp); }
    } else {
      ScheduledInThePast(states, events, s, jitter, i - 1, t, fp);
      assert Step(states[i - 1], events[i - 1], states[i - 1 + 1], s, jitter);
      StepSchedules(states[i - 1], events[i - 1], states[i], s, jitter, fp);
    }
  }

  lemma NeverScheduled(fp: string)
    ensures ScheduledAt(map[], fp) == 0.0
  {
  }

  lemma {:induction false} QuietKeepsSchedule(states: seq<State>, events: seq<Event>, s: Settings,
                                              jitter: (string, nat) -> real, i: nat, j: nat, k: nat,
                                              members: set<string>, fp: string)
    requires Run(states, events, s, jitter) && Quiet(states, events, i, j, members) && fp in members && i < k <= j
    ensures ScheduledAt(states[k].cands, fp) == ScheduledAt(states[i + 1].cands, fp)
  {
    hide Step, ScheduledAt;
    if i + 1 < k {
      QuietKeepsSchedule(states, events, s, jitter, i, j, k - 1, members, fp);
      assert Step(states[k - 1], events[k - 1], states[k - 1 + 1], s, jitter);
      StepSchedules(states[k - 1], events[k - 1], states[k], s, jitter, fp);
    }
  }

  lemma SeenAs(e: Event, st: State, inp: Inputs, p: Plan, fp: string)
    requires RecordsPlan(e, st, inp, p)
    ensures ScheduledAt(inp.cands, fp) == ScheduledAt(st.cands, fp)
  {
    hide Inputs.NextCursor, Plan.All, ScheduledAt;
    TouchingKeepsSchedule(st.cands, e.unique, e.now, fp);
  }

  lemma NextSees(states: seq<State>, events: seq<Event>, s: Settings, jitter: (string, nat) -> real, at: seq<nat>,
                 inps: seq<Inputs>, plans: seq<Plan>, members: set<string>, k: nat, fp: string)
    requires Run(states, events, s, jitter) && InHistory(states, events, at, inps, plans, members)
    requires 0 < k < |at| && fp in members
    ensures ScheduledAt(inps[k].cands, fp) == ScheduledAfter(inps[k - 1], plans[k - 1], fp)
    ensures inps[k - 1].now < inps[k].now
  {
    hide Step, ScheduledAt, Plan.All, Fps, InputsOf, Inputs.NextCursor;
    var i, j := at[k - 1], at[k];
    assert Quiet(states, events, i, j, members) && i + 1 <= j;
    SeenAs(events[i], states[i], inps[k - 1], plans[k - 1], fp);
    SeenAs(events[j], states[j], inps[k], plans[k], fp);
    QuietKeepsSchedule(states, events, s, jitter, i, j, j, members, fp);
    StepSchedules(states[i], events[i], states[i + 1], s, jitter, fp);
  }

  lemma FirstSees(states: seq<State>, events: seq<Event>, s: Settings, jitter: (string, nat) -> real, at: seq<nat>,
                  inps: seq<Inputs>, plans: seq<Plan>, members: set<string>, fp: string)
    requires Run(states, events, s, jitter) && InHistory(states, events, at, inps, plans, members) && at != []
    ensures ScheduledAt(inps[0].cands, fp) < inps[0].now
  {
    hide Step, Quiet, ScheduledAt, InputsOf, Inputs.NextCursor;
    SeenAs(events[at[0]], states[at[0]], inps[0], plans[0], fp);
    ScheduledInThePast(states, events, s, jitter, at[0], inps[0].now, fp);
  }

  lemma InStep(states: seq<State>, events: seq<Event>, at: seq<nat>, inps: seq<Inputs>, plans: seq<Plan>,
               members: set<string>)
    requires |states| == |events| + 1 && InHistory(states, events, at, inps, plans, members)
    ensures |at| == |inps| == |plans|
  {
  }

  /** Runs of the scheduler's history see what the runs before them recorded. */
  lemma HistoryIsSuccession(states: seq<State>, events: seq<Event>, s: Settings, jitter: (string, nat) -> real,
                            at: seq<nat>, inps: seq<Inputs>, plans: seq<Plan>, members: set<string>)
    requires Run(states, events, s, jitter) && InHistory(states, events, at, inps, plans, members)
    requires Plans(inps, plans) && members != {}
    ensures Succession(inps, plans, members)
  {
    hide Plans, Step, InHistory, ScheduledAt, ScheduledAfter;
    InStep(states, events, at, inps, plans, members);
    var m :| m in members;
    forall k | 0 < k < |inps| ensures inps[k - 1].now < inps[k].now {
      NextSees(states, events, s, jitter, at, inps, plans, members, k, m);
    }
    forall k, fp | 0 < k < |inps| && fp in members
      ensures ScheduledAt(inps[k].cands, fp) == ScheduledAfter(inps[k - 1], plans[k - 1], fp)
    {
      NextSees(states, events, s, jitter, at, inps, plans, members, k, fp);
    }
    forall fp | fp in members && |inps| > 0 ensures ScheduledAt(inps[0].cands, fp) < inps[0].now {
      FirstSees(states, events, s, jitter, at, inps, plans, members, fp);
    }
  }

  /** No starvation: in every history, consecutive recorded runs, m of which see the source's m candidates and
      explore some of them, schedule every one of the m. */
  lemma NoStarvation(states: seq<State>, events: seq<Event>, s: Settings, jitter: (string, nat) -> real, at: seq<nat>,
                     inps: seq<Inputs>, plans: seq<Plan>, src: string, members: set<string>, c: string)
    requires Run(states, events, s, jitter) && InHistory(states, events, at, inps, plans, members)
    requires Plans(inps, plans) && Serving(inps, plans, src, members, |inps|) >= |members| && c in members
    ensures exists k :: 0 <= k < |at| && c in Fps(events[at[k]].picked)
  {
    hide Step, InHistory, Succession, Serving, IsPlan, Inputs.Valid, Plan.All, Fps;
    HistoryIsSuccession(states, events, s, jitter, at, inps, plans, members);
    EveryoneIsServed(inps, plans, src, members, c);
    var k :| 0 <= k < |plans| && c in Fps(plans[k].All());
    PickedInHistory(states, events, at, inps, plans, members, k);
  }

  lemma PickedInHistory(states: seq<State>, events: seq<Event>, at: seq<nat>, inps: seq<Inputs>, plans: seq<Plan>,
                        members: set<string>, k: nat)
    requires |states| == |events| + 1 && InHistory(states, events, at, inps, plans, members) && k < |plans|
    ensures k < |at| && events[at[k]].Scheduling? && events[at[k]].picked == plans[k].All()
  {
    hide Quiet, InputsOf, Inputs.NextCursor, Plan.All;
    assert RecordsPlan(events[at[k]], states[at[k]], inps[k], plans[k]);
  }
}
