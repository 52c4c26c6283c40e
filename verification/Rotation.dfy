/** The exploration cursor takes every source in turn, so no source waits for ever, nor any of its candidates. */
module Rotation {
  import opened Collections
  import opened SchedulerModel
  import opened SchedulerTheorems
  import opened SchedulerState
  import opened Starvation

  // ---- The order of the sources ----

  lemma {:induction false} StrTotal(a: string, b: string)
    ensures StrLe(a, b) || StrLe(b, a)
    ensures StrLe(a, b) && StrLe(b, a) ==> a == b
  {
    if a != "" && b != "" && a[0] == b[0] {
      StrTotal(a[1..], b[1..]);
      assert a == [a[0]] + a[1..] && b == [b[0]] + b[1..];
    }
  }

  lemma {:induction false} StrTransitive(a: string, b: string, c: string)
    requires StrLe(a, b) && StrLe(b, c)
    ensures StrLe(a, c)
  {
    if a != "" && b != "" && c != "" && a[0] == b[0] == c[0] {
      StrTransitive(a[1..], b[1..], c[1..]);
    }
  }

  lemma StrOrder(names: seq<string>)
    ensures TotalPreorderOn(names, StrLe)
  {
    forall a, b | a in names && b in names ensures StrLe(a, b) || StrLe(b, a) {
      StrTotal(a, b);
    }
    forall a, b, c | a in names && b in names && c in names && StrLe(a, b) && StrLe(b, c) ensures StrLe(a, c) {
      StrTransitive(a, b, c);
    }
  }

  /** The order of the sources is the lexicographic one. */
  lemma {:induction false} StrLeIsLexicographic(a: string, b: string)
    ensures StrLe(a, b) <==> a <= b || exists i :: FirstSmaller(a, b, i)
  {
    if a != "" && b != "" {
      if a[0] < b[0] {
        assert FirstSmaller(a, b, 0);
      } else if a[0] == b[0] {
        StrLeIsLexicographic(a[1..], b[1..]);
        SmallerInRest(a, b);
        assert a == [a[0]] + a[1..] && b == [b[0]] + b[1..];
      }
    }
  }

  lemma SmallerInRest(a: string, b: string)
    requires a != "" && b != "" && a[0] == b[0]
    ensures (exists i :: FirstSmaller(a, b, i)) <==> exists i :: FirstSmaller(a[1..], b[1..], i)
  {
    if i :| FirstSmaller(a[1..], b[1..], i) {
      forall j | 0 <= j < i + 1 ensures a[j] == b[j] {
        assert j > 0 ==> a[1..][j - 1] == a[j] && b[1..][j - 1] == b[j];
      }
      assert FirstSmaller(a, b, i + 1);
    }
    if i :| FirstSmaller(a, b, i) {
      assert FirstSmaller(a[1..], b[1..], i - 1);
    }
  }

  predicate FirstSmaller(a: string, b: string, i: int) {
    0 <= i < |a| && i < |b| && a[i] < b[i] && forall j :: 0 <= j < i ==> a[j] == b[j]
  }

  /** `order` lists `names` once each, sorted. */
  ghost predicate Lists(order: seq<string>, names: set<string>) {
    && DistinctNames(order) && SortedBy(order, StrLe)
    && forall s :: s in order <==> s in names
  }

  lemma FirstIsLeast(order: seq<string>, names: set<string>, s: string)
    requires Lists(order, names) && s in names
    ensures StrLe(order[0], s)
  {
    var i :| 0 <= i < |order| && order[i] == s;
    StrTotal(s, s);
  }

  lemma DropFirst(order: seq<string>, names: set<string>)
    requires Lists(order, names) && order != []
    ensures Lists(order[1..], names - {order[0]})
  {
    assert order == [order[0]] + order[1..];
  }

  lemma EmptyIff(order: seq<string>, names: set<string>)
    requires Lists(order, names)
    ensures order == [] <==> names == {}
  {
    if order != [] {
      assert order[0] in names;
    }
  }

  lemma {:induction false} OneOrder(a: seq<string>, b: seq<string>, names: set<string>)
    requires Lists(a, names) && Lists(b, names)
    ensures a == b
  {
    EmptyIff(a, names);
    EmptyIff(b, names);
    if names != {} {
      assert a[0] in names && b[0] in names;
      FirstIsLeast(a, names, b[0]);
      FirstIsLeast(b, names, a[0]);
      StrTotal(a[0], b[0]);
      DropFirst(a, names);
      DropFirst(b, names);
      OneOrder(a[1..], b[1..], names - {a[0]});
      assert a == [a[0]] + a[1..] && b == [b[0]] + b[1..];
    }
  }

  lemma OrderSize(order: seq<string>, names: set<string>)
    requires Lists(order, names)
    ensures |order| == |names|
  {
    NamesSize(order);
    assert (set fp | fp in order) == names;
  }

  // ---- One run ----

  /** The sources a run explores. */
  function SourceSet(inp: Inputs, p: Plan): set<string> { set s | s in SourcesOf(inp.Remaining(p.deficit)) }

  /** The run has budget and sources left for exploration. */
  predicate Reaches(inp: Inputs, p: Plan) {
    |p.refresh| + |p.deficit| < inp.limit && SourceSet(inp, p) != {}
  }

  function Order(inp: Inputs, p: Plan): seq<string> { StableSort(SourcesOf(inp.Remaining(p.deficit)), StrLe) }

  lemma OrderLists(inp: Inputs, p: Plan)
    ensures Lists(Order(inp, p), SourceSet(inp, p))
  {
    var names := SourcesOf(inp.Remaining(p.deficit));
    hide Inputs.Remaining, SourcesOf;
    StrOrder(names);
    SortSorted(names, StrLe);
    SortMembers(names, StrLe);
    NamesDistinct(names, Order(inp, p));
  }

  /** The run starts exploring at the cursor, and moves it on by one, past the end back to the start. */
  lemma CursorTurns(inp: Inputs, p: Plan, order: seq<string>)
    requires order == Order(inp, p) && order != []
    ensures inp.Rotated(p.deficit) != [] && inp.Rotated(p.deficit)[0] == order[inp.cursor % |order|]
    ensures |inp.Rotated(p.deficit)| == |order|
  {
    hide SourcesOf, Inputs.Remaining, StableSort;
  }

  lemma NextTurn(inp: Inputs, p: Plan, order: seq<string>)
    requires order == Order(inp, p) && (Reaches(inp, p) ==> order != [])
    ensures inp.NextCursor(p) == if Reaches(inp, p) then (inp.cursor % |order| + 1) % |order| else inp.cursor
  {
    hide SourceSet, Inputs.Rotated, Lists, Order;
    if order != [] {
      CursorTurns(inp, p, order);
    } else {
      NothingRotates(inp, p);
    }
    OrderEmptyIff(inp, p);
  }

  lemma OrderEmptyIff(inp: Inputs, p: Plan)
    ensures Order(inp, p) == [] <==> SourceSet(inp, p) == {}
  {
    hide Order, SourceSet, Lists;
    OrderLists(inp, p);
    EmptyIff(Order(inp, p), SourceSet(inp, p));
  }

  lemma NothingRotates(inp: Inputs, p: Plan)
    requires Order(inp, p) == []
    ensures inp.Rotated(p.deficit) == []
  {
    hide SourcesOf, Inputs.Remaining, StableSort;
  }

  /** The source under the cursor is explored whenever exploration is reached. */
  lemma CursorIsServed(inp: Inputs, p: Plan, order: seq<string>)
    requires inp.Valid() && IsPlan(inp, p) && Reaches(inp, p) && order == Order(inp, p) && order != []
    ensures OfSource(p.explore, order[inp.cursor % |order|]) != []
  {
    hide IsPlan, Inputs.Queues, Inputs.Rotated, Inputs.Weights, Order, Inputs.Valid;
    CursorTurns(inp, p, order);
    PlanExplores(inp, p);
    var first := inp.Rotated(p.deficit)[0];
    assert first in inp.Rotated(p.deficit);
    RotatedMembers(inp, p.deficit, first);
    forall n {
      QueueMembers(inp, p.deficit, first, n);
    }
    QueueIsNonEmpty(inp, p.deficit, first);
    FirstIsServed(inp.Queues(p.deficit), inp.Rotated(p.deficit), inp.Weights(p.deficit),
                  inp.limit - |p.refresh| - |p.deficit|, p.explore, p.rounds);
  }

  /** The first picks take one node of each source in the sorted order, from the cursor on and round. */
  lemma FirstRoundInOrder(inp: Inputs, p: Plan, order: seq<string>, i: nat)
    requires inp.Valid() && IsPlan(inp, p) && Lists(order, SourceSet(inp, p)) && i < |order| && i < |p.explore|
    ensures p.explore[i].src == order[(inp.cursor % |order| + i) % |order|]
  {
    hide IsPlan, Inputs.Queues, Inputs.Rotated, Inputs.Weights, Order, Inputs.Valid, SourceSet;
    OrderLists(inp, p);
    OneOrder(order, Order(inp, p), SourceSet(inp, p));
    PlanExplores(inp, p);
    OpeningIs(inp.Queues(p.deficit), inp.Rotated(p.deficit), inp.Weights(p.deficit),
              inp.limit - |p.refresh| - |p.deficit|, p.explore, p.rounds, i);
    RotatedAt(inp, p, order, i);
    var s := inp.Rotated(p.deficit)[i];
    QueueMembers(inp, p.deficit, s, inp.Queues(p.deficit)[s][0]);
  }

  lemma OpeningIs(queues: map<string, seq<Node>>, rotated: seq<string>, weights: map<string, nat>,
                  budget: int, picks: seq<Node>, rounds: nat, i: nat)
    requires IsExploration(queues, rotated, weights, budget, picks, rounds) && i < |picks|
    ensures i < |rotated| ==> rotated[i] in queues && queues[rotated[i]] != [] && picks[i] == queues[rotated[i]][0]
  {
  }

  lemma RotatedAt(inp: Inputs, p: Plan, order: seq<string>, i: nat)
    requires order == Order(inp, p) && i < |order|
    ensures |inp.Rotated(p.deficit)| == |order|
    ensures inp.Rotated(p.deficit)[i] == order[(inp.cursor % |order| + i) % |order|]
  {
    hide SourcesOf, Inputs.Remaining, StableSort;
    Wraps(inp.cursor % |order|, i, |order|);
  }

  lemma Wraps(c: nat, i: nat, n: nat)
    requires c < n && i < n
    ensures (c + i) % n == if c + i < n then c + i else c + i - n
  {
    if c + i >= n {
      assert (c + i) == (c + i - n) + n;
    }
  }

  lemma QueueIsNonEmpty(inp: Inputs, deficit: seq<Node>, src: string)
    requires src in inp.Queues(deficit)
    ensures inp.Queues(deficit)[src] != []
  {
    hide Inputs.Remaining;
    var n :| n in inp.Remaining(deficit) && n.src == src;
    QueueMembers(inp, deficit, src, n);
  }

  lemma FirstIsServed(queues: map<string, seq<Node>>, rotated: seq<string>, weights: map<string, nat>,
                      budget: int, picks: seq<Node>, rounds: nat)
    requires IsExploration(queues, rotated, weights, budget, picks, rounds) && budget > 0
    requires rotated != [] && rotated[0] in queues && queues[rotated[0]] != []
    requires forall n :: n in queues[rotated[0]] ==> n.src == rotated[0]
    ensures OfSource(picks, rotated[0]) != []
  {
    if picks == [] {
      assert OfSource(picks, rotated[0]) == queues[rotated[0]];
    } else {
      assert picks[0] in OfSource(picks, rotated[0]);
    }
  }

  // ---- Successive runs ----

  /** How many of the first `k` runs reach exploration. */
  function Reaching(inps: seq<Inputs>, plans: seq<Plan>, k: nat): nat
    requires k <= |inps| == |plans|
  {
    if k == 0 then 0 else Reaching(inps, plans, k - 1) + if Reaches(inps[k - 1], plans[k - 1]) then 1 else 0
  }

  /** Every run starts from the cursor the one before left. */
  ghost predicate Turning(inps: seq<Inputs>, plans: seq<Plan>) {
    && |inps| == |plans|
    && forall k :: 0 < k < |inps| ==> inps[k].cursor == inps[k - 1].NextCursor(plans[k - 1])
  }

  /** Whenever exploration is reached, the sources and the candidates of `src` are the same. */
  ghost predicate Stable(inps: seq<Inputs>, plans: seq<Plan>, sources: set<string>, src: string, members: set<string>) {
    && |inps| == |plans|
    && forall k :: 0 <= k < |inps| && Reaches(inps[k], plans[k]) ==>
         SourceSet(inps[k], plans[k]) == sources && Members(inps[k], src) == members
  }

  function CursorAt(inps: seq<Inputs>, plans: seq<Plan>, k: nat): nat
    requires k <= |inps| == |plans|
  {
    if k == 0 then if inps == [] then 0 else inps[0].cursor else inps[k - 1].NextCursor(plans[k - 1])
  }

  /** How far the cursor `pos` is before `target` on a round of `n`. */
  function Distance(pos: nat, target: nat, n: nat): (d: nat)
    requires pos < n && target < n
    ensures d < n
  {
    if pos <= target then target - pos else n - pos + target
  }

  lemma Turn(pos: nat, target: nat, n: nat)
    requires pos < n && target < n
    ensures (pos + 1) % n < n && ((pos + 1) % n) % n == (pos + 1) % n
    ensures Distance((pos + 1) % n, target, n) == if pos == target then n - 1 else Distance(pos, target, n) - 1
  {
    if pos + 1 == n {
      assert (pos + 1) % n == 0;
    } else {
      assert (pos + 1) % n == pos + 1;
    }
  }

  /** The cursor comes round to `order[target]` at least every `n` runs that reach exploration. */
  lemma {:induction false} Laps(inps: seq<Inputs>, plans: seq<Plan>, sources: set<string>, src: string,
                                members: set<string>, order: seq<string>, target: nat, k: nat)
    requires Turning(inps, plans) && Plans(inps, plans) && Stable(inps, plans, sources, src, members)
    requires Lists(order, sources) && target < |order| && order[target] == src && k <= |inps|
    ensures Reaching(inps, plans, k) + Distance(CursorAt(inps, plans, k) % |order|, target, |order|)
         <= |order| * Serving(inps, plans, src, members, k) + |order| - 1
  {
    hide Plans, Stable, Lists, Reaches, Serves, Inputs.NextCursor, Members;
    if k > 0 {
      Laps(inps, plans, sources, src, members, order, target, k - 1);
      assert CursorAt(inps, plans, k - 1) == inps[k - 1].cursor;
      Lap(inps, plans, sources, src, members, order, target, k - 1);
      Grows(|order|, Serving(inps, plans, src, members, k - 1), Serving(inps, plans, src, members, k));
    }
  }

  lemma Grows(n: nat, a: nat, b: nat)
    requires a <= b <= a + 1
    ensures n * b == n * a + if a == b then 0 else n
  {
  }

  /** One run: the cursor either rests or moves on by one, and where it was is served. */
  lemma Lap(inps: seq<Inputs>, plans: seq<Plan>, sources: set<string>, src: string, members: set<string>,
            order: seq<string>, target: nat, j: nat)
    requires Plans(inps, plans) && Stable(inps, plans, sources, src, members) && j < |inps| == |plans|
    requires Lists(order, sources) && target < |order| && order[target] == src
    ensures var n := |order|; var pos, next := inps[j].cursor % n, inps[j].NextCursor(plans[j]) % n;
      if !Reaches(inps[j], plans[j]) then next == pos
      else
        && Distance(next, target, n) == (if pos == target then n - 1 else Distance(pos, target, n) - 1)
        && (pos == target ==> Serves(inps[j], plans[j], src, members))
  {
    hide Lists, Inputs.NextCursor, Members, Order, SourceSet, Reaches, IsPlan, Inputs.Valid;
    var inp, p := inps[j], plans[j];
    OrderLists(inp, p);
    OrderEmptyIff(inp, p);
    ReachesSomething(inp, p);
    NextTurn(inp, p, Order(inp, p));
    if Reaches(inp, p) {
      OneOrder(order, Order(inp, p), sources);
      Turn(inp.cursor % |order|, target, |order|);
      CursorIsServed(inp, p, order);
    }
  }

  lemma ReachesSomething(inp: Inputs, p: Plan)
    ensures Reaches(inp, p) ==> SourceSet(inp, p) != {}
  {
  }

  /** In n runs for each of the m members that reach exploration, the source is served m times. */
  lemma ServedOften(inps: seq<Inputs>, plans: seq<Plan>, sources: set<string>, src: string, members: set<string>)
    requires Turning(inps, plans) && Plans(inps, plans) && Stable(inps, plans, sources, src, members) && src in sources
    requires Reaching(inps, plans, |inps|) >= |sources| * |members|
    ensures Serving(inps, plans, src, members, |inps|) >= |members|
  {
    hide Plans, Stable, Members, Serves, Reaches, CursorAt, Inputs.NextCursor;
    if members != {} {
      SomeSource(sources, src, members);
      var j := SomeReach(inps, plans, |inps|);
      OrderOfReach(inps, plans, sources, src, members, j);
      var order := Order(inps[j], plans[j]);
      hide Order, Lists, Reaching, Serving;
      OrderSize(order, sources);
      var target := PositionIn(order, sources, src);
      Laps(inps, plans, sources, src, members, order, target, |inps|);
      Enough(|order|, |members|, Serving(inps, plans, src, members, |inps|));
    }
  }

  lemma Enough(n: nat, m: nat, served: nat)
    requires n * m <= n * served + n - 1
    ensures served >= m
  {
    if served < m {
      Times(n, served + 1, m);
    }
  }

  lemma Times(n: nat, a: nat, b: nat)
    requires a <= b
    ensures n * a <= n * b
  {
    assert n * (b - a) >= 0;
  }

  lemma SomeSource(sources: set<string>, src: string, members: set<string>)
    requires src in sources && members != {}
    ensures |sources| * |members| >= 1
  {
    SubsetSize({src}, sources);
    assert |members| >= 1;
  }

  lemma PositionIn(order: seq<string>, names: set<string>, s: string) returns (i: nat)
    requires Lists(order, names) && s in names
    ensures i < |order| && order[i] == s
  {
    i :| 0 <= i < |order| && order[i] == s;
  }

  lemma {:induction false} SomeReach(inps: seq<Inputs>, plans: seq<Plan>, k: nat) returns (j: nat)
    requires k <= |inps| == |plans| && Reaching(inps, plans, k) >= 1
    ensures j < k && Reaches(inps[j], plans[j])
  {
    hide Reaches;
    if Reaches(inps[k - 1], plans[k - 1]) {
      j := k - 1;
    } else {
      j := SomeReach(inps, plans, k - 1);
    }
  }

  lemma OrderOfReach(inps: seq<Inputs>, plans: seq<Plan>, sources: set<string>, src: string, members: set<string>,
                     j: nat)
    requires Stable(inps, plans, sources, src, members) && j < |inps| && Reaches(inps[j], plans[j])
    ensures Lists(Order(inps[j], plans[j]), sources)
  {
    hide Reaches, Order, Lists, SourceSet, Members;
    OrderLists(inps[j], plans[j]);
  }

  // ---- Within the history ----

  lemma {:induction false} QuietKeepsCursor(states: seq<State>, events: seq<Event>, s: Settings,
                                            jitter: (string, nat) -> real, i: nat, j: nat, k: nat,
                                            members: set<string>)
    requires Run(states, events, s, jitter) && Quiet(states, events, i, j, members) && i < k <= j
    ensures states[k].cursor == states[i + 1].cursor
  {
    if i + 1 < k {
      QuietKeepsCursor(states, events, s, jitter, i, j, k - 1, members);
      assert Step(states[k - 1], events[k - 1], states[k - 1 + 1], s, jitter);
      StepCursor(states[k - 1], events[k - 1], states[k], s, jitter);
    }
  }

  lemma StepCursor(st: State, e: Event, st': State, s: Settings, jitter: (string, nat) -> real)
    requires Step(st, e, st', s, jitter)
    ensures st'.cursor == if Records(e) then e.cursor else st.cursor
  {
  }

  lemma HistoryTurns(states: seq<State>, events: seq<Event>, s: Settings, jitter: (string, nat) -> real, at: seq<nat>,
                     inps: seq<Inputs>, plans: seq<Plan>, members: set<string>)
    requires Run(states, events, s, jitter) && InHistory(states, events, at, inps, plans, members)
    ensures Turning(inps, plans)
  {
    hide Step, InputsOf, Inputs.NextCursor, Plan.All, ClockAdvances;
    forall k | 0 < k < |inps| ensures inps[k].cursor == inps[k - 1].NextCursor(plans[k - 1]) {
      var i, j := at[k - 1], at[k];
      assert Quiet(states, events, i, j, members);
      assert RecordsPlan(events[i], states[i], inps[k - 1], plans[k - 1]);
      assert RecordsPlan(events[j], states[j], inps[k], plans[k]);
      QuietKeepsCursor(states, events, s, jitter, i, j, j, members);
      StepCursor(states[i], events[i], states[i + 1], s, jitter);
    }
  }

  /** No source starves, nor any of its candidates: while n sources are explored and one of them has the same m
      candidates, any consecutive recorded runs of the history, n * m of which reach exploration, schedule every
      one of the m, however small the budget. */
  lemma NoSourceStarves(states: seq<State>, events: seq<Event>, s: Settings, jitter: (string, nat) -> real,
                        at: seq<nat>, inps: seq<Inputs>, plans: seq<Plan>, sources: set<string>, src: string,
                        members: set<string>, c: string)
    requires Run(states, events, s, jitter) && InHistory(states, events, at, inps, plans, members)
    requires Plans(inps, plans) && Stable(inps, plans, sources, src, members) && src in sources && c in members
    requires Reaching(inps, plans, |inps|) >= |sources| * |members|
    ensures exists k :: 0 <= k < |at| && c in Fps(events[at[k]].picked)
  {
    hide *;
    HistoryTurns(states, events, s, jitter, at, inps, plans, members);
    ServedOften(inps, plans, sources, src, members);
    NoStarvation(states, events, s, jitter, at, inps, plans, src, members, c);
  }
}
