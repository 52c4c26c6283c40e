/** The state of the weighted round robin and what each pick keeps. */
module Exploration {
  import opened Collections
  import opened SchedulerModel

  type Queues = map<string, seq<Node>>
  type Counts = map<string, nat>

  /** What the round robin starts from: queues of their own source's nodes, served in the order `rotated`,
      and the nodes scheduled before. */
  datatype Tour = Tour(queues: Queues, rotated: seq<string>, weights: Counts, base: seq<Node>, limit: int)

  ghost predicate IsQueue(ns: seq<Node>, src: string, pool: seq<Node>) {
    ns != [] && DistinctFps(ns) && forall n :: n in ns ==> n.src == src && n in pool
  }

  /** `pool` holds all nodes still to be explored, none of them scheduled before. */
  ghost predicate WellFormed(t: Tour, pool: seq<Node>) {
    && DistinctFps(pool)
    && (forall n :: n in pool ==> n.fp !in Fps(t.base))
    && t.queues.Keys == t.weights.Keys
    && (forall s :: s in t.rotated <==> s in t.queues)
    && (forall i, j :: 0 <= i < j < |t.rotated| ==> t.rotated[i] != t.rotated[j])
    && (forall s :: s in t.queues ==> t.weights[s] >= 1 && IsQueue(t.queues[s], s, pool))
    && |t.base| <= t.limit
  }

  /** `q` holds what `picks` left of `q0`, source by source. */
  ghost predicate Popped(q0: Queues, q: Queues, picks: seq<Node>) {
    && q.Keys == q0.Keys
    && (forall n :: n in picks ==> n.src in q0)
    && (forall s :: s in q0 ==> OfSource(picks, s) + q[s] == q0[s])
  }

  /** After `rounds` full rounds, `alloc` counts the picks of the current one. */
  ghost predicate Balanced(q: Queues, picks: seq<Node>, alloc: Counts, w: Counts, rounds: nat) {
    && q.Keys == w.Keys == alloc.Keys
    && (forall s :: s in w ==> Even(|OfSource(picks, s)|, q[s] != [], alloc[s], w[s], rounds))
  }

  predicate Even(count: nat, left: bool, alloc: nat, weight: nat, rounds: nat) {
    alloc <= weight && count <= Granted(rounds, weight) + alloc && (left ==> count == Granted(rounds, weight) + alloc)
  }

  /** What `rounds` full rounds grant a source of this weight. */
  function Granted(rounds: nat, weight: nat): nat {
    if rounds == 0 then 0 else Granted(rounds - 1, weight) + weight
  }

  lemma {:induction false} GrantedIsProduct(rounds: nat, weight: nat)
    ensures Granted(rounds, weight) == rounds * weight
  {
    if rounds > 0 {
      GrantedIsProduct(rounds - 1, weight);
      assert rounds * weight == (rounds - 1) * weight + weight;
    }
  }

  predicate Stuck(q: Queues, alloc: Counts, w: Counts)
    requires q.Keys == w.Keys == alloc.Keys
  {
    forall s :: s in q ==> q[s] == [] || alloc[s] >= w[s]
  }

  ghost predicate Opening(q0: Queues, rotated: seq<string>, picks: seq<Node>) {
    forall i :: 0 <= i < |rotated| && i < |picks| ==>
      rotated[i] in q0 && q0[rotated[i]] != [] && picks[i] == q0[rotated[i]][0]
  }

  ghost predicate Untouched(t: Tour, q: Queues, alloc: Counts, i: nat)
    requires q.Keys == t.queues.Keys == alloc.Keys
  {
    forall k :: i <= k < |t.rotated| && t.rotated[k] in q ==>
      q[t.rotated[k]] == t.queues[t.rotated[k]] && alloc[t.rotated[k]] == 0
  }

  /** The loop state when the current pass has visited the first `i` sources. */
  ghost predicate InPass(t: Tour, pool: seq<Node>, q: Queues, alloc: Counts, picks: seq<Node>, rounds: nat, i: nat) {
    && WellFormed(t, pool)
    && Popped(t.queues, q, picks)
    && Balanced(q, picks, alloc, t.weights, rounds)
    && Opening(t.queues, t.rotated, picks)
    && |t.base| + |picks| <= t.limit
    && (|picks| >= |t.rotated| || |t.base| + |picks| >= t.limit || (|picks| == i && Untouched(t, q, alloc, i)))
  }

  /** What the loops themselves need of the state. */
  lemma PassFacts(t: Tour, pool: seq<Node>, q: Queues, alloc: Counts, picks: seq<Node>, rounds: nat, i: nat)
    requires InPass(t, pool, q, alloc, picks, rounds, i)
    ensures q.Keys == alloc.Keys == t.weights.Keys && |t.base| + |picks| <= t.limit
    ensures forall k :: 0 <= k < |t.rotated| ==> t.rotated[k] in q
  {
  }

  // ---- Single steps ----

  lemma PickedPosition(q0: Queues, q: Queues, picks: seq<Node>, p: Node) returns (j: nat)
    requires Popped(q0, q, picks) && p in picks
    ensures p.src in q0 && j < |OfSource(picks, p.src)| <= |q0[p.src]| && q0[p.src][j] == p
  {
    var served := OfSource(picks, p.src);
    assert p in served;
    j :| j < |served| && served[j] == p;
    assert q0[p.src] == served + q[p.src];
  }

  /** The head of a queue was not scheduled yet. */
  lemma HeadIsNew(t: Tour, pool: seq<Node>, q: Queues, picks: seq<Node>, s: string)
    requires WellFormed(t, pool) && Popped(t.queues, q, picks) && s in q && q[s] != []
    ensures q[s][0].fp !in Fps(t.base + picks) && q[s][0].src == s
  {
    var head, served := q[s][0], OfSource(picks, s);
    assert IsQueue(t.queues[s], s, pool);
    assert t.queues[s] == served + q[s];
    assert t.queues[s][|served|] == head;
    assert head in t.queues[s];
    forall p | p in picks ensures p.fp != head.fp {
      var j := PickedPosition(t.queues, q, picks, p);
      assert IsQueue(t.queues[p.src], p.src, pool);
      assert p in t.queues[p.src];
    }
  }

  lemma MoveHead<T>(a: seq<T>, b: seq<T>)
    requires b != []
    ensures (a + [b[0]]) + b[1..] == a + b
  {
  }

  lemma PickKeepsPopped(q0: Queues, q: Queues, picks: seq<Node>, s: string)
    requires Popped(q0, q, picks) && s in q && q[s] != [] && q[s][0].src == s
    ensures Popped(q0, q[s := q[s][1..]], picks + [q[s][0]])
  {
    var n := q[s][0];
    var q' := q[s := q[s][1..]];
    forall t | t in q0 ensures OfSource(picks + [n], t) + q'[t] == q0[t] {
      FilterAppend(picks, n, FromSource(t));
      MoveHead(OfSource(picks, s), q[s]);
    }
  }

  lemma PickKeepsBalanced(q: Queues, picks: seq<Node>, alloc: Counts, w: Counts, rounds: nat, s: string)
    requires Balanced(q, picks, alloc, w, rounds)
    requires s in q && q[s] != [] && q[s][0].src == s && alloc[s] < w[s]
    ensures Balanced(q[s := q[s][1..]], picks + [q[s][0]], alloc[s := alloc[s] + 1], w, rounds)
  {
    var n := q[s][0];
    forall t | t in w
      ensures Even(|OfSource(picks + [n], t)|, q[s := q[s][1..]][t] != [], alloc[s := alloc[s] + 1][t], w[t], rounds)
    {
      FilterAppend(picks, n, FromSource(t));
      assert Even(|OfSource(picks, t)|, q[t] != [], alloc[t], w[t], rounds);
    }
  }

  lemma ResetKeepsBalanced(q: Queues, picks: seq<Node>, alloc: Counts, alloc': Counts, w: Counts, rounds: nat)
    requires Balanced(q, picks, alloc, w, rounds) && Stuck(q, alloc, w)
    requires alloc'.Keys == w.Keys && forall s :: s in w ==> alloc'[s] == 0
    ensures Balanced(q, picks, alloc', w, rounds + 1)
  {
    forall s | s in w ensures Even(|OfSource(picks, s)|, q[s] != [], alloc'[s], w[s], rounds + 1) {
      assert Even(|OfSource(picks, s)|, q[s] != [], alloc[s], w[s], rounds);
    }
  }

  // ---- Steps of the loop ----

  lemma StartOfPass(t: Tour, pool: seq<Node>, alloc: Counts)
    requires WellFormed(t, pool)
    requires alloc.Keys == t.weights.Keys && forall s :: s in t.weights ==> alloc[s] == 0
    ensures InPass(t, pool, t.queues, alloc, [], 0, 0)
    ensures t.queues.Keys == t.weights.Keys && |t.base| <= t.limit
  {
  }

  lemma VisitPicks(t: Tour, pool: seq<Node>, q: Queues, alloc: Counts, picks: seq<Node>, rounds: nat, i: nat, s: string)
    requires InPass(t, pool, q, alloc, picks, rounds, i)
    requires i < |t.rotated| && s == t.rotated[i] && |t.base| + |picks| < t.limit
    requires s in q && s in alloc && s in t.weights && alloc[s] < t.weights[s] && q[s] != []
    ensures q[s][0].fp !in Fps(t.base + picks)
    ensures InPass(t, pool, q[s := q[s][1..]], alloc[s := alloc[s] + 1], picks + [q[s][0]], rounds, i + 1)
  {
    HeadIsNew(t, pool, q, picks, s);
    PickKeepsPopped(t.queues, q, picks, s);
    PickKeepsBalanced(q, picks, alloc, t.weights, rounds, s);
    OpeningGrows(t, q, alloc, picks, i, s);
  }

  lemma OpeningGrows(t: Tour, q: Queues, alloc: Counts, picks: seq<Node>, i: nat, s: string)
    requires Opening(t.queues, t.rotated, picks) && i < |t.rotated| && s == t.rotated[i] && |t.base| + |picks| < t.limit
    requires q.Keys == t.queues.Keys == alloc.Keys && s in q && q[s] != []
    requires forall k, l :: 0 <= k < l < |t.rotated| ==> t.rotated[k] != t.rotated[l]
    requires |picks| >= |t.rotated| || (|picks| == i && Untouched(t, q, alloc, i))
    ensures Opening(t.queues, t.rotated, picks + [q[s][0]])
    ensures |picks| + 1 >= |t.rotated|
         || (|picks| + 1 == i + 1 && Untouched(t, q[s := q[s][1..]], alloc[s := alloc[s] + 1], i + 1))
  {
    if |picks| < |t.rotated| {
      assert t.rotated[i] in q;
      assert q[s] == t.queues[s];
    }
  }

  /** Passing over a source that is exhausted or has had its weight keeps the state. */
  lemma VisitSkips(t: Tour, pool: seq<Node>, q: Queues, alloc: Counts, picks: seq<Node>, rounds: nat, i: nat, s: string)
    requires InPass(t, pool, q, alloc, picks, rounds, i) && i < |t.rotated| && s == t.rotated[i]
    requires s in q && s in alloc && s in t.weights && (alloc[s] >= t.weights[s] || q[s] == [])
    ensures InPass(t, pool, q, alloc, picks, rounds, i + 1)
  {
    assert IsQueue(t.queues[s], s, pool);
  }

  lemma PassDone(t: Tour, pool: seq<Node>, q: Queues, alloc: Counts, picks: seq<Node>, rounds: nat, i: nat)
    requires InPass(t, pool, q, alloc, picks, rounds, i) && (i == |t.rotated| || |t.base| + |picks| >= t.limit)
    ensures InPass(t, pool, q, alloc, picks, rounds, 0)
  {
  }

  predicate PassedOver(q: Queues, alloc: Counts, w: Counts, s: string) {
    s in q && s in alloc && s in w && (alloc[s] >= w[s] || q[s] == [])
  }

  lemma AllPassedOver(t: Tour, pool: seq<Node>, q: Queues, alloc: Counts, picks: seq<Node>, rounds: nat)
    requires InPass(t, pool, q, alloc, picks, rounds, 0) && q.Keys == alloc.Keys == t.weights.Keys
    requires forall k :: 0 <= k < |t.rotated| ==> PassedOver(q, alloc, t.weights, t.rotated[k])
    ensures Stuck(q, alloc, t.weights)
  {
    forall s | s in q ensures q[s] == [] || alloc[s] >= t.weights[s] {
      var k :| 0 <= k < |t.rotated| && t.rotated[k] == s;
      assert PassedOver(q, alloc, t.weights, t.rotated[k]);
    }
  }

  lemma NextRound(t: Tour, pool: seq<Node>, q: Queues, alloc: Counts, alloc': Counts, picks: seq<Node>, rounds: nat)
    requires InPass(t, pool, q, alloc, picks, rounds, 0)
    requires q.Keys == alloc.Keys == t.weights.Keys && Stuck(q, alloc, t.weights)
    requires alloc'.Keys == t.weights.Keys && forall s :: s in t.weights ==> alloc'[s] == 0
    requires exists s :: s in q && q[s] != []
    ensures InPass(t, pool, q, alloc', picks, rounds + 1, 0)
    ensures !Stuck(q, alloc', t.weights)
  {
    ResetKeepsBalanced(q, picks, alloc, alloc', t.weights, rounds);
  }

  /** At the end, the tracked state gives exactly what an exploration promises. */
  lemma Finished(t: Tour, pool: seq<Node>, q: Queues, alloc: Counts, picks: seq<Node>, rounds: nat)
    requires InPass(t, pool, q, alloc, picks, rounds, 0)
    requires |t.base| + |picks| < t.limit ==> forall s :: s in q ==> q[s] == []
    ensures IsExploration(t.queues, t.rotated, t.weights, t.limit - |t.base|, picks, rounds)
  {
    forall s | s in t.queues
      ensures OfSource(picks, s) <= t.queues[s] && (|t.base| + |picks| < t.limit ==> OfSource(picks, s) == t.queues[s])
      ensures Served(|OfSource(picks, s)|, |t.queues[s]|, t.weights[s], rounds)
    {
      assert OfSource(picks, s) + q[s] == t.queues[s];
      assert Even(|OfSource(picks, s)|, q[s] != [], alloc[s], t.weights[s], rounds);
      GrantedIsProduct(rounds, t.weights[s]);
      assert (rounds + 1) * t.weights[s] == rounds * t.weights[s] + t.weights[s];
    }
  }
}
