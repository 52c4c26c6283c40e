/** The sliding-window limiter over one shared, pruned table. */
module RateLimit {
  import opened Collections

  type User = int
  type Action = string

  /** How many calls an action allows per window, and the window in seconds. */
  datatype Rule = Rule(max: nat, window: real)

  function RuleOf(a: Action): (r: Rule)
    ensures r.max >= 1 && r.window > 0.0
  {
    if a == "message" then Rule(5, 60.0)
    else if a == "ref_click" then Rule(10, 86400.0)
    else if a == "ticket" then Rule(3, 3600.0)
    else if a == "promo_apply" then Rule(3, 3600.0)
    else if a == "rating" then Rule(1, 86400.0)
    else if a == "broadcast" then Rule(1, 60.0)
    else if a == "buy" then Rule(10, 60.0)
    else Rule(10, 60.0)
  }

  /** Rows (user, action, time); a row inserted twice is kept once. */
  type Table = set<(User, Action, real)>

  datatype Call = Call(user: User, action: Action, now: real)

  function Pruned(t: Table, c: Call): Table {
    set r | r in t && !(r.1 == c.action && r.2 < c.now - RuleOf(c.action).window)
  }

  /** The recorded times that count against a call. */
  function Recent(t: Table, c: Call): set<real> {
    set r | r in t && r.0 == c.user && r.1 == c.action && r.2 >= c.now - RuleOf(c.action).window :: r.2
  }

  predicate Allows(t: Table, c: Call) { |Recent(Pruned(t, c), c)| < RuleOf(c.action).max }

  function Checked(t: Table, c: Call): Table {
    if Allows(t, c) then Pruned(t, c) + {(c.user, c.action, c.now)} else Pruned(t, c)
  }

  // ---- Runs ----

  function After(calls: seq<Call>): Table {
    if calls == [] then {} else Checked(After(calls[..|calls| - 1]), calls[|calls| - 1])
  }

  predicate AllowedAt(calls: seq<Call>, k: nat)
    requires k < |calls|
  {
    Allows(After(calls[..k]), calls[k])
  }

  ghost predicate InOrder(calls: seq<Call>) {
    forall i, j :: 0 <= i < j < |calls| ==> calls[i].now <= calls[j].now
  }

  /** Call `k` is an allowed one of `u` for `a` within [from, to]. */
  predicate Counted(calls: seq<Call>, k: nat, u: User, a: Action, from: real, to: real)
    requires k < |calls|
  {
    calls[k].user == u && calls[k].action == a && from <= calls[k].now <= to && AllowedAt(calls, k)
  }

  /** The instants of `u`'s allowed calls of `a` within [from, to], from the whole history. */
  function AllowedTimes(calls: seq<Call>, u: User, a: Action, from: real, to: real): set<real> {
    set k | 0 <= k < |calls| && Counted(calls, k, u, a, from, to) :: calls[k].now
  }

  lemma TimesMember(calls: seq<Call>, u: User, a: Action, from: real, to: real, t: real)
    ensures t in AllowedTimes(calls, u, a, from, to) <==>
      exists k :: 0 <= k < |calls| && calls[k].now == t && Counted(calls, k, u, a, from, to)
  {
    hide Counted;
  }

  ghost predicate Logged(calls: seq<Call>, r: (User, Action, real)) {
    exists k :: 0 <= k < |calls| && calls[k] == Call(r.0, r.1, r.2) && AllowedAt(calls, k)
  }

  predicate StillCounts(c: Call, now: real) { c.now >= now - RuleOf(c.action).window }

  /** The table holds allowed calls only, and lost none that can still count at `now`. */
  ghost predicate Faithful(calls: seq<Call>, t: Table, now: real) {
    && (forall r :: r in t ==> Logged(calls, r))
    && (forall k :: 0 <= k < |calls| && AllowedAt(calls, k) && StillCounts(calls[k], now) ==>
          (calls[k].user, calls[k].action, calls[k].now) in t)
  }

  lemma AllowedInPrefix(calls: seq<Call>, n: nat, k: nat)
    requires k < n <= |calls|
    ensures AllowedAt(calls[..n], k) == AllowedAt(calls, k) && calls[..n][k] == calls[k]
  {
    assert calls[..n][..k] == calls[..k];
  }

  lemma LoggedCarries(calls: seq<Call>, n: nat, r: (User, Action, real))
    requires n <= |calls| && Logged(calls[..n], r)
    ensures Logged(calls, r)
  {
    hide AllowedAt;
    var k :| 0 <= k < n && calls[..n][k] == Call(r.0, r.1, r.2) && AllowedAt(calls[..n], k);
    AllowedInPrefix(calls, n, k);
  }

  /** One more call, made at `c.now`, leaves a table that is still faithful at any later moment. */
  lemma StepIsFaithful(calls: seq<Call>, n: nat, t: Table, now: real)
    requires |calls| == n + 1 && calls[n].now <= now
    requires Faithful(calls[..n], t, calls[n].now)
    requires AllowedAt(calls, n) == Allows(t, calls[n])
    ensures Faithful(calls, Checked(t, calls[n]), now)
  {
    hide AllowedAt, Allows, RuleOf;
    var c, after := calls[n], Checked(t, calls[n]);
    forall r | r in after ensures Logged(calls, r) {
      if r in t {
        LoggedCarries(calls, n, r);
      } else {
        assert calls[n] == Call(r.0, r.1, r.2) && AllowedAt(calls, n);
      }
    }
    forall k | 0 <= k < |calls| && AllowedAt(calls, k) && StillCounts(calls[k], now)
      ensures (calls[k].user, calls[k].action, calls[k].now) in after
    {
      if k < n {
        AllowedInPrefix(calls, n, k);
        assert StillCounts(calls[..n][k], c.now);
      }
    }
  }

  lemma {:induction false} TableIsFaithful(calls: seq<Call>, now: real)
    requires InOrder(calls) && forall k :: 0 <= k < |calls| ==> calls[k].now <= now
    ensures Faithful(calls, After(calls), now)
  {
    hide Faithful, Checked, Allows, RuleOf;
    if calls == [] {
      NothingToRemember(now);
    } else {
      var n := |calls| - 1;
      TableIsFaithful(calls[..n], calls[n].now);
      StepIsFaithful(calls, n, After(calls[..n]), now);
    }
  }

  lemma NothingToRemember(now: real)
    ensures Faithful([], {}, now)
  {
  }

  lemma RecentIsAllowedTimes(past: seq<Call>, t: Table, c: Call)
    requires InOrder(past + [c]) && Faithful(past, t, c.now)
    ensures Recent(Pruned(t, c), c) == AllowedTimes(past, c.user, c.action, c.now - RuleOf(c.action).window, c.now)
  {
    hide AllowedAt, RuleOf, AllowedTimes;
    var from := c.now - RuleOf(c.action).window;
    forall x ensures x in Recent(Pruned(t, c), c) <==> x in AllowedTimes(past, c.user, c.action, from, c.now) {
      TimesMember(past, c.user, c.action, from, c.now, x);
      if x in Recent(Pruned(t, c), c) {
        assert (c.user, c.action, x) in t && Logged(past, (c.user, c.action, x));
        var k :| 0 <= k < |past| && past[k] == Call(c.user, c.action, x) && AllowedAt(past, k);
        assert (past + [c])[k] == past[k] && (past + [c])[|past|] == c;
        assert Counted(past, k, c.user, c.action, from, c.now);
      }
      if x in AllowedTimes(past, c.user, c.action, from, c.now) {
        var k :| 0 <= k < |past| && past[k].now == x && Counted(past, k, c.user, c.action, from, c.now);
        assert StillCounts(past[k], c.now);
        assert (c.user, c.action, x) in t;
      }
    }
  }

  /** The pruned table refines the full history: a call is allowed exactly when fewer than `max` instants of
      allowed calls by that user lie in its window, whoever pruned the table meanwhile. */
  lemma RefinesFullHistory(calls: seq<Call>, k: nat)
    requires InOrder(calls) && k < |calls|
    ensures var c := calls[k];
      AllowedAt(calls, k) <==>
        |AllowedTimes(calls[..k], c.user, c.action, c.now - RuleOf(c.action).window, c.now)| < RuleOf(c.action).max
  {
    hide RuleOf, AllowedTimes, Recent, Pruned, After;
    TableIsFaithful(calls[..k], calls[k].now);
    var upTo := calls[..k] + [calls[k]];
    assert forall i, j :: 0 <= i < j <= k ==> upTo[i] == calls[i] && upTo[j] == calls[j];
    RecentIsAllowedTimes(calls[..k], After(calls[..k]), calls[k]);
  }

  /** No interval as long as the window ever holds more than `max` instants of allowed calls by one user. */
  lemma WindowIsNeverExceeded(calls: seq<Call>, u: User, a: Action, from: real)
    requires InOrder(calls)
    ensures |AllowedTimes(calls, u, a, from, from + RuleOf(a).window)| <= RuleOf(a).max
  {
    hide AllowedTimes, RuleOf, AllowedAt;
    var to := from + RuleOf(a).window;
    var times := AllowedTimes(calls, u, a, from, to);
    if times != {} {
      var k := LastInstant(calls, u, a, from, to);
      RefinesFullHistory(calls, k);
      var before := AllowedTimes(calls[..k], u, a, calls[k].now - RuleOf(a).window, calls[k].now);
      forall t | t in times && t != calls[k].now ensures t in before {
        TimesMember(calls, u, a, from, to, t);
        var i :| 0 <= i < |calls| && calls[i].now == t && Counted(calls, i, u, a, from, to);
        AllowedInPrefix(calls, k, i);
        TimesMember(calls[..k], u, a, calls[k].now - RuleOf(a).window, calls[k].now, t);
        assert Counted(calls[..k], i, u, a, calls[k].now - RuleOf(a).window, calls[k].now);
      }
      SubsetSize(times - {calls[k].now}, before);
    }
  }

  lemma AMember<T>(s: set<T>) returns (x: T)
    requires s != {}
    ensures x in s
  {
    x :| x in s;
  }

  /** The last of the allowed calls at the latest instant of the interval. */
  lemma {:induction false} LastInstant(calls: seq<Call>, u: User, a: Action, from: real, to: real) returns (k: nat)
    requires InOrder(calls) && AllowedTimes(calls, u, a, from, to) != {}
    ensures k < |calls| && Counted(calls, k, u, a, from, to)
    ensures forall t :: t in AllowedTimes(calls, u, a, from, to) ==> t <= calls[k].now
    decreases |calls|
  {
    hide AllowedTimes, AllowedAt;
    var times := AllowedTimes(calls, u, a, from, to);
    var t0 := AMember(times);
    TimesMember(calls, u, a, from, to, t0);
    var n := |calls| - 1;
    forall t | t in AllowedTimes(calls, u, a, from, to) ensures t <= calls[n].now {
      TimesMember(calls, u, a, from, to, t);
    }
    if Counted(calls, n, u, a, from, to) {
      k := n;
    } else {
      DropLast(calls, u, a, from, to);
      k := LastInstant(calls[..n], u, a, from, to);
      AllowedInPrefix(calls, n, k);
    }
  }

  lemma DropLast(calls: seq<Call>, u: User, a: Action, from: real, to: real)
    requires calls != [] && !Counted(calls, |calls| - 1, u, a, from, to)
    ensures AllowedTimes(calls[..|calls| - 1], u, a, from, to) == AllowedTimes(calls, u, a, from, to)
  {
    hide AllowedTimes, AllowedAt;
    var n := |calls| - 1;
    forall t ensures t in AllowedTimes(calls[..n], u, a, from, to) <==> t in AllowedTimes(calls, u, a, from, to) {
      TimesMember(calls, u, a, from, to, t);
      TimesMember(calls[..n], u, a, from, to, t);
      forall k | 0 <= k < n ensures Counted(calls[..n], k, u, a, from, to) == Counted(calls, k, u, a, from, to) {
        AllowedInPrefix(calls, n, k);
      }
    }
  }

  // ---- Calls rather than instants ----

  /** How many allowed calls lie within [from, to]. */
  function AllowedCalls(calls: seq<Call>, n: nat, u: User, a: Action, from: real, to: real): nat
    requires n <= |calls|
  {
    if n == 0 then 0
    else AllowedCalls(calls, n - 1, u, a, from, to) + if Counted(calls, n - 1, u, a, from, to) then 1 else 0
  }

  /** A user's calls of one action come at different instants. */
  ghost predicate Spread(calls: seq<Call>, u: User, a: Action) {
    forall i, j ::
      0 <= i < j < |calls| && calls[i].user == u == calls[j].user && calls[i].action == a == calls[j].action ==>
        calls[i].now != calls[j].now
  }

  /** The instants of the counted ones among the first `n` calls. */
  function Instants(calls: seq<Call>, n: nat, u: User, a: Action, from: real, to: real): set<real>
    requires n <= |calls|
  {
    set k | 0 <= k < n && Counted(calls, k, u, a, from, to) :: calls[k].now
  }

  lemma {:induction false} CallsAreInstants(calls: seq<Call>, n: nat, u: User, a: Action, from: real, to: real)
    requires n <= |calls| && Spread(calls, u, a)
    ensures AllowedCalls(calls, n, u, a, from, to) == |Instants(calls, n, u, a, from, to)|
  {
    hide AllowedAt;
    if n > 0 {
      CallsAreInstants(calls, n - 1, u, a, from, to);
      var before, here := Instants(calls, n - 1, u, a, from, to), Instants(calls, n, u, a, from, to);
      if Counted(calls, n - 1, u, a, from, to) {
        assert here == before + {calls[n - 1].now};
        assert calls[n - 1].now !in before;
      } else {
        assert here == before;
      }
    }
  }

  lemma AllInstants(calls: seq<Call>, u: User, a: Action, from: real, to: real)
    ensures Instants(calls, |calls|, u, a, from, to) == AllowedTimes(calls, u, a, from, to)
  {
    hide Counted;
  }

  lemma CountInstants(calls: seq<Call>, u: User, a: Action, from: real, to: real)
    requires Spread(calls, u, a)
    ensures AllowedCalls(calls, |calls|, u, a, from, to) == |AllowedTimes(calls, u, a, from, to)|
  {
    hide *;
    CallsAreInstants(calls, |calls|, u, a, from, to);
    AllInstants(calls, u, a, from, to);
  }

  lemma SpreadPrefix(calls: seq<Call>, n: nat, u: User, a: Action)
    requires n <= |calls| && Spread(calls, u, a)
    ensures Spread(calls[..n], u, a)
  {
  }

  /** With calls at different instants, a call is allowed exactly when fewer than `max` earlier calls by that
      user were allowed within its window. */
  lemma RefinesCallHistory(calls: seq<Call>, k: nat)
    requires InOrder(calls) && k < |calls| && Spread(calls, calls[k].user, calls[k].action)
    ensures var c := calls[k];
      AllowedAt(calls, k) <==>
        AllowedCalls(calls[..k], k, c.user, c.action, c.now - RuleOf(c.action).window, c.now) < RuleOf(c.action).max
  {
    hide *;
    var c := calls[k];
    var from := c.now - RuleOf(c.action).window;
    RefinesFullHistory(calls, k);
    SpreadPrefix(calls, k, c.user, c.action);
    CountInstants(calls[..k], c.user, c.action, from, c.now);
  }

  /** With calls at different instants, no window ever sees more than `max` allowed calls. */
  lemma LimitHolds(calls: seq<Call>, u: User, a: Action, from: real)
    requires InOrder(calls) && Spread(calls, u, a)
    ensures AllowedCalls(calls, |calls|, u, a, from, from + RuleOf(a).window) <= RuleOf(a).max
  {
    CountInstants(calls, u, a, from, from + RuleOf(a).window);
    WindowIsNeverExceeded(calls, u, a, from);
  }

  /** The published limits: five messages a minute, ten referral clicks a day, three tickets and three promo codes an
      hour, one rating a day, one broadcast a minute, and ten a minute of purchases and of anything else. */
  function Published(a: Action): (nat, real) {
    match a
    case "message" => (5, 60.0)
    case "ref_click" => (10, 24.0 * 3600.0)
    case "ticket" => (3, 3600.0)
    case "promo_apply" => (3, 3600.0)
    case "rating" => (1, 24.0 * 3600.0)
    case "broadcast" => (1, 60.0)
    case _ => (10, 60.0)
  }

  /** No user ever exceeds a published limit, and is turned away only for having reached it. */
  lemma PublishedLimitsHold(calls: seq<Call>, u: User, a: Action, from: real, k: nat)
    requires InOrder(calls) && Spread(calls, u, a)
    ensures AllowedCalls(calls, |calls|, u, a, from, from + Published(a).1) <= Published(a).0
    ensures k < |calls| && calls[k].user == u && calls[k].action == a && !AllowedAt(calls, k) ==>
      AllowedCalls(calls[..k], k, u, a, calls[k].now - Published(a).1, calls[k].now) >= Published(a).0
  {
    hide AllowedCalls, AllowedAt;
    assert Published(a) == (RuleOf(a).max, RuleOf(a).window);
    LimitHolds(calls, u, a, from);
    if k < |calls| && calls[k].user == u && calls[k].action == a {
      RefinesCallHistory(calls, k);
    }
  }

  /** A call at an instant that is recorded already and still counts uses nothing up: it is allowed as often as
      it is repeated, unless the limit was reached before. */
  lemma RepeatedInstantIsFree(t: Table, c: Call)
    requires (c.user, c.action, c.now) in t && Allows(t, c)
    ensures Allows(Checked(t, c), c) && Checked(Checked(t, c), c) == Checked(t, c)
  {
    var p := Pruned(t, c);
    assert (c.user, c.action, c.now) in p;
    assert p + {(c.user, c.action, c.now)} == p;
    assert Pruned(p, c) == p;
  }

  /** The limiter, statement by statement over its table. */
  class RateLimiter {
    var rows: Table

    constructor ()
      ensures rows == {}
    {
      rows := {};
    }

    method Check(c: Call) returns (allowed: bool)
      modifies this
      ensures allowed == Allows(old(rows), c) && rows == Checked(old(rows), c)
    {
      var rule := RuleOf(c.action);
      var cutoff := c.now - rule.window;
      rows := set r | r in rows && !(r.1 == c.action && r.2 < cutoff);
      assert rows == Pruned(old(rows), c);
      var count := |set r | r in rows && r.0 == c.user && r.1 == c.action && r.2 >= cutoff :: r.2|;
      assert count == |Recent(rows, c)|;
      if count >= rule.max {
        return false;
      }
      rows := rows + {(c.user, c.action, c.now)};
      return true;
    }
  }
}
