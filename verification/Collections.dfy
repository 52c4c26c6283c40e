/** Sequence helpers shared by the models: filtering, capped prefixes and a stable sort. */
module Collections {

  datatype Option<+T> = None | Some(value: T)

  function Min(a: int, b: int): int { if a <= b then a else b }

  function Max(a: int, b: int): int { if a >= b then a else b }

  /** The first `k` elements, or as many as there are; nothing for a negative `k`. */
  function Take<T>(s: seq<T>, k: int): (r: seq<T>)
    ensures |r| == Min(Max(0, k), |s|)
  {
    if k <= 0 then [] else if k >= |s| then s else s[..k]
  }

  function Filter<T(!new)>(s: seq<T>, p: T -> bool): (r: seq<T>)
    ensures forall x :: x in r <==> x in s && p(x)
    ensures |r| <= |s|
  {
    if s == [] then []
    else
      var rest := Filter(s[..|s| - 1], p);
      if p(s[|s| - 1]) then rest + [s[|s| - 1]] else rest
  }

  lemma FilterAppend<T(!new)>(s: seq<T>, x: T, p: T -> bool)
    ensures Filter(s + [x], p) == if p(x) then Filter(s, p) + [x] else Filter(s, p)
  {
    assert (s + [x])[..|s|] == s;
  }

  lemma FilterExtend<T(!new)>(s: seq<T>, i: nat, p: T -> bool)
    requires i < |s|
    ensures Filter(s[..i + 1], p) == if p(s[i]) then Filter(s[..i], p) + [s[i]] else Filter(s[..i], p)
  {
    assert s[..i + 1] == s[..i] + [s[i]];
    FilterAppend(s[..i], s[i], p);
  }

  lemma {:induction false} FilterConcat<T(!new)>(a: seq<T>, b: seq<T>, p: T -> bool)
    ensures Filter(a + b, p) == Filter(a, p) + Filter(b, p)
  {
    if b == [] {
      assert a + b == a;
    } else {
      var init := b[..|b| - 1];
      assert a + b == (a + init) + [b[|b| - 1]];
      FilterAppend(a + init, b[|b| - 1], p);
      FilterConcat(a, init, p);
    }
  }

  lemma {:induction false} FilterAll<T(!new)>(s: seq<T>, p: T -> bool)
    requires forall x :: x in s ==> p(x)
    ensures Filter(s, p) == s
  {
    if s != [] {
      FilterAll(s[..|s| - 1], p);
      assert s == s[..|s| - 1] + [s[|s| - 1]];
    }
  }

  lemma {:induction false} FilterNone<T(!new)>(s: seq<T>, p: T -> bool)
    requires forall x :: x in s ==> !p(x)
    ensures Filter(s, p) == []
  {
    if s != [] {
      FilterNone(s[..|s| - 1], p);
    }
  }

  lemma {:induction false} FilterCount<T(!new)>(s: seq<T>, p: T -> bool, x: T)
    ensures multiset(Filter(s, p))[x] == if p(x) then multiset(s)[x] else 0
  {
    if s != [] {
      FilterCount(s[..|s| - 1], p, x);
      assert s == s[..|s| - 1] + [s[|s| - 1]];
    }
  }

  lemma TwiceCounts<T>(s: seq<T>, i: nat, j: nat)
    requires i < j < |s| && s[i] == s[j]
    ensures multiset(s)[s[i]] >= 2
  {
    assert s == s[..j] + s[j..];
    assert s[i] in s[..j] && s[i] in s[j..];
  }

  lemma TakePrefix<T>(s: seq<T>, k: int)
    ensures Take(s, k) <= s
  {
  }

  lemma PrefixCount<T>(a: seq<T>, s: seq<T>, x: T)
    requires a <= s
    ensures multiset(a)[x] <= multiset(s)[x]
  {
    assert s == a + s[|a|..];
  }

  /** Taking twice in a row takes a longer prefix. */
  lemma TakeTwice<T>(s: seq<T>, k: int, l: int)
    ensures Take(s, k) + Take(s[|Take(s, k)|..], l) <= s
    ensures |Take(s, k)| + |Take(s[|Take(s, k)|..], l)| == |s|
            ==> Take(s, k) + Take(s[|Take(s, k)|..], l) == s
  {
    var a := Take(s, k);
    var rest := s[|a|..];
    assert s == a + rest;
  }

  /** Appending a capped take of `b` to a capped `a` is a capped take of both. */
  lemma TakeMore<T>(a: seq<T>, b: seq<T>, cap: int, need: nat)
    requires |a| <= Max(0, cap)
    ensures a + Take(b, Min(cap - |a|, need)) == Take(a + Take(b, need), cap)
  {
    var more := Take(b, need);
    assert Take(b, Min(cap - |a|, need)) == Take(more, cap - |a|);
  }

  /** Filters that agree on the elements of `s` agree on `s`. */
  lemma {:induction false} FilterCongruent<T(!new)>(s: seq<T>, p: T -> bool, q: T -> bool)
    requires forall x :: x in s ==> p(x) == q(x)
    ensures Filter(s, p) == Filter(s, q)
  {
    if s != [] {
      FilterCongruent(s[..|s| - 1], p, q);
    }
  }

  // ---- Python's sorted(): insertion sort that keeps equal elements in input order ----

  /** `le` is a total preorder on the elements of `s`. */
  ghost predicate TotalPreorderOn<T>(s: seq<T>, le: (T, T) -> bool) {
    && (forall a, b :: a in s && b in s ==> le(a, b) || le(b, a))
    && (forall a, b, c :: a in s && b in s && c in s && le(a, b) && le(b, c) ==> le(a, c))
  }

  ghost predicate SortedBy<T>(s: seq<T>, le: (T, T) -> bool) {
    forall i, j :: 0 <= i < j < |s| ==> le(s[i], s[j])
  }

  function Insert<T>(x: T, s: seq<T>, le: (T, T) -> bool): (r: seq<T>)
    ensures multiset(r) == multiset(s) + multiset{x}
  {
    if s == [] || le(x, s[0]) then [x] + s
    else
      var r := [s[0]] + Insert(x, s[1..], le);
      assert s == [s[0]] + s[1..];
      r
  }

  function StableSort<T>(s: seq<T>, le: (T, T) -> bool): (r: seq<T>)
    ensures multiset(r) == multiset(s)
    ensures |r| == |s|
  {
    if s == [] then []
    else
      var r := Insert(s[0], StableSort(s[1..], le), le);
      assert s == [s[0]] + s[1..];
      assert |multiset(r)| == |r|;
      r
  }

  lemma SortMembers<T(!new)>(s: seq<T>, le: (T, T) -> bool)
    ensures forall x :: x in StableSort(s, le) <==> x in s
  {
    forall x ensures x in StableSort(s, le) <==> x in s {
      assert x in multiset(StableSort(s, le)) <==> x in multiset(s);
    }
  }

  lemma {:induction false} InsertSorted<T(!new)>(x: T, s: seq<T>, le: (T, T) -> bool)
    requires TotalPreorderOn([x] + s, le) && SortedBy(s, le)
    ensures SortedBy(Insert(x, s, le), le)
  {
    if s != [] {
      var rest := s[1..];
      assert forall j :: 0 <= j < |rest| ==> rest[j] == s[j + 1];
      assert x in [x] + s && forall y :: y in s ==> y in [x] + s;
      assert forall y :: y in [x] + rest ==> y in [x] + s;
      if le(x, s[0]) {
        SortedCons(x, s, le);
      } else {
        InsertSorted(x, rest, le);
        assert le(s[0], x);
        InsertMembers(x, rest, le);
        forall y | y in rest ensures le(s[0], y) {
          var j :| 0 <= j < |rest| && rest[j] == y;
          assert le(s[0], s[j + 1]);
        }
        SortedCons(s[0], Insert(x, rest, le), le);
      }
    }
  }

  lemma InsertMembers<T(!new)>(x: T, s: seq<T>, le: (T, T) -> bool)
    ensures forall y :: y in Insert(x, s, le) ==> y == x || y in s
  {
    forall y | y in Insert(x, s, le) ensures y == x || y in s {
      assert y in multiset(Insert(x, s, le));
    }
  }

  lemma SortedCons<T(!new)>(x: T, s: seq<T>, le: (T, T) -> bool)
    requires SortedBy(s, le)
    requires (forall y :: y in s ==> le(x, y)) || (s != [] && le(x, s[0]) && TotalPreorderOn([x] + s, le))
    ensures SortedBy([x] + s, le)
  {
    forall j | 0 <= j < |s| ensures le(x, s[j]) {
      assert s[j] in s;
      if !(forall y :: y in s ==> le(x, y)) && j > 0 {
        assert x in [x] + s && s[0] in [x] + s && s[j] in [x] + s;
        assert le(s[0], s[j]);
      }
    }
  }

  lemma {:induction false} SortSorted<T(!new)>(s: seq<T>, le: (T, T) -> bool)
    requires TotalPreorderOn(s, le)
    ensures SortedBy(StableSort(s, le), le)
  {
    if s != [] {
      var rest := StableSort(s[1..], le);
      assert forall y :: y in s[1..] ==> y in s;
      SortSorted(s[1..], le);
      SortMembers(s[1..], le);
      assert forall y :: y in [s[0]] + rest ==> y in s;
      InsertSorted(s[0], rest, le);
    }
  }

  lemma InsertSteps<T(!new)>(x: T, s: seq<T>, le: (T, T) -> bool)
    ensures s == [] || le(x, s[0]) ==> Insert(x, s, le) == [x] + s
    ensures !(s == [] || le(x, s[0])) ==> Insert(x, s, le) == [s[0]] + Insert(x, s[1..], le)
  {
  }

  lemma FilterFirst<T(!new)>(x: T, s: seq<T>, p: T -> bool)
    ensures Filter([x] + s, p) == if p(x) then [x] + Filter(s, p) else Filter(s, p)
  {
    FilterConcat([x], s, p);
    FilterOne(x, p);
  }

  lemma {:induction false} InsertStable<T(!new)>(x: T, s: seq<T>, le: (T, T) -> bool, p: T -> bool)
    requires forall y :: y in s && p(x) && p(y) ==> le(x, y)
    ensures Filter(Insert(x, s, le), p) == Filter([x] + s, p)
  {
    hide Insert, Filter;
    InsertSteps(x, s, le);
    if !(s == [] || le(x, s[0])) {
      var first, rest := s[0], s[1..];
      assert s == [first] + rest;
      assert !(p(x) && p(first)) && forall y :: y in rest ==> y in s;
      InsertStable(x, rest, le, p);
      FilterFirst(first, Insert(x, rest, le), p);
      FilterFirst(x, rest, p);
      FilterFirst(first, rest, p);
      FilterFirst(x, s, p);
    }
  }

  lemma FilterOne<T(!new)>(x: T, p: T -> bool)
    ensures Filter([x], p) == if p(x) then [x] else []
  {
    assert [x][..0] == [];
  }

  /** Sorting is stable: elements that are all equal under `le` keep their order. */
  lemma {:induction false} SortStable<T(!new)>(s: seq<T>, le: (T, T) -> bool, p: T -> bool)
    requires forall x, y :: x in s && y in s && p(x) && p(y) ==> le(x, y)
    ensures Filter(StableSort(s, le), p) == Filter(s, p)
  {
    hide Insert, Filter;
    if s != [] {
      var first, rest := s[0], s[1..];
      assert s == [first] + rest;
      assert forall y :: y in rest ==> y in s;
      SortStable(rest, le, p);
      SortMembers(rest, le);
      InsertStable(first, StableSort(rest, le), le, p);
      FilterFirst(first, StableSort(rest, le), p);
      FilterFirst(first, rest, p);
    }
  }

  lemma FilterPrefix<T(!new)>(a: seq<T>, s: seq<T>, p: T -> bool)
    requires a <= s
    ensures Filter(a, p) <= Filter(s, p)
  {
    assert s == a + s[|a|..];
    FilterConcat(a, s[|a|..], p);
  }

  lemma PrefixBefore<T>(a: seq<T>, s: seq<T>, le: (T, T) -> bool, m: T, n: T)
    requires a <= s && SortedBy(s, le) && m in a && n in s && n !in a
    ensures le(m, n)
  {
    var i :| 0 <= i < |a| && a[i] == m;
    var j :| 0 <= j < |s| && s[j] == n;
    assert s[i] == m && j >= |a|;
  }

  lemma SubsetSize<T>(a: set<T>, b: set<T>)
    requires a <= b
    ensures |a| <= |b|
  {
    assert b == a + (b - a);
  }
}
