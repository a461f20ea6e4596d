/**
 * Generic helpers shared by every part of the model: optional values, the
 * integer reading of JavaScript's Math.round / Math.ceil, order-preserving
 * filtering, an insertion sort under a total preorder, and take-N.
 */
module Basics {

  datatype Option<+T> = None | Some(value: T)

  // ---------------------------------------------------------------------
  // JavaScript rounding on exact rationals
  // ---------------------------------------------------------------------

  /** Math.round(a / b) for b > 0: the nearest integer, halves rounded up. */
  function RoundDiv(a: int, b: int): (r: int)
    requires b > 0
    ensures r * (2 * b) <= 2 * a + b < (r + 1) * (2 * b)
  {
    (2 * a + b) / (2 * b)
  }

  /** Math.ceil(a / b) for b > 0: the least integer not below a / b. */
  function CeilDiv(a: int, b: int): (r: int)
    requires b > 0
    ensures (r - 1) * b < a <= r * b
  {
    -((-a) / b)
  }

  function Abs(x: int): (r: int)
    ensures r >= 0 && (r == x || r == -x)
  {
    if x < 0 then -x else x
  }

  lemma MulLe(x: int, y: int, c: int)
    requires c > 0 && x <= y
    ensures x * c <= y * c
  {
    assert y * c - x * c == (y - x) * c;
  }

  lemma RoundDivBounds(a: int, b: int, lo: int, hi: int)
    requires b > 0 && lo * b <= a <= hi * b
    ensures lo <= RoundDiv(a, b) <= hi
  {
    var r := RoundDiv(a, b);
    if r > hi {
      assert (hi + 1) * (2 * b) == 2 * (hi * b) + 2 * b;
      MulLe(hi + 1, r, 2 * b);
      assert false;
    }
    if r < lo {
      assert lo * (2 * b) == 2 * (lo * b);
      MulLe(r + 1, lo, 2 * b);
      assert false;
    }
  }

  lemma RoundDivExact(k: int, b: int)
    requires b > 0
    ensures RoundDiv(k * b, b) == k
  {
    RoundDivBounds(k * b, b, k, k);
  }

  lemma PercentBounds(a: int, b: int)
    requires b > 0
    ensures 0 <= a <= b ==> 0 <= RoundDiv(100 * a, b) <= 100
    ensures a == b ==> RoundDiv(100 * a, b) == 100
    ensures a == 0 ==> RoundDiv(100 * a, b) == 0
  {
    if 0 <= a <= b { RoundDivBounds(100 * a, b, 0, 100); }
    if a == b { RoundDivExact(100, b); }
    if a == 0 { RoundDivExact(0, b); }
  }

  /**
   * `Math.round(a / b * 100)` guarded by `b > 0`, the percentage used by the
   * statistics and reports (0 when there is nothing to divide by).
   */
  function Percent(a: int, b: int): (r: int)
    ensures b <= 0 ==> r == 0
    ensures b > 0 ==> r * (2 * b) <= 200 * a + b < (r + 1) * (2 * b)
    ensures 0 <= a <= b ==> 0 <= r <= 100
    ensures 0 < a == b ==> r == 100
    ensures 0 == a ==> r == 0
  {
    if b > 0 then
      PercentBounds(a, b);
      RoundDiv(100 * a, b)
    else 0
  }

  // ---------------------------------------------------------------------
  // Order-preserving filter
  // ---------------------------------------------------------------------

  /**
   * The elements of `s` that satisfy `p`, in their original order
   * (JavaScript's Array.prototype.filter, Prisma's `where`).
   */
  function Filter<T(!new)>(s: seq<T>, p: T -> bool): (r: seq<T>)
    ensures |r| <= |s|
    ensures forall i :: 0 <= i < |r| ==> p(r[i])
    decreases |s|
  {
    if s == [] then []
    else
      var rest := Filter(s[1..], p);
      if p(s[0]) then [s[0]] + rest else rest
  }

  /** Each element is kept exactly as often as it occurs, if it satisfies `p`. */
  lemma {:induction false} FilterMultiset<T(!new)>(s: seq<T>, p: T -> bool, x: T)
    ensures multiset(Filter(s, p))[x] == if p(x) then multiset(s)[x] else 0
    decreases |s|
  {
    if s != [] {
      FilterMultiset(s[1..], p, x);
      assert s == [s[0]] + s[1..];
    }
  }

  /** The positions of `s` whose element satisfies `p`. */
  function Positions<T>(s: seq<T>, p: T -> bool): set<int> {
    set i | 0 <= i < |s| && p(s[i])
  }

  /** The length of a filter is the number of positions whose element satisfies `p`. */
  lemma {:induction false} FilterCount<T(!new)>(s: seq<T>, p: T -> bool)
    ensures |Filter(s, p)| == |Positions(s, p)|
    decreases |s|
  {
    var all := Positions(s, p);
    if s == [] {
      assert all == {};
    } else {
      var init, x := s[..|s| - 1], s[|s| - 1];
      assert s == init + [x];
      FilterAppend(init, [x], p);
      FilterCount(init, p);
      var before := Positions(init, p);
      assert Filter([x], p) == if p(x) then [x] else [];
      if p(x) {
        assert all == before + {|init|};
      } else {
        assert all == before;
      }
    }
  }

  lemma FilterMembership<T(!new)>(s: seq<T>, p: T -> bool, x: T)
    ensures x in Filter(s, p) <==> x in s && p(x)
  {
    FilterMultiset(s, p, x);
    assert x in Filter(s, p) <==> multiset(Filter(s, p))[x] > 0;
    assert x in s <==> multiset(s)[x] > 0;
  }

  /** Filtering distributes over concatenation: it keeps the relative order. */
  lemma {:induction false} FilterAppend<T(!new)>(s: seq<T>, t: seq<T>, p: T -> bool)
    ensures Filter(s + t, p) == Filter(s, p) + Filter(t, p)
    decreases |s|
  {
    if s == [] {
      assert s + t == t;
    } else {
      var u := s + t;
      assert u[0] == s[0] && u[1..] == s[1..] + t;
      FilterAppend(s[1..], t, p);
      var head := if p(s[0]) then [s[0]] else [];
      assert Filter(u, p) == head + Filter(u[1..], p);
      assert Filter(s, p) == head + Filter(s[1..], p);
      assert head + (Filter(s[1..], p) + Filter(t, p)) == (head + Filter(s[1..], p)) + Filter(t, p);
    }
  }

  /** A predicate every element satisfies filters nothing out. */
  lemma {:induction false} FilterAll<T(!new)>(s: seq<T>, p: T -> bool)
    requires forall i :: 0 <= i < |s| ==> p(s[i])
    ensures Filter(s, p) == s
    decreases |s|
  {
    if s != [] {
      FilterAll(s[1..], p);
    }
  }

  /** A predicate no element satisfies keeps nothing. */
  lemma {:induction false} FilterNone<T(!new)>(s: seq<T>, p: T -> bool)
    requires forall i :: 0 <= i < |s| ==> !p(s[i])
    ensures Filter(s, p) == []
    decreases |s|
  {
    if s != [] {
      FilterNone(s[1..], p);
    }
  }

  /** Splitting by a predicate and by its negation accounts for every element. */
  lemma {:induction false} FilterPartition<T(!new)>(s: seq<T>, p: T -> bool, q: T -> bool)
    requires forall x :: q(x) == !p(x)
    ensures |Filter(s, p)| + |Filter(s, q)| == |s|
    decreases |s|
  {
    if s != [] {
      FilterPartition(s[1..], p, q);
    }
  }

  /** Filtering a sorted sequence leaves it sorted. */
  lemma {:induction false} FilterSorted<T(!new)>(s: seq<T>, p: T -> bool, le: (T, T) -> bool)
    requires SortedBy(s, le)
    ensures SortedBy(Filter(s, p), le)
    decreases |s|
  {
    if s != [] {
      FilterSorted(s[1..], p, le);
      var rest := Filter(s[1..], p);
      forall y | y in rest ensures le(s[0], y) {
        FilterMembership(s[1..], p, y);
        var k :| 0 <= k < |s[1..]| && s[1..][k] == y;
        assert s[k + 1] == y;
      }
    }
  }

  // ---------------------------------------------------------------------
  // Stable insertion sort under a total preorder
  // ---------------------------------------------------------------------

  ghost predicate TotalPreorder<T(!new)>(le: (T, T) -> bool) {
    && (forall a, b :: le(a, b) || le(b, a))
    && (forall a, b, c :: le(a, b) && le(b, c) ==> le(a, c))
  }

  predicate SortedBy<T>(s: seq<T>, le: (T, T) -> bool) {
    forall i, j :: 0 <= i < j < |s| ==> le(s[i], s[j])
  }

  /** The head of sorted `s` is below every element of `s[1..]` with `x` added, when it is below `x`. */
  lemma HeadBelowRest<T>(s: seq<T>, rest: seq<T>, x: T, le: (T, T) -> bool)
    requires s != [] && SortedBy(s, le) && le(s[0], x)
    requires multiset(rest) == multiset(s[1..]) + multiset{x}
    ensures forall y :: y in rest ==> le(s[0], y)
  {
    forall y | y in rest ensures le(s[0], y) {
      assert y in multiset(rest);
      if y != x {
        assert y in multiset(s[1..]);
        var k :| 0 <= k < |s[1..]| && s[1..][k] == y;
        assert s[k + 1] == y;
      }
    }
  }

  /** Puts `x` into sorted `s` after every element not above it. */
  function Insert<T(!new)>(s: seq<T>, x: T, le: (T, T) -> bool): (r: seq<T>)
    requires TotalPreorder(le) && SortedBy(s, le)
    ensures multiset(r) == multiset(s) + multiset{x}
    ensures |r| == |s| + 1
    ensures SortedBy(r, le)
    decreases |s|
  {
    if s == [] then [x]
    else if le(s[0], x) then
      var rest := Insert(s[1..], x, le);
      assert s == [s[0]] + s[1..];
      HeadBelowRest(s, rest, x, le);
      ConsSorted(s[0], rest, le);
      [s[0]] + rest
    else
      assert le(x, s[0]);
      forall y | y in s ensures le(x, y) {
        var k :| 0 <= k < |s| && s[k] == y;
        assert k == 0 || le(s[0], s[k]);
      }
      ConsSorted(x, s, le);
      [x] + s
  }

  /** Putting an element below everything in front of a sorted sequence keeps it sorted. */
  lemma ConsSorted<T>(h: T, s: seq<T>, le: (T, T) -> bool)
    requires SortedBy(s, le) && forall y :: y in s ==> le(h, y)
    ensures SortedBy([h] + s, le)
  {
    var r := [h] + s;
    forall i, j | 0 <= i < j < |r| ensures le(r[i], r[j]) {
      assert r[j] == s[j - 1];
      if i > 0 {
        assert r[i] == s[i - 1];
      }
    }
  }

  /**
   * Insertion sort of `s` under `le`. Each element is inserted after the
   * elements before it that are not above it, so ties keep their input
   * order; the contract does not state this.
   */
  function SortBy<T(!new)>(s: seq<T>, le: (T, T) -> bool): (r: seq<T>)
    requires TotalPreorder(le)
    ensures multiset(r) == multiset(s)
    ensures |r| == |s|
    ensures SortedBy(r, le)
    decreases |s|
  {
    if s == [] then []
    else
      assert s == s[..|s| - 1] + [s[|s| - 1]];
      Insert(SortBy(s[..|s| - 1], le), s[|s| - 1], le)
  }

  lemma SortByMembership<T(!new)>(s: seq<T>, le: (T, T) -> bool, x: T)
    requires TotalPreorder(le)
    ensures x in SortBy(s, le) <==> x in s
  {
    assert x in SortBy(s, le) <==> x in multiset(SortBy(s, le));
  }

  // ---------------------------------------------------------------------
  // findMany: where + orderBy (+ take)
  // ---------------------------------------------------------------------

  /** Prisma's `findMany({ where: p, orderBy: le })`. */
  function Select<T(!new)>(s: seq<T>, p: T -> bool, le: (T, T) -> bool): (r: seq<T>)
    requires TotalPreorder(le)
    ensures forall x :: x in r <==> x in s && p(x)
    ensures forall i :: 0 <= i < |r| ==> p(r[i])
    ensures multiset(r) == multiset(Filter(s, p))
    ensures forall x :: multiset(r)[x] == if p(x) then multiset(s)[x] else 0
    ensures SortedBy(r, le)
    ensures |r| <= |s|
  {
    var kept := Filter(s, p);
    forall x ensures x in SortBy(kept, le) <==> x in s && p(x) {
      SortByMembership(kept, le, x);
      FilterMembership(s, p, x);
    }
    forall x ensures multiset(SortBy(kept, le))[x] == if p(x) then multiset(s)[x] else 0 {
      FilterMultiset(s, p, x);
    }
    SortBy(kept, le)
  }

  /** Counting by a disjunction of two exclusive predicates adds their counts. */
  lemma {:induction false} FilterUnion<T(!new)>(s: seq<T>, p: T -> bool, q: T -> bool, either: T -> bool)
    requires forall x :: !(p(x) && q(x))
    requires forall x :: either(x) == (p(x) || q(x))
    ensures |Filter(s, p)| + |Filter(s, q)| == |Filter(s, either)|
    decreases |s|
  {
    if s != [] {
      FilterUnion(s[1..], p, q, either);
    }
  }

  /** Two predicates that never hold together select at most |s| rows between them. */
  lemma {:induction false} FilterDisjoint<T(!new)>(s: seq<T>, p: T -> bool, q: T -> bool)
    requires forall x :: !(p(x) && q(x))
    ensures |Filter(s, p)| + |Filter(s, q)| <= |s|
    decreases |s|
  {
    if s != [] {
      FilterDisjoint(s[1..], p, q);
    }
  }

  /** A weaker predicate keeps at least as many elements. */
  lemma {:induction false} FilterMonotone<T(!new)>(s: seq<T>, p: T -> bool, q: T -> bool)
    requires forall x :: p(x) ==> q(x)
    ensures |Filter(s, p)| <= |Filter(s, q)|
    decreases |s|
  {
    if s != [] {
      FilterMonotone(s[1..], p, q);
    }
  }

  /** The elements satisfying `base` whose `key` lies in the half-open range [lo, hi). */
  function Window<T>(base: T -> bool, key: T -> int, lo: int, hi: int): T -> bool {
    (x: T) => base(x) && lo <= key(x) < hi
  }

  /** Adjacent ranges count every element of their union exactly once. */
  lemma {:induction false} WindowSplit<T(!new)>(s: seq<T>, base: T -> bool, key: T -> int, a: int, b: int, c: int)
    requires a <= b <= c
    ensures |Filter(s, Window(base, key, a, b))| + |Filter(s, Window(base, key, b, c))|
         == |Filter(s, Window(base, key, a, c))|
    decreases |s|
  {
    if s != [] {
      WindowSplit(s[1..], base, key, a, b, c);
    }
  }

  // ---------------------------------------------------------------------
  // first match (Prisma's findUnique / findFirst)
  // ---------------------------------------------------------------------

  /** The first element of `s` satisfying `p`, if any. */
  function Find<T>(s: seq<T>, p: T -> bool): (r: Option<T>)
    ensures r.None? <==> forall i :: 0 <= i < |s| ==> !p(s[i])
    ensures r.Some? ==> r.value in s && p(r.value)
    decreases |s|
  {
    if s == [] then None
    else if p(s[0]) then Some(s[0])
    else
      var r := Find(s[1..], p);
      assert forall i :: 1 <= i < |s| ==> s[i] == s[1..][i - 1];
      r
  }

  // ---------------------------------------------------------------------
  // take-N
  // ---------------------------------------------------------------------

  /** Prisma's `take: n`: the first `n` rows, or all of them when fewer. */
  function Take<T>(s: seq<T>, n: nat): (r: seq<T>)
    ensures |r| == if |s| < n then |s| else n
    ensures r == s[..|r|]
    ensures multiset(r) <= multiset(s)
  {
    if |s| < n then s
    else
      assert s == s[..n] + s[n..];
      s[..n]
  }

  /**
   * Taking a prefix of a sorted sequence keeps its least elements: whatever
   * is left out comes after everything kept.
   */
  lemma TakeKeepsFirst<T>(s: seq<T>, n: nat, le: (T, T) -> bool, x: T)
    requires SortedBy(s, le) && x in s && x !in Take(s, n)
    ensures forall i :: 0 <= i < |Take(s, n)| ==> le(Take(s, n)[i], x)
  {
    var r := Take(s, n);
    var k :| 0 <= k < |s| && s[k] == x;
    assert k >= |r|;
  }

  /**
   * `findMany({ where: p, orderBy: le, take: n })`: the first `n` selected
   * rows, or all of them when there are fewer.
   */
  function Top<T(!new)>(s: seq<T>, p: T -> bool, le: (T, T) -> bool, n: nat): (r: seq<T>)
    requires TotalPreorder(le)
    ensures var selected := |Filter(s, p)|;
      |r| == if selected < n then selected else n
    ensures forall x :: multiset(r)[x] <= if p(x) then multiset(s)[x] else 0
    ensures forall x :: x in r ==> x in s && p(x)
    ensures SortedBy(r, le)
    ensures forall x :: x in s && p(x) && x !in r ==> |r| == n && forall y :: y in r ==> le(y, x)
  {
    var all := Select(s, p, le);
    var r := Take(all, n);
    assert |all| == |multiset(all)| == |Filter(s, p)|;
    forall x | x in s && p(x) && x !in r ensures |r| == n && forall y :: y in r ==> le(y, x) {
      TakeKeepsFirst(all, n, le, x);
    }
    forall x ensures multiset(r)[x] <= if p(x) then multiset(s)[x] else 0 {
      assert multiset(r)[x] <= multiset(all)[x];
    }
    r
  }
}
