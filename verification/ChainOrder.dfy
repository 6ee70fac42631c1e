/**
 * On-chain order: block first, then position within the block
 * (`byChainOrder`, and the comparator of the pool indexer).
 */
module ChainOrder {

  datatype Pos = Pos(block: nat, logIndex: nat)

  predicate Before(a: Pos, b: Pos) {
    a.block < b.block || (a.block == b.block && a.logIndex < b.logIndex)
  }

  ghost predicate Ordered<T(!new)>(s: seq<T>, pos: T -> Pos) {
    forall i, j :: 0 <= i < j < |s| ==> !Before(pos(s[j]), pos(s[i]))
  }

  ghost predicate StrictlyOrdered<T(!new)>(s: seq<T>, pos: T -> Pos) {
    forall i, j :: 0 <= i < j < |s| ==> Before(pos(s[i]), pos(s[j]))
  }

  // ---- `Array.prototype.sort(byChainOrder)` --------------------------------

  function Insert<T(!new)>(x: T, s: seq<T>, pos: T -> Pos): seq<T> {
    if s == [] || Before(pos(x), pos(s[0])) then [x] + s
    else [s[0]] + Insert(x, s[1..], pos)
  }

  function Sort<T(!new)>(s: seq<T>, pos: T -> Pos): seq<T> {
    if s == [] then [] else Insert(s[|s| - 1], Sort(s[..|s| - 1], pos), pos)
  }

  lemma HeadFirst<T(!new)>(x: T, t: seq<T>, pos: T -> Pos)
    requires Ordered(t, pos) && forall y :: y in t ==> !Before(pos(y), pos(x))
    ensures Ordered([x] + t, pos)
  {
  }

  lemma {:induction false} InsertKeepsOrder<T(!new)>(x: T, s: seq<T>, pos: T -> Pos)
    requires Ordered(s, pos)
    ensures Ordered(Insert(x, s, pos), pos)
    ensures multiset(Insert(x, s, pos)) == multiset(s) + multiset{x}
  {
    if s == [] || Before(pos(x), pos(s[0])) {
      assert multiset([x] + s) == multiset([x]) + multiset(s);
    } else {
      var t := Insert(x, s[1..], pos);
      InsertKeepsOrder(x, s[1..], pos);
      assert s == [s[0]] + s[1..];
      forall y | y in t
        ensures !Before(pos(y), pos(s[0]))
      {
        assert y in multiset(t);
        assert y == x || y in s[1..];
      }
      HeadFirst(s[0], t, pos);
    }
  }

  lemma {:induction false} SortSorts<T(!new)>(s: seq<T>, pos: T -> Pos)
    ensures Ordered(Sort(s, pos), pos)
    ensures multiset(Sort(s, pos)) == multiset(s)
  {
    if s != [] {
      var n := |s| - 1;
      SortSorts(s[..n], pos);
      hide Insert, Ordered;
      InsertKeepsOrder(s[n], Sort(s[..n], pos), pos);
      assert s == s[..n] + [s[n]];
    }
  }

  lemma OrderOfRest<T(!new)>(a: seq<T>, t: seq<T>, pos: T -> Pos)
    requires a != [] && t != [] && Ordered(a, pos) && StrictlyOrdered(t, pos)
    ensures Ordered(a[1..], pos) && StrictlyOrdered(t[1..], pos)
  {
  }

  /** There is only one way to lay out a set of distinctly placed rows in chain order. */
  lemma {:induction false} OrderIsUnique<T(!new)>(a: seq<T>, t: seq<T>, pos: T -> Pos)
    requires Ordered(a, pos) && StrictlyOrdered(t, pos)
    requires multiset(a) == multiset(t)
    ensures a == t
  {
    assert |a| == |multiset(a)| && |t| == |multiset(t)|;
    if a != [] {
      assert a[0] in multiset(a);
      assert a[0] in t && t[0] in multiset(t);
      assert t[0] in a;
      assert a[0] == t[0];
      OrderOfRest(a, t, pos);
      hide Ordered, StrictlyOrdered;
      assert a == [a[0]] + a[1..] && t == [t[0]] + t[1..];
      assert multiset(a[1..]) == multiset(a) - multiset{a[0]};
      OrderIsUnique(a[1..], t[1..], pos);
    }
  }

  /** Sorting any arrangement of a chain-ordered sequence gives that sequence back. */
  lemma SortRecovers<T(!new)>(s: seq<T>, t: seq<T>, pos: T -> Pos)
    requires StrictlyOrdered(t, pos) && multiset(s) == multiset(t)
    ensures Sort(s, pos) == t
  {
    SortSorts(s, pos);
    OrderIsUnique(Sort(s, pos), t, pos);
  }

  /** A strictly ordered sequence lists each of its elements once. */
  lemma {:induction false} StrictListsOnce<T(!new)>(t: seq<T>, pos: T -> Pos)
    requires StrictlyOrdered(t, pos)
    ensures multiset(t) == multiset(set x | x in t)
  {
    if t != [] {
      var rest, last := t[..|t| - 1], t[|t| - 1];
      StrictListsOnce(rest, pos);
      assert t == rest + [last];
      assert last !in rest;
      assert (set x | x in t) == (set x | x in rest) + {last};
    }
  }

  // ---- slices of the chain -------------------------------------------------

  function Filter<T(!new)>(s: seq<T>, f: T -> bool): seq<T> {
    if s == [] then []
    else if f(s[0]) then [s[0]] + Filter(s[1..], f)
    else Filter(s[1..], f)
  }

  function InBlocks<T(!new)>(pos: T -> Pos, lo: nat, hi: nat): T -> bool {
    x => lo <= pos(x).block < hi
  }

  /** The logs of blocks `lo` up to but excluding `hi`. */
  function Span<T(!new)>(chain: seq<T>, pos: T -> Pos, lo: nat, hi: nat): seq<T> {
    Filter(chain, InBlocks(pos, lo, hi))
  }

  lemma {:induction false} FilterElements<T(!new)>(s: seq<T>, f: T -> bool)
    ensures forall x :: x in Filter(s, f) <==> x in s && f(x)
  {
    if s != [] {
      FilterElements(s[1..], f);
      assert s == [s[0]] + s[1..];
    }
  }

  lemma {:induction false} FilterOrdered<T(!new)>(s: seq<T>, f: T -> bool, pos: T -> Pos)
    requires StrictlyOrdered(s, pos)
    ensures StrictlyOrdered(Filter(s, f), pos)
  {
    if s != [] {
      FilterOrdered(s[1..], f, pos);
      var rest := s[1..];
      FilterElements(rest, f);
      var t := Filter(rest, f);
      forall x | x in t
        ensures Before(pos(s[0]), pos(x))
      {
        var i :| 0 <= i < |rest| && rest[i] == x;
        assert x == s[i + 1];
      }
    }
  }

  lemma {:induction false} FilterNone<T(!new)>(s: seq<T>, f: T -> bool)
    requires forall x :: x in s ==> !f(x)
    ensures Filter(s, f) == []
  {
    if s != [] {
      FilterNone(s[1..], f);
    }
  }

  /** Adjacent spans of a chain-ordered log sequence join without a gap or an overlap. */
  lemma {:induction false} SpanJoin<T(!new)>(chain: seq<T>, pos: T -> Pos, lo: nat, mid: nat, hi: nat)
    requires StrictlyOrdered(chain, pos)
    requires lo <= mid <= hi
    ensures Span(chain, pos, lo, mid) + Span(chain, pos, mid, hi) == Span(chain, pos, lo, hi)
  {
    if chain != [] {
      var rest := chain[1..];
      SpanJoin(rest, pos, lo, mid, hi);
      if mid <= pos(chain[0]).block {
        forall x | x in rest
          ensures !(lo <= pos(x).block < mid)
        {
          var i :| 0 <= i < |rest| && rest[i] == x;
          assert x == chain[i + 1];
        }
        FilterNone(rest, InBlocks(pos, lo, mid));
      }
    }
  }

  lemma {:induction false} SpanEmpty<T(!new)>(chain: seq<T>, pos: T -> Pos, lo: nat)
    ensures Span(chain, pos, lo, lo) == []
  {
    FilterNone(chain, InBlocks(pos, lo, lo));
  }

  lemma {:induction false} FilterTwice<T(!new)>(s: seq<T>, f: T -> bool, g: T -> bool, fg: T -> bool)
    requires forall x :: fg(x) == (f(x) && g(x))
    ensures Filter(Filter(s, f), g) == Filter(s, fg)
  {
    if s != [] {
      FilterTwice(s[1..], f, g, fg);
      if f(s[0]) {
        assert ([s[0]] + Filter(s[1..], f))[1..] == Filter(s[1..], f);
      }
    }
  }

  /** Filtering by two exclusive conditions splits what their disjunction keeps. */
  lemma {:induction false} FilterSplit<T(!new)>(s: seq<T>, f: T -> bool, g: T -> bool, either: T -> bool)
    requires forall x :: either(x) == (f(x) || g(x)) && !(f(x) && g(x))
    ensures multiset(Filter(s, either)) == multiset(Filter(s, f)) + multiset(Filter(s, g))
  {
    if s != [] {
      FilterSplit(s[1..], f, g, either);
    }
  }
}
