/** Scored candidates, as the C++ code keeps them in `std::pair<float, uint32_t>`,
    and the two standard-library services the searches rely on. */
module Ranking {
  import opened Numbers

  datatype Scored = Scored(dist: real, node: nat)

  ghost predicate SortedByDist(s: seq<Scored>) {
    forall i, j :: 0 <= i < j < |s| ==> s[i].dist <= s[j].dist
  }

  /** `kept` is a choice of the `cap` nearest members of `all`, with multiplicity. */
  ghost predicate KeepsNearest(kept: multiset<Scored>, all: multiset<Scored>, cap: nat) {
    && kept <= all
    && |kept| == Min(cap, |all|)
    && forall x, y :: x in kept && y in all - kept ==> x.dist <= y.dist
  }

  function Insert(r: seq<Scored>, x: Scored): (t: seq<Scored>)
    ensures multiset(t) == multiset(r) + multiset{x}
  {
    if r == [] || x.dist < r[0].dist then [x] + r
    else
      assert r == [r[0]] + r[1..];
      [r[0]] + Insert(r[1..], x)
  }

  lemma {:induction false} InsertKeepsSorted(r: seq<Scored>, x: Scored)
    requires SortedByDist(r)
    ensures SortedByDist(Insert(r, x))
  {
    if r != [] && r[0].dist <= x.dist {
      InsertKeepsSorted(r[1..], x);
      var t := Insert(r[1..], x);
      forall y | y in t ensures r[0].dist <= y.dist {
        assert y in multiset(t);
        assert y == x || y in r[1..];
      }
    }
  }

  /** `std::sort` by distance: callers learn only that the result is some sorted permutation. */
  method SortByDist(s: seq<Scored>) returns (r: seq<Scored>)
    ensures SortedByDist(r)
    ensures multiset(r) == multiset(s)
  {
    r := [];
    for i := 0 to |s|
      invariant SortedByDist(r)
      invariant multiset(r) == multiset(s[..i])
    {
      assert s[..i + 1] == s[..i] + [s[i]];
      InsertKeepsSorted(r, s[i]);
      r := Insert(r, s[i]);
    }
    assert s[..|s|] == s;
  }

  /** The heap invariant the searches use: the front is a worst element. */
  ghost predicate FrontIsWorst(h: seq<Scored>) {
    forall i :: 0 <= i < |h| ==> h[i].dist <= h[0].dist
  }

  /** `push_back` followed by `std::push_heap`. */
  method PushHeap(h: seq<Scored>, x: Scored) returns (r: seq<Scored>)
    requires FrontIsWorst(h)
    ensures FrontIsWorst(r) && r != []
    ensures multiset(r) == multiset(h) + multiset{x}
  {
    if h == [] || x.dist <= h[0].dist {
      r := h + [x];
    } else {
      assert h == [h[0]] + h[1..];
      r := [x] + h[1..] + [h[0]];
    }
  }

  /** `std::pop_heap` and dropping the back: a worst element leaves, the rest is a heap again. */
  method PopHeap(h: seq<Scored>) returns (r: seq<Scored>)
    requires FrontIsWorst(h) && h != []
    ensures FrontIsWorst(r)
    ensures multiset(h) == multiset(r) + multiset{h[0]}
  {
    r := [];
    for i := 1 to |h|
      invariant FrontIsWorst(r)
      invariant multiset(r) == multiset(h[1..i])
    {
      assert h[1..i + 1] == h[1..i] + [h[i]];
      r := PushHeap(r, h[i]);
    }
    assert h[1..|h|] == h[1..];
    assert h == [h[0]] + h[1..];
  }
}
