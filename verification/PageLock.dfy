/** Stacking page locks (src/allocators.h): a count per page, and the operating system asked only at the first
    lock and the last unlock of a page. Addresses do not wrap around. */
module PageLock {
  import opened Wrappers
  import Arith

  datatype Range = Range(base: nat, size: nat)

  /** The page an address lies on: the address with the low bits masked off. */
  function PageOf(ps: nat, a: nat): (page: nat)
    requires ps > 0
  {
    a - a % ps
  }

  predicate Touches(ps: nat, r: Range, page: nat)
    requires ps > 0
  {
    r.size > 0 && page % ps == 0 && PageOf(ps, r.base) <= page <= PageOf(ps, r.base + r.size - 1)
  }

  lemma PageFacts(ps: nat, a: nat)
    requires ps > 0
    ensures PageOf(ps, a) % ps == 0 && PageOf(ps, a) <= a < PageOf(ps, a) + ps
  {
    assert a == (a / ps) * ps + a % ps;
    Arith.DivModUnique(PageOf(ps, a), ps, a / ps, 0);
  }

  /** Between two consecutive pages there is none. */
  lemma NextPage(ps: nat, page: nat, other: nat)
    requires ps > 0 && page % ps == 0 && other % ps == 0
    ensures (page + ps) % ps == 0
    ensures page < other ==> page + ps <= other
  {
    Arith.MultiplePlus(page, ps, 1);
    assert page == (page / ps) * ps && other == (other / ps) * ps;
    if page < other {
      var k := other / ps - page / ps;
      assert k * ps == other - page;
      Arith.MulAtLeast(k, ps);
    }
  }

  predicate Covers(base: nat, size: nat, a: nat)
  {
    base <= a < base + size
  }

  /** The pages of a range are those that hold one of its addresses. */
  lemma TouchesMeans(ps: nat, r: Range, page: nat)
    requires ps > 0 && page % ps == 0
    ensures Touches(ps, r, page) <==> exists a :: Covers(r.base, r.size, a) && Covers(page, ps, a)
  {
    if r.size > 0 {
      var last := r.base + r.size - 1;
      PageFacts(ps, r.base);
      PageFacts(ps, last);
      NextPage(ps, page, PageOf(ps, r.base));
      NextPage(ps, page, PageOf(ps, last));
      NextPage(ps, PageOf(ps, last), page);
      if Touches(ps, r, page) {
        var a := if r.base < page then page else r.base;
        assert Covers(r.base, r.size, a) && Covers(page, ps, a);
      }
    }
  }

  // ---------------------------------------------------------------- counting

  /** How many of the ranges touch a page. */
  function Tally(ps: nat, ranges: seq<Range>, page: nat): (n: nat)
    requires ps > 0
  {
    if ranges == [] then 0
    else Tally(ps, ranges[..|ranges| - 1], page) + if Touches(ps, ranges[|ranges| - 1], page) then 1 else 0
  }

  function Without(ranges: seq<Range>, i: nat): (r: seq<Range>)
    requires i < |ranges|
  {
    ranges[..i] + ranges[i + 1..]
  }

  lemma {:induction false} TallyAppend(ps: nat, a: seq<Range>, b: seq<Range>, page: nat)
    requires ps > 0
    ensures Tally(ps, a + b, page) == Tally(ps, a, page) + Tally(ps, b, page)
  {
    hide Touches;
    if b == [] {
      assert a + b == a;
    } else {
      var last := |b| - 1;
      assert (a + b)[..|a| + last] == a + b[..last];
      TallyAppend(ps, a, b[..last], page);
    }
  }

  lemma TallyWithout(ps: nat, ranges: seq<Range>, i: nat, page: nat)
    requires ps > 0 && i < |ranges|
    ensures Tally(ps, ranges, page)
         == Tally(ps, Without(ranges, i), page) + if Touches(ps, ranges[i], page) then 1 else 0
  {
    hide Touches;
    assert ranges == ranges[..i] + ([ranges[i]] + ranges[i + 1..]);
    TallyAppend(ps, ranges[..i], [ranges[i]] + ranges[i + 1..], page);
    TallyAppend(ps, [ranges[i]], ranges[i + 1..], page);
    TallyAppend(ps, ranges[..i], ranges[i + 1..], page);
    assert [ranges[i]][..0] == [];
  }

  function Count(histogram: map<nat, int>, page: nat): (n: int)
  {
    if page in histogram then histogram[page] else 0
  }

  /** Every page is counted as often as outstanding ranges touch it, and locked exactly if that is at least once. */
  ghost predicate Tracks(ps: nat, histogram: map<nat, int>, locked: set<nat>, ranges: seq<Range>)
    requires ps > 0
  {
    && (forall page: nat :: Count(histogram, page) == Tally(ps, ranges, page))
    && (forall page: nat :: page in histogram <==> Tally(ps, ranges, page) > 0)
    && (forall page: nat :: page in locked <==> page in histogram)
  }

  /** The pages below `page` are counted for `after`, the others still for `before`. */
  ghost predicate Halfway(ps: nat, histogram: map<nat, int>, locked: set<nat>, before: seq<Range>, after: seq<Range>,
      page: nat)
    requires ps > 0
  {
    && (forall q: nat :: Count(histogram, q) == if q < page then Tally(ps, after, q) else Tally(ps, before, q))
    && (forall q: nat :: q in histogram <==> Count(histogram, q) > 0)
    && (forall q: nat :: q in locked <==> q in histogram)
  }

  // ---------------------------------------------------------------- the manager

  class LockedPageManager {
    const ps: nat
    var histogram: map<nat, int>
    /** The pages the operating system holds locked. */
    var locked: set<nat>

    constructor (ps: nat)
      requires ps > 0
      ensures this.ps == ps && Tracks(ps, histogram, locked, [])
    {
      this.ps := ps;
      histogram, locked := map[], {};
    }

    /** `LockRange`. */
    method LockRange(r: Range, ghost ranges: seq<Range>)
      requires ps > 0 && Tracks(ps, histogram, locked, ranges)
      modifies this
      ensures Tracks(ps, histogram, locked, ranges + [r])
    {
      hide Tally, Touches, PageOf;
      ghost var after := ranges + [r];
      OneMore(ps, ranges, r);
      Outside(ps, r);
      if r.size == 0 {
        return;
      }
      var page, end := PageOf(ps, r.base), PageOf(ps, r.base + r.size - 1);
      PageFacts(ps, r.base);
      while page <= end
        invariant page % ps == 0 && PageOf(ps, r.base) <= page
        invariant Halfway(ps, histogram, locked, ranges, after, page)
        decreases end + ps - page
      {
        Between(ps, r, page);
        if page !in histogram {
          locked, histogram := locked + {page}, histogram[page := 1];
        } else {
          histogram := histogram[page := histogram[page] + 1];
        }
        page := page + ps;
      }
    }

    /** `UnlockRange` of an outstanding range: its assertion holds at every page. */
    method UnlockRange(r: Range, ghost ranges: seq<Range>, ghost i: nat)
      requires ps > 0 && Tracks(ps, histogram, locked, ranges)
      requires i < |ranges| && ranges[i] == r
      modifies this
      ensures Tracks(ps, histogram, locked, Without(ranges, i))
    {
      hide Tally, Touches, PageOf, Without;
      ghost var after := Without(ranges, i);
      OneLess(ps, ranges, i);
      Outside(ps, r);
      if r.size == 0 {
        return;
      }
      var page, end := PageOf(ps, r.base), PageOf(ps, r.base + r.size - 1);
      PageFacts(ps, r.base);
      while page <= end
        invariant page % ps == 0 && PageOf(ps, r.base) <= page
        invariant Halfway(ps, histogram, locked, ranges, after, page)
        decreases end + ps - page
      {
        Between(ps, r, page);
        assert page in histogram;
        histogram := histogram[page := histogram[page] - 1];
        if histogram[page] == 0 {
          locked, histogram := locked - {page}, histogram - {page};
        }
        page := page + ps;
      }
    }
  }

  lemma OneMore(ps: nat, ranges: seq<Range>, r: Range)
    requires ps > 0
    ensures forall q: nat :: Tally(ps, ranges + [r], q) == Tally(ps, ranges, q) + if Touches(ps, r, q) then 1 else 0
  {
    assert (ranges + [r])[..|ranges|] == ranges;
  }

  lemma OneLess(ps: nat, ranges: seq<Range>, i: nat)
    requires ps > 0 && i < |ranges|
    ensures forall q: nat ::
      Tally(ps, ranges, q) == Tally(ps, Without(ranges, i), q) + if Touches(ps, ranges[i], q) then 1 else 0
  {
    hide Tally, Touches, Without;
    forall q: nat
      ensures Tally(ps, ranges, q) == Tally(ps, Without(ranges, i), q) + if Touches(ps, ranges[i], q) then 1 else 0
    {
      TallyWithout(ps, ranges, i, q);
    }
  }

  lemma Outside(ps: nat, r: Range)
    requires ps > 0
    ensures forall q: nat :: Touches(ps, r, q) ==>
      r.size > 0 && PageOf(ps, r.base) <= q <= PageOf(ps, r.base + r.size - 1)
  {
    hide PageOf;
  }

  /** A step of the loop passes one page of the range and no other. */
  lemma Between(ps: nat, r: Range, page: nat)
    requires ps > 0 && page % ps == 0
    ensures (page + ps) % ps == 0
    ensures r.size > 0 && PageOf(ps, r.base) <= page <= PageOf(ps, r.base + r.size - 1) ==> Touches(ps, r, page)
    ensures forall q: nat :: page < q < page + ps ==> !Touches(ps, r, q)
  {
    NextPage(ps, page, page);
    forall q: nat | page < q < page + ps
      ensures !Touches(ps, r, q)
    {
      if q % ps == 0 {
        NextPage(ps, page, q);
      }
    }
  }

  // ---------------------------------------------------------------- whole runs

  datatype Call = Lock(r: Range) | Unlock(i: nat)

  /** The outstanding ranges after calls in which every unlock matches one of them. */
  function Outstanding(calls: seq<Call>): (r: Option<seq<Range>>)
  {
    if calls == [] then Some([])
    else
      match Outstanding(calls[..|calls| - 1])
      case None => None
      case Some(ranges) =>
        match calls[|calls| - 1]
        case Lock(r) => Some(ranges + [r])
        case Unlock(i) => if i < |ranges| then Some(Without(ranges, i)) else None
  }

  lemma {:induction false} OutstandingPrefix(calls: seq<Call>, n: nat)
    requires n <= |calls| && Outstanding(calls).Some?
    ensures Outstanding(calls[..n]).Some?
    decreases |calls| - n
  {
    if n == |calls| {
      assert calls[..n] == calls;
    } else {
      OutstandingPrefix(calls, n + 1);
      assert calls[..n + 1][..n] == calls[..n];
    }
  }

  /** After any matching run the counts and the locked pages are those of the outstanding ranges. */
  method Run(ps: nat, calls: seq<Call>) returns (m: LockedPageManager)
    requires ps > 0 && Outstanding(calls).Some?
    ensures m.ps == ps && Tracks(ps, m.histogram, m.locked, Outstanding(calls).value)
  {
    hide Tracks, Without;
    m := new LockedPageManager(ps);
    var ranges: seq<Range> := [];
    for n := 0 to |calls|
      invariant fresh(m) && m.ps == ps && Outstanding(calls[..n]) == Some(ranges)
      invariant Tracks(ps, m.histogram, m.locked, ranges)
    {
      OutstandingPrefix(calls, n + 1);
      assert calls[..n + 1][..n] == calls[..n];
      match calls[n]
      case Lock(r) =>
        m.LockRange(r, ranges);
        ranges := ranges + [r];
      case Unlock(i) =>
        m.UnlockRange(ranges[i], ranges, i);
        ranges := Without(ranges, i);
    }
    assert calls[..|calls|] == calls;
  }
}
