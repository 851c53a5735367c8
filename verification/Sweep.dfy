/** The part of a phase that none of its sub-phases accounts for. Times are whole microseconds. */
module Sweep {
  import opened Options

  /** start is None for a sub-tree attached from another component, which has no common clock. */
  datatype Node = Node(name: string, dur: nat, start: Option<int>, children: seq<Node>)

  function Low(n: Node): int {
    if n.start.Some? then n.start.value else 0
  }

  function Min(a: int, b: int): int {
    if a < b then a else b
  }

  function Max(a: int, b: int): int {
    if a < b then b else a
  }

  /** What sub-trees without a common clock take off, each at most the whole phase. */
  function ForeignTime(children: seq<Node>, dur: nat): nat {
    if children == [] then 0 else
    var last := children[|children| - 1];
    ForeignTime(children[..|children| - 1], dur) + if last.start.None? then Min(last.dur, dur) else 0
  }

  function Timed(children: seq<Node>): seq<Node> {
    if children == [] then [] else
    var last := children[|children| - 1];
    Timed(children[..|children| - 1]) + if last.start.Some? then [last] else []
  }

  /** The instants of [low, high) inside some timed child. */
  function Covered(children: seq<Node>, low: int, high: int): set<int> {
    set t | low <= t < high && InSome(children, t)
  }

  predicate InSome(children: seq<Node>, t: int) {
    exists i :: 0 <= i < |children| && Inside(children[i], t)
  }

  predicate Inside(c: Node, t: int) {
    c.start.Some? && c.start.value <= t < c.start.value + c.dur
  }

  // ----- Sorting by start -----

  predicate AllTimed(cs: seq<Node>) {
    forall i :: 0 <= i < |cs| ==> cs[i].start.Some?
  }

  predicate ByStart(cs: seq<Node>)
    requires AllTimed(cs)
  {
    forall i, j :: 0 <= i < j < |cs| ==> cs[i].start.value <= cs[j].start.value
  }

  function Insert(cs: seq<Node>, c: Node): (out: seq<Node>)
    requires AllTimed(cs) && ByStart(cs) && c.start.Some?
    ensures AllTimed(out) && ByStart(out) && multiset(out) == multiset(cs) + multiset{c}
  {
    if cs == [] || cs[|cs| - 1].start.value <= c.start.value then cs + [c]
    else
      var front, last := cs[..|cs| - 1], cs[|cs| - 1];
      assert cs == front + [last];
      InsertBeforeLast(front, last, c, Insert(front, c));
      Insert(front, c) + [last]
  }

  lemma InsertBeforeLast(front: seq<Node>, last: Node, c: Node, inner: seq<Node>)
    requires AllTimed(front + [last]) && ByStart(front + [last])
    requires c.start.Some? && last.start.Some? && c.start.value <= last.start.value
    requires AllTimed(inner) && ByStart(inner) && multiset(inner) == multiset(front) + multiset{c}
    ensures ByStart(inner + [last])
  {
    forall i | 0 <= i < |inner|
      ensures inner[i].start.value <= last.start.value
    {
      assert inner[i] in multiset(inner);
      if inner[i] != c {
        assert inner[i] in multiset(front);
        var j :| 0 <= j < |front| && front[j] == inner[i];
        assert (front + [last])[j] == front[j] && (front + [last])[|front|] == last;
      }
    }
  }

  function SortByStart(cs: seq<Node>): (out: seq<Node>)
    requires AllTimed(cs)
    ensures AllTimed(out) && ByStart(out) && multiset(out) == multiset(cs)
  {
    if cs == [] then [] else
    assert cs == cs[..|cs| - 1] + [cs[|cs| - 1]];
    Insert(SortByStart(cs[..|cs| - 1]), cs[|cs| - 1])
  }

  // ----- The sweep -----

  function Range(a: int, b: int): (r: set<int>)
    ensures forall t :: t in r <==> a <= t < b
    ensures |r| == if a < b then b - a else 0
    decreases b - a
  {
    if a < b then Range(a, b - 1) + {b - 1} else {}
  }

  lemma CoveredAppend(cs: seq<Node>, c: Node, low: int, high: int)
    requires c.start.Some?
    ensures Covered(cs + [c], low, high) ==
            Covered(cs, low, high) + Range(Max(c.start.value, low), Min(c.start.value + c.dur, high))
  {
    var more := cs + [c];
    forall t
      ensures t in Covered(more, low, high) <==>
              t in Covered(cs, low, high) || t in Range(Max(c.start.value, low), Min(c.start.value + c.dur, high))
    {
      if t in Covered(cs, low, high) {
        var i :| 0 <= i < |cs| && Inside(cs[i], t);
        assert Inside(more[i], t);
      }
      if low <= t < high && Inside(c, t) {
        assert Inside(more[|cs|], t);
      }
    }
  }

  /** Only which children there are matters, not their order. */
  lemma CoveredOrder(a: seq<Node>, b: seq<Node>, low: int, high: int)
    requires multiset(a) == multiset(b)
    ensures Covered(a, low, high) == Covered(b, low, high)
  {
    CoveredWithin(a, b, low, high);
    CoveredWithin(b, a, low, high);
  }

  lemma CoveredWithin(a: seq<Node>, b: seq<Node>, low: int, high: int)
    requires multiset(a) == multiset(b)
    ensures Covered(a, low, high) <= Covered(b, low, high)
  {
    forall t | t in Covered(a, low, high)
      ensures t in Covered(b, low, high)
    {
      var i :| 0 <= i < |a| && Inside(a[i], t);
      assert a[i] in multiset(a);
      assert a[i] in multiset(b);
      var j :| 0 <= j < |b| && b[j] == a[i];
      assert Inside(b[j], t);
    }
  }

  lemma {:induction false} TimedCoverage(children: seq<Node>, low: int, high: int)
    ensures AllTimed(Timed(children))
    ensures Covered(Timed(children), low, high) == Covered(children, low, high)
  {
    if children != [] {
      var front, last := children[..|children| - 1], children[|children| - 1];
      TimedCoverage(front, low, high);
      assert children == front + [last];
      if last.start.Some? {
        CoveredAppend(front, last, low, high);
        CoveredAppend(Timed(front), last, low, high);
      } else {
        CoveredUntimed(front, last, low, high);
        assert Timed(children) == Timed(front);
      }
    }
  }

  lemma CoveredUntimed(cs: seq<Node>, c: Node, low: int, high: int)
    requires c.start.None?
    ensures Covered(cs + [c], low, high) == Covered(cs, low, high)
  {
    var more := cs + [c];
    forall t
      ensures t in Covered(more, low, high) <==> t in Covered(cs, low, high)
    {
      if t in Covered(cs, low, high) {
        var i :| 0 <= i < |cs| && Inside(cs[i], t);
        assert Inside(more[i], t);
      }
    }
  }

  /** After the children of a sorted prefix: everything covered lies before end, and from the last
      start on there are no gaps. */
  ghost predicate NoGaps(covered: set<int>, from: Option<int>, low: int, end: int) {
    && low <= end
    && (forall t :: t in covered ==> t < end)
    && (from.None? ==> end == low)
    && (from.Some? ==> forall t :: Max(low, from.value) <= t < end ==> t in covered)
  }

  function LastStart(cs: seq<Node>): Option<int> {
    if cs == [] then None else cs[|cs| - 1].start
  }

  ghost predicate Swept(cs: seq<Node>, low: int, high: int, end: int) {
    AllTimed(cs) && NoGaps(Covered(cs, low, high), LastStart(cs), low, end)
  }

  lemma NoGapsStep(covered: set<int>, covered': set<int>, from: Option<int>, s: int, stop: int, low: int, end: int)
    requires NoGaps(covered, from, low, end) && (from.Some? ==> from.value <= s)
    requires forall t :: t in covered' <==> t in covered || Max(s, end) <= t < stop
    ensures NoGaps(covered', Some(s), low, if stop > Max(s, end) then stop else end)
  {
  }

  lemma NewInstants(cs: seq<Node>, c: Node, low: int, high: int, end: int)
    requires Swept(cs, low, high, end) && c.start.Some?
    requires LastStart(cs).Some? ==> LastStart(cs).value <= c.start.value
    ensures var first, stop := Max(c.start.value, end), Min(c.start.value + c.dur, high);
            && Covered(cs + [c], low, high) == Covered(cs, low, high) + Range(first, stop)
            && Covered(cs, low, high) !! Range(first, stop)
  {
    CoveredAppend(cs, c, low, high);
    hide Covered, Range;
    var first, stop := Max(c.start.value, end), Min(c.start.value + c.dur, high);
    forall t | t in Range(Max(c.start.value, low), stop)
      ensures t in Covered(cs, low, high) || t in Range(first, stop)
    {
    }
  }

  lemma DisjointSize(a: set<int>, b: set<int>)
    requires a !! b
    ensures |a + b| == |a| + |b|
  {
  }

  lemma SubsetSize(a: set<int>, b: set<int>)
    requires a <= b
    ensures |a| <= |b|
  {
    DisjointSize(a, b - a);
    assert a + (b - a) == b;
  }

  lemma StaysSwept(cs: seq<Node>, c: Node, low: int, high: int, end: int)
    requires Swept(cs, low, high, end) && c.start.Some?
    requires LastStart(cs).Some? ==> LastStart(cs).value <= c.start.value
    ensures var first, stop := Max(c.start.value, end), Min(c.start.value + c.dur, high);
            Swept(cs + [c], low, high, if stop > first then stop else end)
  {
    NewInstants(cs, c, low, high, end);
    var before, after := Covered(cs, low, high), Covered(cs + [c], low, high);
    var stop := Min(c.start.value + c.dur, high);
    assert LastStart(cs + [c]) == Some(c.start.value);
    hide Covered, Range, NoGaps, LastStart, AllTimed;
    assert AllTimed(cs + [c]) by { AllTimedAppend(cs, c); }
    UnionMembers(before, Max(c.start.value, end), stop, after);
    NoGapsStep(before, after, LastStart(cs), c.start.value, stop, low, end);
  }

  lemma AllTimedAppend(cs: seq<Node>, c: Node)
    requires AllTimed(cs) && c.start.Some?
    ensures AllTimed(cs + [c])
  {
  }

  lemma UnionMembers(before: set<int>, first: int, stop: int, after: set<int>)
    requires after == before + Range(first, stop)
    ensures forall t :: t in after <==> t in before || first <= t < stop
  {
  }

  /** One step of the sweep adds exactly the new instants. */
  lemma SweepStep(cs: seq<Node>, c: Node, low: int, high: int, end: int)
    requires Swept(cs, low, high, end) && c.start.Some?
    requires LastStart(cs).Some? ==> LastStart(cs).value <= c.start.value
    ensures var first, stop := Max(c.start.value, end), Min(c.start.value + c.dur, high);
            && Swept(cs + [c], low, high, if stop > first then stop else end)
            && |Covered(cs + [c], low, high)| == |Covered(cs, low, high)| + if stop > first then stop - first else 0
  {
    StaysSwept(cs, c, low, high, end);
    NewInstants(cs, c, low, high, end);
    hide Covered, Range, Swept;
    var first, stop := Max(c.start.value, end), Min(c.start.value + c.dur, high);
    DisjointSize(Covered(cs, low, high), Range(first, stop));
  }

  lemma SweepStart(low: int, high: int)
    ensures Swept([], low, high, low) && Covered([], low, high) == {}
  {
  }

  /** The running covered and end of the sweep over the sorted children. */
  method SweepSorted(cs: seq<Node>, low: int, high: int) returns (covered: nat)
    requires AllTimed(cs) && ByStart(cs)
    ensures covered == |Covered(cs, low, high)|
  {
    SweepStart(low, high);
    hide Covered, Swept, Range;
    covered := 0;
    var end := low;
    assert cs[..0] == [];
    for i := 0 to |cs|
      invariant Swept(cs[..i], low, high, end)
      invariant covered == |Covered(cs[..i], low, high)|
    {
      SweepStep(cs[..i], cs[i], low, high, end);
      assert cs[..i + 1] == cs[..i] + [cs[i]];
      var first, stop := Max(cs[i].start.value, end), Min(cs[i].start.value + cs[i].dur, high);
      if stop > first {
        covered := covered + (stop - first);
        end := stop;
      }
    }
    assert cs[..|cs|] == cs;
  }

  method SumForeign(children: seq<Node>, dur: nat) returns (total: nat)
    ensures total == ForeignTime(children, dur)
  {
    total := 0;
    for i := 0 to |children|
      invariant total == ForeignTime(children[..i], dur)
    {
      assert children[..i + 1][..i] == children[..i];
      if children[i].start.None? {
        total := total + Min(children[i].dur, dur);
      }
    }
    assert children[..|children|] == children;
  }

  /** The uncovered time is the duration minus the measure of the union of the timed children,
      clipped to the phase, minus the foreign time, and never negative. */
  method Uncovered(node: Node) returns (u: nat)
    ensures u == UncoveredTime(node) <= node.dur
  {
    hide Covered, ForeignTime, SortByStart, Timed;
    var low := if node.start.Some? then node.start.value else 0;
    var high := low + node.dur;
    var foreign := SumForeign(node.children, node.dur);
    TimedCoverage(node.children, low, high);
    var cs := SortByStart(Timed(node.children));
    CoveredOrder(cs, Timed(node.children), low, high);
    var swept := SweepSorted(cs, low, high);
    u := Max(node.dur - (foreign + swept), 0);
  }

  /** The same value as a function, for use in specifications. */
  function UncoveredTime(node: Node): nat {
    Max(node.dur - ForeignTime(node.children, node.dur)
        - |Covered(node.children, Low(node), Low(node) + node.dur)|, 0)
  }

  lemma {:induction false} NoForeignTime(children: seq<Node>, dur: nat)
    requires AllTimed(children)
    ensures ForeignTime(children, dur) == 0
  {
    if children != [] {
      NoForeignTime(children[..|children| - 1], dur);
    }
  }

  /** The whole duration of the sub-trees without a common clock. */
  function PlainForeign(children: seq<Node>): nat {
    if children == [] then 0 else
    PlainForeign(children[..|children| - 1]) + if children[|children| - 1].start.None? then children[|children| - 1].dur else 0
  }

  lemma {:induction false} ClipMakesNoDifference(children: seq<Node>, dur: nat)
    ensures ForeignTime(children, dur) <= PlainForeign(children)
    ensures ForeignTime(children, dur) == PlainForeign(children) || ForeignTime(children, dur) >= dur
  {
    if children != [] {
      ClipMakesNoDifference(children[..|children| - 1], dur);
    }
  }

  /** The uncovered time, plainly: the duration, less the instants of [start, start + dur) inside some
      timed child, with 0 for a missing start, less the whole duration of every child without a
      common clock, and never negative. */
  lemma UncoveredPlain(node: Node)
    ensures var start := if node.start.Some? then node.start.value else 0;
            var inside := Covered(node.children, start, start + node.dur);
            var left := node.dur - |inside| - PlainForeign(node.children);
            && UncoveredTime(node) == (if left > 0 then left else 0)
            && (forall t :: t in inside <==>
                  && start <= t < start + node.dur
                  && exists i :: 0 <= i < |node.children| && node.children[i].start.Some?
                                 && node.children[i].start.value <= t < node.children[i].start.value + node.children[i].dur)
  {
    ClipMakesNoDifference(node.children, node.dur);
    hide ForeignTime, PlainForeign;
    var start := if node.start.Some? then node.start.value else 0;
    forall t | start <= t < start + node.dur
      ensures InSome(node.children, t) <==>
              exists i :: 0 <= i < |node.children| && node.children[i].start.Some?
                          && node.children[i].start.value <= t < node.children[i].start.value + node.children[i].dur
    {
      if InSome(node.children, t) {
        var i :| 0 <= i < |node.children| && Inside(node.children[i], t);
      }
      if exists i :: 0 <= i < |node.children| && node.children[i].start.Some?
                     && node.children[i].start.value <= t < node.children[i].start.value + node.children[i].dur {
        var i :| 0 <= i < |node.children| && node.children[i].start.Some?
                 && node.children[i].start.value <= t < node.children[i].start.value + node.children[i].dur;
        assert Inside(node.children[i], t);
      }
    }
  }

  /** With one clock, uncovered and covered time add up to the phase, whatever overlaps. */
  lemma TimeAddsUp(node: Node)
    requires AllTimed(node.children)
    ensures UncoveredTime(node) + |Covered(node.children, Low(node), Low(node) + node.dur)| == node.dur
  {
    NoForeignTime(node.children, node.dur);
    hide Range, ForeignTime;
    var low, high := Low(node), Low(node) + node.dur;
    SubsetSize(Covered(node.children, low, high), Range(low, high));
  }
}
