/** Building the tree of one timing record. The nodes are dictionaries that the builder shares and
    appends to, so they are kept in an arena and a child is the index of its cell. */
module PhaseTree {
  import opened Options
  import opened Sweep

  /** dur is negative for a phase that had not ended. */
  datatype Phase = Phase(id: int, parent: int, name: string, dur: int, start: int)
  datatype Record = Record(component: string, total: nat, phases: seq<Phase>)
  datatype Cell = Cell(name: string, dur: nat, start: Option<int>, children: seq<nat>)

  type Arena = seq<Cell>
  type Labels = map<string, string>

  function Label(labels: Labels, name: string): string {
    if name in labels then labels[name] else name
  }

  function Root(labels: Labels, r: Record): Cell {
    Cell(Label(labels, r.component), r.total, None, [])
  }

  /** An unfinished phase counts as lasting until the end of the request. */
  function PhaseCell(labels: Labels, r: Record, p: Phase): Cell {
    Cell(Label(labels, p.name), if p.dur >= 0 then p.dur else Max(r.total - p.start, 0), Some(p.start), [])
  }

  /** The cell of the latest phase with the ID, or the root. */
  function Latest(phases: seq<Phase>, id: int): nat {
    if phases == [] then 0
    else if phases[|phases| - 1].id == id then |phases|
    else Latest(phases[..|phases| - 1], id)
  }

  /** Where phase k hangs: under the latest phase so far with its parent ID, itself included. */
  function ParentOf(phases: seq<Phase>, k: nat): nat
    requires k < |phases|
  {
    Latest(phases[..k + 1], phases[k].parent)
  }

  function Hang(a: Arena, parent: nat, c: Cell): Arena {
    var b := a + [c];
    if parent < |b| then b[parent := b[parent].(children := b[parent].children + [|a|])] else b
  }

  function Build(labels: Labels, r: Record, n: nat): Arena
    requires n <= |r.phases|
  {
    if n == 0 then [Root(labels, r)]
    else Hang(Build(labels, r, n - 1), ParentOf(r.phases, n - 1), PhaseCell(labels, r, r.phases[n - 1]))
  }

  lemma LatestMore(phases: seq<Phase>, k: nat, id: int)
    requires k < |phases|
    ensures Latest(phases[..k + 1], id) == if phases[k].id == id then k + 1 else Latest(phases[..k], id)
  {
    assert phases[..k + 1][..k] == phases[..k];
  }

  method BuildTree(labels: Labels, r: Record) returns (arena: Arena)
    ensures arena == Build(labels, r, |r.phases|)
  {
    hide Latest, Label;
    arena := [Root(labels, r)];
    var nodes: map<int, nat> := map[0 := 0];
    assert r.phases[..0] == [];
    LatestOfNone();
    for k := 0 to |r.phases|
      invariant arena == Build(labels, r, k) && |arena| == k + 1
      invariant forall id :: Latest(r.phases[..k], id) == if id in nodes then nodes[id] else 0
    {
      var phase := r.phases[k];
      var dur := if phase.dur >= 0 then phase.dur else Max(r.total - phase.start, 0);
      var index := |arena|;
      arena := arena + [Cell(Label(labels, phase.name), dur, Some(phase.start), [])];
      nodes := nodes[phase.id := index];
      var parent := if phase.parent in nodes then nodes[phase.parent] else 0;
      forall id
        ensures Latest(r.phases[..k + 1], id) == if id in nodes then nodes[id] else 0
      {
        LatestMore(r.phases, k, id);
      }
      LatestBound(r.phases[..k + 1], phase.parent);
      arena := arena[parent := arena[parent].(children := arena[parent].children + [index])];
    }
  }

  lemma LatestOfNone()
    ensures forall id :: Latest([], id) == 0
  {
  }

  // ----- Shape -----

  lemma {:induction false} LatestBound(phases: seq<Phase>, id: int)
    ensures Latest(phases, id) <= |phases|
    ensures phases != [] ==> (Latest(phases, id) == |phases| <==> phases[|phases| - 1].id == id)
  {
    if phases != [] {
      LatestBound(phases[..|phases| - 1], id);
    }
  }

  /** The root stands in exactly when no phase so far has the ID; otherwise the latest one does. */
  lemma {:induction false} LatestExact(phases: seq<Phase>, id: int)
    ensures Latest(phases, id) == 0 <==> forall j :: 0 <= j < |phases| ==> phases[j].id != id
    ensures Latest(phases, id) > 0 ==>
              var j := Latest(phases, id) - 1;
              j < |phases| && phases[j].id == id && forall i :: j < i < |phases| ==> phases[i].id != id
  {
    if phases != [] {
      LatestExact(phases[..|phases| - 1], id);
      assert forall i :: 0 <= i < |phases| - 1 ==> phases[..|phases| - 1][i] == phases[i];
    }
  }

  predicate NoSelfParent(phases: seq<Phase>) {
    forall k :: 0 <= k < |phases| ==> phases[k].id != phases[k].parent
  }

  /** Every child sits later in the arena than its parent. */
  predicate Ordered(a: Arena) {
    forall x, i :: 0 <= x < |a| && 0 <= i < |a[x].children| ==> x < a[x].children[i] < |a|
  }

  ghost predicate Reaches(a: Arena, x: nat, y: nat, steps: nat)
    decreases steps
  {
    if steps == 0 then x == y
    else x < |a| && exists i :: 0 <= i < |a[x].children| && Reaches(a, a[x].children[i], y, steps - 1)
  }

  ghost predicate Acyclic(a: Arena) {
    forall x, steps :: steps > 0 ==> !Reaches(a, x, x, steps)
  }

  lemma {:induction false} BuildShape(labels: Labels, r: Record, n: nat)
    requires n <= |r.phases|
    ensures |Build(labels, r, n)| == n + 1
    ensures NoSelfParent(r.phases[..n]) ==> Ordered(Build(labels, r, n))
  {
    if n > 0 {
      hide Latest;
      BuildShape(labels, r, n - 1);
      LatestBound(r.phases[..n], r.phases[n - 1].parent);
      if NoSelfParent(r.phases[..n]) {
        assert r.phases[..n][n - 1] == r.phases[n - 1];
        assert NoSelfParent(r.phases[..n - 1]) by {
          assert forall k :: 0 <= k < n - 1 ==> r.phases[..n - 1][k] == r.phases[..n][k];
        }
        HangOrdered(Build(labels, r, n - 1), ParentOf(r.phases, n - 1), PhaseCell(labels, r, r.phases[n - 1]));
      }
    }
  }

  lemma {:induction false} OrderedGoesUp(a: Arena, x: nat, y: nat, steps: nat)
    requires Ordered(a) && Reaches(a, x, y, steps)
    ensures steps > 0 ==> x < y
    decreases steps
  {
    if steps > 0 {
      var i :| 0 <= i < |a[x].children| && Reaches(a, a[x].children[i], y, steps - 1);
      OrderedGoesUp(a, a[x].children[i], y, steps - 1);
    }
  }

  lemma HangKeepsChildren(a: Arena, p: nat, cell: Cell, x: nat)
    requires p <= |a|
    ensures |Hang(a, p, cell)| == |a| + 1
    ensures x < |a| ==> forall c :: c in a[x].children ==> c in Hang(a, p, cell)[x].children
    ensures |a| in Hang(a, p, cell)[p].children
  {
    var b := a + [cell];
    assert (b[p].children + [|a|])[|b[p].children|] == |a|;
  }

  /** A later phase never removes a child. */
  lemma {:induction false} ChildrenStay(labels: Labels, r: Record, k: nat, n: nat)
    requires k < n <= |r.phases|
    ensures |Build(labels, r, n)| == n + 1
    ensures var p := ParentOf(r.phases, k); p <= k + 1 && k + 1 in Build(labels, r, n)[p].children
    decreases n
  {
    hide Hang, Latest, Build, PhaseCell;
    BuildShape(labels, r, n);
    BuildShape(labels, r, n - 1);
    BuildMore(labels, r, n);
    LatestBound(r.phases[..k + 1], r.phases[k].parent);
    LatestBound(r.phases[..n], r.phases[n - 1].parent);
    var a, q, cell := Build(labels, r, n - 1), ParentOf(r.phases, n - 1), PhaseCell(labels, r, r.phases[n - 1]);
    HangKeepsChildren(a, q, cell, ParentOf(r.phases, k));
    if k < n - 1 {
      ChildrenStay(labels, r, k, n - 1);
    }
  }

  lemma BuildMore(labels: Labels, r: Record, n: nat)
    requires 0 < n <= |r.phases|
    ensures Build(labels, r, n) == Hang(Build(labels, r, n - 1), ParentOf(r.phases, n - 1), PhaseCell(labels, r, r.phases[n - 1]))
  {
  }

  predicate Ascending(xs: seq<nat>) {
    forall i, j :: 0 <= i < j < |xs| ==> xs[i] < xs[j]
  }

  ghost predicate Hung(phases: seq<Phase>, n: nat, x: nat, cs: seq<nat>)
    requires n <= |phases|
  {
    Ascending(cs) && forall c :: c in cs <==> 0 < c <= n && ParentOf(phases, c - 1) == x
  }

  lemma HungMore(phases: seq<Phase>, n: nat, x: nat, cs: seq<nat>)
    requires 0 < n <= |phases| && Hung(phases, n - 1, x, cs)
    ensures Hung(phases, n, x, if ParentOf(phases, n - 1) == x then cs + [n] else cs)
  {
    hide ParentOf;
    assert forall i :: 0 <= i < |cs| ==> cs[i] in cs;
  }

  lemma HungNone(phases: seq<Phase>, n: nat)
    requires 0 < n <= |phases|
    ensures Hung(phases, n - 1, n, [])
  {
    hide Latest;
    forall k | 0 <= k < n - 1
      ensures ParentOf(phases, k) < n
    {
      LatestBound(phases[..k + 1], phases[k].parent);
    }
    hide ParentOf;
  }

  /** The children of a cell are exactly the phases hung under it, in the order of the record. */
  lemma {:induction false} ChildrenExact(labels: Labels, r: Record, n: nat, x: nat)
    requires n <= |r.phases| && x <= n
    ensures |Build(labels, r, n)| == n + 1
    ensures Hung(r.phases, n, x, Build(labels, r, n)[x].children)
    decreases n
  {
    BuildShape(labels, r, n);
    if n > 0 {
      hide Latest, PhaseCell, Build, Hung, Hang;
      BuildShape(labels, r, n - 1);
      LatestBound(r.phases[..n], r.phases[n - 1].parent);
      LeafCell(labels, r, r.phases[n - 1]);
      BuildMore(labels, r, n);
      var a, p, cell := Build(labels, r, n - 1), ParentOf(r.phases, n - 1), PhaseCell(labels, r, r.phases[n - 1]);
      HangChildren(a, p, cell, x);
      if x < n {
        ChildrenExact(labels, r, n - 1, x);
        HungMore(r.phases, n, x, a[x].children);
      } else {
        HungNone(r.phases, n);
        HungMore(r.phases, n, x, []);
      }
    }
  }

  lemma HangChildren(a: Arena, p: nat, cell: Cell, x: nat)
    requires p <= |a| && x <= |a| && cell.children == []
    ensures |Hang(a, p, cell)| == |a| + 1
    ensures var before := if x < |a| then a[x].children else [];
            Hang(a, p, cell)[x].children == if x == p then before + [|a|] else before
  {
  }

  /** The result is acyclic if and only if no phase is its own parent. */
  lemma AcyclicIffNoSelfParent(labels: Labels, r: Record)
    ensures Acyclic(Build(labels, r, |r.phases|)) <==> NoSelfParent(r.phases)
  {
    var a := Build(labels, r, |r.phases|);
    BuildShape(labels, r, |r.phases|);
    assert r.phases[..|r.phases|] == r.phases;
    if NoSelfParent(r.phases) {
      forall x, steps | steps > 0
        ensures !Reaches(a, x, x, steps)
      {
        if Reaches(a, x, x, steps) {
          OrderedGoesUp(a, x, x, steps);
        }
      }
    } else {
      var k :| 0 <= k < |r.phases| && r.phases[k].id == r.phases[k].parent;
      ChildrenStay(labels, r, k, |r.phases|);
      LatestBound(r.phases[..k + 1], r.phases[k].parent);
      SelfChildLoops(a, k + 1);
    }
  }

  lemma SelfChildLoops(a: Arena, x: nat)
    requires x < |a| && x in a[x].children
    ensures Reaches(a, x, x, 1)
  {
    var i :| 0 <= i < |a[x].children| && a[x].children[i] == x;
    assert Reaches(a, a[x].children[i], x, 0);
  }

  // ----- Every phase is in the tree, once -----

  /** The pre-order walk, as cell indices. */
  function Walk(a: Arena, x: nat): seq<nat>
    requires Ordered(a) && x < |a|
    decreases |a| - x, |a[x].children| + 1
  {
    [x] + WalkAll(a, x, a[x].children)
  }

  function WalkAll(a: Arena, above: nat, cs: seq<nat>): seq<nat>
    requires Ordered(a) && above < |a| && forall i :: 0 <= i < |cs| ==> above < cs[i] < |a|
    decreases |a| - above, |cs|
  {
    if cs == [] then [] else WalkAll(a, above, cs[..|cs| - 1]) + Walk(a, cs[|cs| - 1])
  }

  function Count(s: seq<nat>, v: nat): nat {
    multiset(s)[v]
  }

  lemma CountJoin(s: seq<nat>, t: seq<nat>, v: nat)
    ensures Count(s + t, v) == Count(s, v) + Count(t, v)
  {
  }

  lemma CountOne(x: nat, v: nat)
    ensures Count([x], v) == if x == v then 1 else 0
  {
  }

  lemma {:induction false} WalkAllAbove(a: Arena, above: nat, cs: seq<nat>, v: nat)
    requires Ordered(a) && above < |a| && forall i :: 0 <= i < |cs| ==> above < cs[i] < |a|
    ensures v <= above || v >= |a| ==> Count(WalkAll(a, above, cs), v) == 0
    decreases |a| - above, |cs|
  {
    if cs != [] {
      var c := cs[|cs| - 1];
      WalkAllAbove(a, above, cs[..|cs| - 1], v);
      WalkAllAbove(a, c, a[c].children, v);
      CountJoin(WalkAll(a, above, cs[..|cs| - 1]), Walk(a, c), v);
      CountJoin([c], WalkAll(a, c, a[c].children), v);
    }
  }

  lemma HangOrdered(a: Arena, p: nat, cell: Cell)
    requires Ordered(a) && p < |a| && cell.children == []
    ensures Ordered(Hang(a, p, cell)) && |Hang(a, p, cell)| == |a| + 1
    ensures forall x :: 0 <= x < |a| && x != p ==> Hang(a, p, cell)[x] == a[x]
    ensures Hang(a, p, cell)[p].children == a[p].children + [|a|]
    ensures Hang(a, p, cell)[|a|] == cell
  {
  }

  lemma {:induction false} HangWalkAll(a: Arena, p: nat, cell: Cell, above: nat, cs: seq<nat>, v: nat)
    requires Ordered(a) && p < |a| && cell.children == []
    requires above < |a| && forall i :: 0 <= i < |cs| ==> above < cs[i] < |a|
    ensures var b := Hang(a, p, cell);
            && Ordered(b) && |b| == |a| + 1
            && Count(WalkAll(b, above, cs), v) == Count(WalkAll(a, above, cs), if v == |a| then p else v)
    decreases |a| - above, |cs|
  {
    HangOrdered(a, p, cell);
    if cs != [] {
      var b, w := Hang(a, p, cell), if v == |a| then p else v;
      var front, c := cs[..|cs| - 1], cs[|cs| - 1];
      HangWalkAll(a, p, cell, above, front, v);
      HangWalk(a, p, cell, c, v);
      CountJoin(WalkAll(b, above, front), Walk(b, c), v);
      CountJoin(WalkAll(a, above, front), Walk(a, c), w);
    }
  }

  lemma WalkWithLeaf(b: Arena, x: nat, cs: seq<nat>, leaf: nat)
    requires Ordered(b) && x < leaf < |b| && b[x].children == cs + [leaf] && b[leaf].children == []
    requires forall i :: 0 <= i < |cs| ==> x < cs[i] < |b|
    ensures Walk(b, x) == [x] + WalkAll(b, x, cs) + [leaf]
  {
    var all := cs + [leaf];
    assert all[..|all| - 1] == cs;
    assert Walk(b, leaf) == [leaf];
  }

  /** Hanging a new leaf under p adds one visit of it for every visit of p, and nothing else. */
  lemma {:induction false} HangWalk(a: Arena, p: nat, cell: Cell, x: nat, v: nat)
    requires Ordered(a) && p < |a| && cell.children == [] && x < |a|
    ensures var b := Hang(a, p, cell);
            && Ordered(b) && |b| == |a| + 1
            && Count(Walk(b, x), v) == Count(Walk(a, x), if v == |a| then p else v)
    decreases |a| - x, |a[x].children| + 1
  {
    HangOrdered(a, p, cell);
    hide Hang, Count;
    CountOne(x, v);
    CountOne(|a|, v);
    var b, w, cs := Hang(a, p, cell), if v == |a| then p else v, a[x].children;
    CountOne(x, w);
    HangWalkAll(a, p, cell, x, cs, v);
    CountJoin([x], WalkAll(a, x, cs), w);
    if x == p {
      WalkAllAbove(a, x, cs, p);
      WalkWithLeaf(b, x, cs, |a|);
      CountJoin([x] + WalkAll(b, x, cs), [|a|], v);
      CountJoin([x], WalkAll(b, x, cs), v);
    } else {
      CountJoin([x], WalkAll(b, x, cs), v);
    }
  }

  lemma {:induction false} VisitedOnce(labels: Labels, r: Record, n: nat, v: nat)
    requires n <= |r.phases| && NoSelfParent(r.phases) && v <= n
    ensures var a := Build(labels, r, n);
            |a| == n + 1 && Ordered(a) && Count(Walk(a, 0), v) == 1
    decreases n
  {
    hide Latest, Hang, Count, PhaseCell;
    BuildShape(labels, r, n);
    if n == 0 {
      assert Walk(Build(labels, r, 0), 0) == [0];
      CountOne(0, v);
    } else {
      hide Walk, Build;
      BuildMore(labels, r, n);
      LeafCell(labels, r, r.phases[n - 1]);
      var a, p := Build(labels, r, n - 1), ParentOf(r.phases, n - 1);
      BuildShape(labels, r, n - 1);
      LatestBound(r.phases[..n], r.phases[n - 1].parent);
      HangWalk(a, p, PhaseCell(labels, r, r.phases[n - 1]), 0, v);
      VisitedOnce(labels, r, n - 1, if v == n then p else v);
    }
  }

  /** If no phase is its own parent, the walk from the root meets the root and every phase exactly
      once and nothing else. */
  lemma OneNodePerPhase(labels: Labels, r: Record)
    requires NoSelfParent(r.phases)
    ensures var a := Build(labels, r, |r.phases|);
            && Ordered(a) && |a| == |r.phases| + 1
            && (forall v: nat :: Count(Walk(a, 0), v) == if v < |a| then 1 else 0)
  {
    var a := Build(labels, r, |r.phases|);
    BuildShape(labels, r, |r.phases|);
    assert r.phases[..|r.phases|] == r.phases;
    forall v: nat
      ensures Count(Walk(a, 0), v) == if v < |a| then 1 else 0
    {
      if v < |a| {
        VisitedOnce(labels, r, |r.phases|, v);
      } else {
        WalkAllAbove(a, 0, a[0].children, v);
        CountJoin([0], WalkAll(a, 0, a[0].children), v);
      }
    }
  }

  /** What a phase and the request put into their cells: the label of the name, or the name itself
      without one; the start; and the duration, for an unfinished phase what is left of the request
      and for the root the whole of it. */
  lemma CellContents(labels: Labels, r: Record, k: nat)
    requires k < |r.phases|
    ensures var a, p := Build(labels, r, |r.phases|), r.phases[k];
            && |a| == |r.phases| + 1
            && a[k + 1].name == (if p.name in labels then labels[p.name] else p.name)
            && a[k + 1].start == Some(p.start)
            && a[k + 1].dur == (if p.dur >= 0 then p.dur else if r.total > p.start then r.total - p.start else 0)
            && a[0].name == (if r.component in labels then labels[r.component] else r.component)
            && a[0].start == None && a[0].dur == r.total
  {
    CellData(labels, r, |r.phases|, k);
    hide Build;
    var a := Build(labels, r, |r.phases|);
    assert a[k + 1].(children := []).name == a[k + 1].name;
    assert a[0].(children := []).name == a[0].name;
  }

  lemma LeafCell(labels: Labels, r: Record, p: Phase)
    ensures PhaseCell(labels, r, p).children == []
  {
  }

  lemma HangData(a: Arena, p: nat, cell: Cell, x: nat)
    requires p <= |a| && x <= |a|
    ensures |Hang(a, p, cell)| == |a| + 1
    ensures Hang(a, p, cell)[x].(children := []) == if x < |a| then a[x].(children := []) else cell.(children := [])
  {
  }

  /** Each phase keeps its own data and hangs under the parent the record gives, or the root. */
  lemma {:induction false} CellData(labels: Labels, r: Record, n: nat, k: nat)
    requires k < n <= |r.phases|
    ensures var a := Build(labels, r, n);
            && |a| == n + 1
            && a[k + 1].(children := []) == PhaseCell(labels, r, r.phases[k])
            && a[0].(children := []) == Root(labels, r)
    decreases n
  {
    hide Latest, Hang, PhaseCell;
    BuildShape(labels, r, n);
    BuildShape(labels, r, n - 1);
    LatestBound(r.phases[..n], r.phases[n - 1].parent);
    LeafCell(labels, r, r.phases[n - 1]);
    var a, p, cell := Build(labels, r, n - 1), ParentOf(r.phases, n - 1), PhaseCell(labels, r, r.phases[n - 1]);
    HangData(a, p, cell, 0);
    HangData(a, p, cell, k + 1);
    if k < n - 1 {
      CellData(labels, r, n - 1, k);
    } else if n > 1 {
      CellData(labels, r, n - 1, 0);
    }
  }

  // ----- The tree as a value -----

  function ToNode(a: Arena, x: nat): Node
    requires Ordered(a) && x < |a|
    decreases |a| - x, |a[x].children| + 1
  {
    Node(a[x].name, a[x].dur, a[x].start, ToNodes(a, x, a[x].children))
  }

  function ToNodes(a: Arena, above: nat, cs: seq<nat>): seq<Node>
    requires Ordered(a) && above < |a| && forall i :: 0 <= i < |cs| ==> above < cs[i] < |a|
    decreases |a| - above, |cs|
  {
    if cs == [] then [] else ToNodes(a, above, cs[..|cs| - 1]) + [ToNode(a, cs[|cs| - 1])]
  }

  function TotalTime(n: Node): nat {
    n.dur + TotalTimes(n.children)
  }

  function TotalTimes(ns: seq<Node>): nat {
    if ns == [] then 0 else TotalTimes(ns[..|ns| - 1]) + TotalTime(ns[|ns| - 1])
  }

  function SumOver(a: Arena, visited: seq<nat>): nat
    requires forall i :: 0 <= i < |visited| ==> visited[i] < |a|
  {
    if visited == [] then 0 else SumOver(a, visited[..|visited| - 1]) + a[visited[|visited| - 1]].dur
  }

  lemma {:induction false} SumJoin(a: Arena, s: seq<nat>, t: seq<nat>)
    requires forall i :: 0 <= i < |s| ==> s[i] < |a|
    requires forall i :: 0 <= i < |t| ==> t[i] < |a|
    ensures SumOver(a, s + t) == SumOver(a, s) + SumOver(a, t)
    decreases |t|
  {
    if t == [] {
      assert s + t == s;
    } else {
      assert (s + t)[..|s + t| - 1] == s + t[..|t| - 1];
      SumJoin(a, s, t[..|t| - 1]);
    }
  }

  lemma InRange(a: Arena, x: nat)
    requires Ordered(a) && x < |a|
    ensures forall i :: 0 <= i < |Walk(a, x)| ==> Walk(a, x)[i] < |a|
    ensures forall i :: 0 <= i < |WalkAll(a, x, a[x].children)| ==> WalkAll(a, x, a[x].children)[i] < |a|
  {
    forall i | 0 <= i < |WalkAll(a, x, a[x].children)|
      ensures WalkAll(a, x, a[x].children)[i] < |a|
    {
      var v := WalkAll(a, x, a[x].children)[i];
      WalkAllAbove(a, x, a[x].children, v);
      assert v in multiset(WalkAll(a, x, a[x].children));
    }
  }

  lemma AllInRange(a: Arena, above: nat, cs: seq<nat>)
    requires Ordered(a) && above < |a| && forall i :: 0 <= i < |cs| ==> above < cs[i] < |a|
    ensures forall i :: 0 <= i < |WalkAll(a, above, cs)| ==> WalkAll(a, above, cs)[i] < |a|
  {
    forall i | 0 <= i < |WalkAll(a, above, cs)|
      ensures WalkAll(a, above, cs)[i] < |a|
    {
      var v := WalkAll(a, above, cs)[i];
      WalkAllAbove(a, above, cs, v);
      assert v in multiset(WalkAll(a, above, cs));
    }
  }

  lemma {:induction false} TreeTime(a: Arena, x: nat)
    requires Ordered(a) && x < |a|
    ensures forall i :: 0 <= i < |Walk(a, x)| ==> Walk(a, x)[i] < |a|
    ensures TotalTime(ToNode(a, x)) == SumOver(a, Walk(a, x))
    decreases |a| - x, |a[x].children| + 1
  {
    InRange(a, x);
    TreeTimes(a, x, a[x].children);
    SumJoin(a, [x], WalkAll(a, x, a[x].children));
    assert [x][..0] == [];
  }

  lemma {:induction false} TreeTimes(a: Arena, above: nat, cs: seq<nat>)
    requires Ordered(a) && above < |a| && forall i :: 0 <= i < |cs| ==> above < cs[i] < |a|
    ensures forall i :: 0 <= i < |WalkAll(a, above, cs)| ==> WalkAll(a, above, cs)[i] < |a|
    ensures TotalTimes(ToNodes(a, above, cs)) == SumOver(a, WalkAll(a, above, cs))
    decreases |a| - above, |cs|
  {
    AllInRange(a, above, cs);
    if cs != [] {
      var front, c := cs[..|cs| - 1], cs[|cs| - 1];
      TreeTimes(a, above, front);
      TreeTime(a, c);
      SumJoin(a, WalkAll(a, above, front), Walk(a, c));
      var ns := ToNodes(a, above, cs);
      assert ns[..|ns| - 1] == ToNodes(a, above, front);
    }
  }

  lemma {:induction false} SumRemove(a: Arena, s: seq<nat>, i: nat)
    requires i < |s| && forall k :: 0 <= k < |s| ==> s[k] < |a|
    ensures SumOver(a, s) == SumOver(a, s[..i] + s[i + 1..]) + a[s[i]].dur
  {
    SumJoin(a, s[..i], s[i + 1..]);
    SumJoin(a, s[..i], [s[i]]);
    SumJoin(a, s[..i] + [s[i]], s[i + 1..]);
    assert s == s[..i] + [s[i]] + s[i + 1..];
    assert [s[i]][..0] == [];
  }

  lemma RemoveLast(s: seq<nat>, t: seq<nat>, i: nat)
    requires s != [] && multiset(s) == multiset(t) && i < |t| && t[i] == s[|s| - 1]
    ensures multiset(s[..|s| - 1]) == multiset(t[..i] + t[i + 1..])
  {
    var last := s[|s| - 1];
    assert s == s[..|s| - 1] + [last];
    assert t == t[..i] + [last] + t[i + 1..];
    assert multiset(t) == multiset(t[..i]) + multiset{last} + multiset(t[i + 1..]);
    assert multiset(t[..i] + t[i + 1..]) == multiset(t[..i]) + multiset(t[i + 1..]);
    var f, g := multiset(s[..|s| - 1]), multiset(t[..i] + t[i + 1..]);
    assert f + multiset{last} == g + multiset{last};
    assert f == f + multiset{last} - multiset{last};
    assert g == g + multiset{last} - multiset{last};
  }

  /** A sum over cells does not depend on the order of the visit. */
  lemma {:induction false} SumPermutation(a: Arena, s: seq<nat>, t: seq<nat>)
    requires multiset(s) == multiset(t)
    requires forall k :: 0 <= k < |s| ==> s[k] < |a|
    requires forall k :: 0 <= k < |t| ==> t[k] < |a|
    ensures SumOver(a, s) == SumOver(a, t)
    decreases |s|
  {
    if s == [] {
      assert |multiset(t)| == 0;
      assert t == [];
    } else {
      var last := s[|s| - 1];
      assert last in multiset(t);
      var i :| 0 <= i < |t| && t[i] == last;
      RemoveLast(s, t, i);
      SumRemove(a, t, i);
      SumPermutation(a, s[..|s| - 1], t[..i] + t[i + 1..]);
    }
  }

  function Indices(n: nat): seq<nat> {
    if n == 0 then [] else Indices(n - 1) + [n - 1]
  }

  lemma {:induction false} IndicesCount(n: nat, v: nat)
    ensures |Indices(n)| == n && (forall k :: 0 <= k < n ==> Indices(n)[k] < n)
    ensures Count(Indices(n), v) == if v < n then 1 else 0
  {
    if n > 0 {
      IndicesCount(n - 1, v);
      CountJoin(Indices(n - 1), [n - 1], v);
    }
  }

  lemma SameCounts(s: seq<nat>, t: seq<nat>)
    requires forall v: nat :: Count(s, v) == Count(t, v)
    ensures multiset(s) == multiset(t)
  {
    var a: multiset<nat>, b: multiset<nat> := multiset(s), multiset(t);
    forall v: nat
      ensures a[v] == b[v]
    {
      assert Count(s, v) == Count(t, v);
    }
  }

  function PhaseTime(labels: Labels, r: Record, n: nat): nat
    requires n <= |r.phases|
  {
    if n == 0 then r.total else PhaseTime(labels, r, n - 1) + PhaseCell(labels, r, r.phases[n - 1]).dur
  }

  function CellTime(labels: Labels, r: Record, x: nat): nat
    requires x <= |r.phases|
  {
    if x == 0 then r.total else PhaseCell(labels, r, r.phases[x - 1]).dur
  }

  lemma CellTimes(labels: Labels, r: Record, a: Arena, x: nat)
    requires a == Build(labels, r, |r.phases|) && x <= |r.phases|
    ensures x < |a| && a[x].dur == CellTime(labels, r, x)
  {
    BuildShape(labels, r, |r.phases|);
    if |r.phases| > 0 {
      CellData(labels, r, |r.phases|, if x == 0 then 0 else x - 1);
    }
  }

  lemma SumOne(a: Arena, s: seq<nat>, x: nat)
    requires x < |a| && forall k :: 0 <= k < |s| ==> s[k] < |a|
    ensures SumOver(a, s + [x]) == SumOver(a, s) + a[x].dur
  {
    assert (s + [x])[..|s|] == s;
  }

  lemma {:induction false} ArenaTime(labels: Labels, r: Record, a: Arena, m: nat)
    requires 1 <= m <= |a| == |r.phases| + 1
    requires forall x :: 0 <= x < |a| ==> a[x].dur == CellTime(labels, r, x)
    ensures forall k :: 0 <= k < |Indices(m)| ==> Indices(m)[k] < |a|
    ensures SumOver(a, Indices(m)) == PhaseTime(labels, r, m - 1)
  {
    hide SumOver, PhaseCell, Indices, Count;
    IndicesMore(m);
    IndicesCount(m, 0);
    IndicesCount(m - 1, 0);
    if m > 1 {
      ArenaTime(labels, r, a, m - 1);
    } else {
      SumNone(a);
    }
    var before := Indices(m - 1);
    assert forall k :: 0 <= k < |before| ==> before[k] < |a|;
    SumOne(a, before, m - 1);
  }

  lemma IndicesMore(m: nat)
    requires m > 0
    ensures Indices(m) == Indices(m - 1) + [m - 1] && Indices(0) == []
  {
  }

  lemma SumNone(a: Arena)
    ensures SumOver(a, []) == 0
  {
  }

  /** The tree's total is the request's total plus the duration of every phase, each counted once. */
  lemma TreeConservesTime(labels: Labels, r: Record)
    requires NoSelfParent(r.phases)
    ensures var a := Build(labels, r, |r.phases|);
            && Ordered(a) && |a| > 0
            && TotalTime(ToNode(a, 0)) == PhaseTime(labels, r, |r.phases|)
  {
    var a := Build(labels, r, |r.phases|);
    OneNodePerPhase(labels, r);
    TreeTime(a, 0);
    forall x | 0 <= x < |a|
      ensures a[x].dur == CellTime(labels, r, x)
    {
      CellTimes(labels, r, a, x);
    }
    ArenaTime(labels, r, a, |a|);
    var walk, all := Walk(a, 0), Indices(|a|);
    forall v: nat
      ensures Count(walk, v) == Count(all, v)
    {
      IndicesCount(|a|, v);
    }
    SameCounts(walk, all);
    SumPermutation(a, walk, all);
  }
}
