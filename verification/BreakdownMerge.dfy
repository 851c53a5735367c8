/** Joining the component trees of one sandbox and merging many sandboxes into one summary. */
module BreakdownMerge {
  import opened Options
  import opened Sweep
  import opened PhaseTree

  // ----- Joining two components -----

  /** The nodes in pre-order. */
  function Preorder(n: Node): seq<Node> {
    [n] + PreorderAll(n.children)
  }

  function PreorderAll(ns: seq<Node>): seq<Node> {
    if ns == [] then [] else Preorder(ns[0]) + PreorderAll(ns[1..])
  }

  predicate Names(ns: seq<Node>, name: string) {
    exists i :: 0 <= i < |ns| && ns[i].name == name
  }

  /** The tree with sub appended to the children of the first node, in pre-order, of that name. */
  function Graft(n: Node, name: string, sub: Node): Option<Node> {
    if n.name == name then Some(n.(children := n.children + [sub]))
    else match GraftAll(n.children, name, sub)
      case None => None
      case Some(cs) => Some(n.(children := cs))
  }

  function GraftAll(ns: seq<Node>, name: string, sub: Node): Option<seq<Node>> {
    if ns == [] then None
    else match Graft(ns[0], name, sub)
      case Some(m) => Some([m] + ns[1..])
      case None =>
        match GraftAll(ns[1..], name, sub)
        case None => None
        case Some(rest) => Some([ns[0]] + rest)
  }

  /** The client's tree: the API tree below it, the orchestrator tree below the API's gRPC phase;
      a missing layer is skipped. */
  function Assemble(root: Node, api: Option<Node>, orchestrator: Option<Node>, grpc: string): Node {
    match (api, orchestrator)
    case (None, None) => root
    case (None, Some(o)) => root.(children := root.children + [o])
    case (Some(a), None) => root.(children := root.children + [a])
    case (Some(a), Some(o)) =>
      var joined := match Graft(a, grpc, o) case Some(g) => g case None => a.(children := a.children + [o]);
      root.(children := root.children + [joined])
  }

  lemma {:induction false} TotalTimesJoin(a: seq<Node>, b: seq<Node>)
    ensures TotalTimes(a + b) == TotalTimes(a) + TotalTimes(b)
    decreases |b|
  {
    if b == [] {
      assert a + b == a;
    } else {
      TotalTimesJoin(a, b[..|b| - 1]);
      assert (a + b)[..|a + b| - 1] == a + b[..|b| - 1];
    }
  }

  lemma OneTime(n: Node)
    ensures TotalTimes([n]) == TotalTime(n)
  {
    assert [n][..0] == [];
  }

  lemma NamesJoin(a: seq<Node>, b: seq<Node>, name: string)
    ensures Names(a + b, name) <==> Names(a, name) || Names(b, name)
  {
    if Names(a, name) {
      var i :| 0 <= i < |a| && a[i].name == name;
      assert (a + b)[i].name == name;
    }
    if Names(b, name) {
      var i :| 0 <= i < |b| && b[i].name == name;
      assert (a + b)[|a| + i].name == name;
    }
  }

  /** A graft finds a place exactly when a node has the name, and adds exactly the sub-tree. */
  lemma {:induction false} GraftConserves(n: Node, name: string, sub: Node)
    ensures Graft(n, name, sub).Some? <==> Names(Preorder(n), name)
    ensures Graft(n, name, sub).Some? ==> TotalTime(Graft(n, name, sub).value) == TotalTime(n) + TotalTime(sub)
  {
    NamesJoin([n], PreorderAll(n.children), name);
    if n.name == name {
      assert [n][0].name == name;
      TotalTimesJoin(n.children, [sub]);
      OneTime(sub);
    } else {
      GraftAllConserves(n.children, name, sub);
    }
  }

  lemma {:induction false} GraftAllConserves(ns: seq<Node>, name: string, sub: Node)
    ensures GraftAll(ns, name, sub).Some? <==> Names(PreorderAll(ns), name)
    ensures GraftAll(ns, name, sub).Some? ==>
              TotalTimes(GraftAll(ns, name, sub).value) == TotalTimes(ns) + TotalTime(sub)
  {
    if ns != [] {
      GraftConserves(ns[0], name, sub);
      GraftAllConserves(ns[1..], name, sub);
      NamesJoin(Preorder(ns[0]), PreorderAll(ns[1..]), name);
      assert ns == [ns[0]] + ns[1..];
      TotalTimesJoin([ns[0]], ns[1..]);
      OneTime(ns[0]);
      if Graft(ns[0], name, sub).Some? {
        TotalTimesJoin([Graft(ns[0], name, sub).value], ns[1..]);
        OneTime(Graft(ns[0], name, sub).value);
      } else if GraftAll(ns[1..], name, sub).Some? {
        TotalTimesJoin([ns[0]], GraftAll(ns[1..], name, sub).value);
      }
    }
  }

  function Time(n: Option<Node>): nat {
    if n.Some? then TotalTime(n.value) else 0
  }

  /** Whatever layers are present, joining them neither loses nor repeats time. */
  lemma AssembleConserves(root: Node, api: Option<Node>, orchestrator: Option<Node>, grpc: string)
    ensures TotalTime(Assemble(root, api, orchestrator, grpc)) == TotalTime(root) + Time(api) + Time(orchestrator)
  {
    if api.Some? {
      TotalTimesJoin(root.children, [api.value]);
      OneTime(api.value);
    }
    if orchestrator.Some? {
      TotalTimesJoin(root.children, [orchestrator.value]);
      OneTime(orchestrator.value);
    }
    if api.Some? && orchestrator.Some? {
      GraftConserves(api.value, grpc, orchestrator.value);
      TotalTimesJoin(api.value.children, [orchestrator.value]);
      var whole := Assemble(root, api, orchestrator, grpc);
      var joined := whole.children[|whole.children| - 1];
      assert whole.children == root.children + [joined];
      TotalTimesJoin(root.children, [joined]);
      OneTime(joined);
    }
  }

  // ----- Where a tree is attached -----

  /** One line per node in pre-order; with the depths the outline determines the tree. */
  datatype Line = Line(name: string, dur: nat, start: Option<int>, depth: nat)

  function Outline(n: Node, depth: nat): seq<Line> {
    [Line(n.name, n.dur, n.start, depth)] + OutlineAll(n.children, depth + 1)
  }

  function OutlineAll(ns: seq<Node>, depth: nat): seq<Line> {
    if ns == [] then [] else Outline(ns[0], depth) + OutlineAll(ns[1..], depth)
  }

  lemma OutlineHead(ns: seq<Node>, depth: nat)
    requires ns != []
    ensures OutlineAll(ns, depth) == Outline(ns[0], depth) + OutlineAll(ns[1..], depth)
  {
  }

  lemma {:induction false} OutlineJoin(a: seq<Node>, b: seq<Node>, depth: nat)
    ensures OutlineAll(a + b, depth) == OutlineAll(a, depth) + OutlineAll(b, depth)
  {
    if a == [] {
      assert a + b == b;
      assert OutlineAll(a, depth) == [];
    } else {
      hide Outline, OutlineAll;
      OutlineJoin(a[1..], b, depth);
      OutlineHead(a, depth);
      OutlineHead(a + b, depth);
      assert (a + b)[1..] == a[1..] + b && (a + b)[0] == a[0];
      JoinThree(Outline(a[0], depth), OutlineAll(a[1..], depth), OutlineAll(b, depth));
    }
  }

  lemma JoinThree(x: seq<Line>, y: seq<Line>, z: seq<Line>)
    ensures (x + y) + z == x + (y + z)
  {
  }

  lemma OutlineOne(n: Node, depth: nat)
    ensures OutlineAll([n], depth) == Outline(n, depth)
  {
    assert [n][1..] == [];
  }

  predicate NotAbove(lines: seq<Line>, depth: nat) {
    forall j :: 0 <= j < |lines| ==> lines[j].depth >= depth
  }

  lemma {:induction false} OutlineDeeper(ns: seq<Node>, depth: nat)
    ensures NotAbove(OutlineAll(ns, depth), depth)
  {
    if ns != [] {
      OutlineDeeper(ns[0].children, depth + 1);
      OutlineDeeper(ns[1..], depth);
      var first, inner := Outline(ns[0], depth), OutlineAll(ns[0].children, depth + 1);
      assert first[1..] == inner;
      assert forall j :: 0 < j < |first| ==> first[j] == inner[j - 1];
      assert NotAbove(first, depth);
      OutlineHead(ns, depth);
    }
  }

  lemma {:induction false} OutlineNames(n: Node, name: string, depth: nat)
    ensures forall j :: 0 <= j < |Outline(n, depth)| && Outline(n, depth)[j].name == name ==> Names(Preorder(n), name)
  {
    OutlineNamesAll(n.children, name, depth + 1);
    NamesJoin([n], PreorderAll(n.children), name);
    assert n.name == name ==> [n][0].name == name;
  }

  lemma {:induction false} OutlineNamesAll(ns: seq<Node>, name: string, depth: nat)
    ensures forall j :: 0 <= j < |OutlineAll(ns, depth)| && OutlineAll(ns, depth)[j].name == name ==>
              Names(PreorderAll(ns), name)
  {
    if ns != [] {
      OutlineNames(ns[0], name, depth);
      OutlineNamesAll(ns[1..], name, depth);
      NamesJoin(Preorder(ns[0]), PreorderAll(ns[1..]), name);
    }
  }

  /** Line i is the first of the name, k is where its sub-tree ends, and out has sub as its last child. */
  ghost predicate Placed(lines: seq<Line>, name: string, sub: Node, i: nat, k: nat, out: seq<Line>) {
    && i < k <= |lines| && lines[i].name == name && (forall j :: 0 <= j < i ==> lines[j].name != name)
    && EndsAt(lines, i, k)
    && out == lines[..k] + Outline(sub, lines[i].depth + 1) + lines[k..]
  }

  predicate EndsAt(lines: seq<Line>, i: nat, k: nat)
    requires i < k <= |lines|
  {
    && (forall j :: i < j < k ==> lines[j].depth > lines[i].depth)
    && (k < |lines| ==> lines[k].depth <= lines[i].depth)
  }

  /** The same place with lines before it and lines no deeper behind it. */
  lemma PlacedWithin(before: seq<Line>, lines: seq<Line>, after: seq<Line>, name: string, sub: Node, i: nat, k: nat, out: seq<Line>)
    requires Placed(lines, name, sub, i, k, out)
    requires forall j :: 0 <= j < |before| ==> before[j].name != name
    requires after != [] ==> after[0].depth <= lines[i].depth
    ensures Placed(before + lines + after, name, sub, |before| + i, |before| + k, before + out + after)
  {
    hide Outline, EndsAt;
    var all, m := before + lines + after, |before|;
    assert all[m + i] == lines[i];
    EndsWithin(before, lines, after, i, k);
    InsertWithin(before, lines, after, Outline(sub, lines[i].depth + 1), k);
  }

  lemma EndsWithin(before: seq<Line>, lines: seq<Line>, after: seq<Line>, i: nat, k: nat)
    requires i < k <= |lines| && EndsAt(lines, i, k)
    requires after != [] ==> after[0].depth <= lines[i].depth
    ensures EndsAt(before + lines + after, |before| + i, |before| + k)
  {
    var all, m := before + lines + after, |before|;
    forall j | m + i < j < m + k
      ensures all[j].depth > all[m + i].depth
    {
      assert all[j] == lines[j - m];
    }
  }

  lemma InsertWithin<T>(before: seq<T>, lines: seq<T>, after: seq<T>, extra: seq<T>, k: nat)
    requires k <= |lines|
    ensures var all, m := before + lines + after, |before|;
            all[..m + k] + extra + all[m + k..] == before + (lines[..k] + extra + lines[k..]) + after
  {
    var all, m := before + lines + after, |before|;
    assert all[..m + k] == before + lines[..k];
    assert all[m + k..] == lines[k..] + after;
  }

  lemma PlacedAtRoot(n: Node, sub: Node, depth: nat)
    ensures var lines := Outline(n, depth);
            Placed(lines, n.name, sub, 0, |lines|, Outline(n.(children := n.children + [sub]), depth))
  {
    hide OutlineAll;
    var lines, inner := Outline(n, depth), OutlineAll(n.children, depth + 1);
    OutlineDeeper(n.children, depth + 1);
    LastChild(n, sub, depth);
    hide Outline;
    assert forall j :: 0 < j < |lines| ==> lines[j] == inner[j - 1];
    assert lines[..|lines|] == lines && lines[|lines|..] == [];
  }

  /** A graft makes the sub-tree the last child of the first node of the name, in pre-order. */
  lemma {:induction false} GraftPlaces(n: Node, name: string, sub: Node, depth: nat) returns (i: nat, k: nat)
    requires Graft(n, name, sub).Some?
    ensures Placed(Outline(n, depth), name, sub, i, k, Outline(Graft(n, name, sub).value, depth))
  {
    var lines := Outline(n, depth);
    var inner := OutlineAll(n.children, depth + 1);
    if n.name == name {
      i, k := 0, |lines|;
      PlacedAtRoot(n, sub, depth);
    } else {
      i, k := GraftAllPlaces(n.children, name, sub, depth + 1);
      var head, out := [lines[0]], OutlineAll(GraftAll(n.children, name, sub).value, depth + 1);
      hide OutlineAll, Placed;
      PlacedWithin(head, inner, [], name, sub, i, k, out);
      assert head + inner + [] == lines && head + out + [] == Outline(Graft(n, name, sub).value, depth);
      i, k := i + 1, k + 1;
    }
  }

  lemma {:induction false} GraftAllPlaces(ns: seq<Node>, name: string, sub: Node, depth: nat) returns (i: nat, k: nat)
    requires GraftAll(ns, name, sub).Some?
    ensures Placed(OutlineAll(ns, depth), name, sub, i, k, OutlineAll(GraftAll(ns, name, sub).value, depth))
  {
    hide Outline, OutlineAll, Placed, Names, TotalTime;
    var grafted := GraftAll(ns, name, sub).value;
    if Graft(ns[0], name, sub).Some? {
      i, k := GraftPlaces(ns[0], name, sub, depth);
      assert grafted == [Graft(ns[0], name, sub).value] + ns[1..];
      hide Graft, GraftAll;
      PlacedInFirst(ns[0], Graft(ns[0], name, sub).value, ns[1..], name, sub, depth, i, k);
      assert ns == [ns[0]] + ns[1..];
    } else {
      i, k := GraftAllPlaces(ns[1..], name, sub, depth);
      assert grafted == [ns[0]] + GraftAll(ns[1..], name, sub).value;
      GraftConserves(ns[0], name, sub);
      hide Graft, GraftAll;
      PlacedInRest(ns[0], ns[1..], GraftAll(ns[1..], name, sub).value, name, sub, depth, i, k);
      assert ns == [ns[0]] + ns[1..];
      i, k := |Outline(ns[0], depth)| + i, |Outline(ns[0], depth)| + k;
    }
  }

  lemma OutlineCons(n: Node, ns: seq<Node>, depth: nat)
    ensures OutlineAll([n] + ns, depth) == Outline(n, depth) + OutlineAll(ns, depth)
  {
    assert ([n] + ns)[1..] == ns;
  }

  lemma PlacedAt(lines: seq<Line>, name: string, sub: Node, i: nat, k: nat, out: seq<Line>)
    requires Placed(lines, name, sub, i, k, out)
    ensures i < |lines|
  {
  }

  lemma PlacedInFirst(n: Node, m: Node, rest: seq<Node>, name: string, sub: Node, depth: nat, i: nat, k: nat)
    requires Placed(Outline(n, depth), name, sub, i, k, Outline(m, depth))
    ensures Placed(OutlineAll([n] + rest, depth), name, sub, i, k, OutlineAll([m] + rest, depth))
  {
    hide Outline, OutlineAll, Placed;
    OutlineCons(n, rest, depth);
    OutlineCons(m, rest, depth);
    FirstAtDepth(n, rest, depth);
    PlacedAt(Outline(n, depth), name, sub, i, k, Outline(m, depth));
    var first, out, after := Outline(n, depth), Outline(m, depth), OutlineAll(rest, depth);
    PlacedWithin([], first, after, name, sub, i, k, out);
    assert [] + first + after == first + after && [] + out + after == out + after;
  }

  lemma PlacedInRest(n: Node, rest: seq<Node>, grafted: seq<Node>, name: string, sub: Node, depth: nat, i: nat, k: nat)
    requires Placed(OutlineAll(rest, depth), name, sub, i, k, OutlineAll(grafted, depth)) && !Names(Preorder(n), name)
    ensures var m := |Outline(n, depth)|;
            Placed(OutlineAll([n] + rest, depth), name, sub, m + i, m + k, OutlineAll([n] + grafted, depth))
  {
    hide Outline, OutlineAll, Placed;
    OutlineCons(n, rest, depth);
    OutlineCons(n, grafted, depth);
    OutlineNames(n, name, depth);
    var first, lines, out := Outline(n, depth), OutlineAll(rest, depth), OutlineAll(grafted, depth);
    PlacedWithin(first, lines, [], name, sub, i, k, out);
    assert first + lines + [] == first + lines && first + out + [] == first + out;
  }

  lemma FirstAtDepth(n: Node, rest: seq<Node>, depth: nat)
    ensures NotAbove(Outline(n, depth), depth)
    ensures rest != [] ==> OutlineAll(rest, depth) != [] && OutlineAll(rest, depth)[0].depth == depth
    ensures rest == [] ==> OutlineAll(rest, depth) == []
  {
    OutlineDeeper([n], depth);
    OutlineOne(n, depth);
  }

  /** The assembled tree, line by line: the client's lines, then the API's with the orchestrator's
      placed below the first gRPC phase, or as the API's last child if there is none. */
  lemma AssemblePlaces(root: Node, api: Node, orchestrator: Node, grpc: string)
    ensures var a, o := Outline(api, 1), Outline(orchestrator, 2);
            var whole := Outline(Assemble(root, Some(api), Some(orchestrator), grpc), 0);
            && Outline(root, 0) <= whole
            && var below := whole[|Outline(root, 0)|..];
               if Names(Preorder(api), grpc) then exists i, k :: Placed(a, grpc, orchestrator, i, k, below)
               else below == a + o
    ensures Outline(Assemble(root, Some(api), None, grpc), 0) == Outline(root, 0) + Outline(api, 1)
    ensures Outline(Assemble(root, None, Some(orchestrator), grpc), 0) == Outline(root, 0) + Outline(orchestrator, 1)
    ensures Outline(Assemble(root, None, None, grpc), 0) == Outline(root, 0)
  {
    hide Outline, Graft, Placed, Preorder, TotalTime;
    LastChild(root, api, 0);
    LastChild(root, orchestrator, 0);
    GraftConserves(api, grpc, orchestrator);
    if Graft(api, grpc, orchestrator).Some? {
      var i, k := GraftPlaces(api, grpc, orchestrator, 1);
      LastChild(root, Graft(api, grpc, orchestrator).value, 0);
    } else {
      LastChild(api, orchestrator, 1);
      LastChild(root, api.(children := api.children + [orchestrator]), 0);
    }
  }

  lemma LastChild(n: Node, c: Node, depth: nat)
    ensures Outline(n.(children := n.children + [c]), depth) == Outline(n, depth) + Outline(c, depth + 1)
  {
    hide OutlineAll;
    OutlineJoin(n.children, [c], depth + 1);
    OutlineOne(c, depth + 1);
  }

  // ----- Merging -----

  datatype Bucket = Bucket(samples: seq<nat>, starts: seq<int>, rest: seq<nat>, children: map<string, Bucket>)

  const EMPTY_BUCKET := Bucket([], [], [], map[])

  function SumDur(ns: seq<Node>): nat {
    if ns == [] then 0 else SumDur(ns[..|ns| - 1]) + ns[|ns| - 1].dur
  }

  /** The children of that name, of all the nodes, in order. */
  function KidsOf(cs: seq<Node>, name: string): seq<Node> {
    if cs == [] then [] else
    KidsOf(cs[..|cs| - 1], name) + if cs[|cs| - 1].name == name then [cs[|cs| - 1]] else []
  }

  function Kids(ns: seq<Node>, name: string): seq<Node> {
    if ns == [] then [] else Kids(ns[..|ns| - 1], name) + KidsOf(ns[|ns| - 1].children, name)
  }

  /** The nodes found by following a path of names down from the given ones. */
  function NodesAt(ns: seq<Node>, path: seq<string>): seq<Node>
    decreases |path|
  {
    if path == [] then ns else NodesAt(Kids(ns, path[0]), path[1..])
  }

  function BucketAt(b: Bucket, path: seq<string>): Option<Bucket>
    decreases |path|
  {
    if path == [] then Some(b)
    else if path[0] in b.children then BucketAt(b.children[path[0]], path[1..])
    else None
  }

  /** What a bucket records at one path, apart from its children. */
  datatype Entry = Entry(samples: seq<nat>, starts: seq<int>, rest: seq<nat>)

  function EntryAt(b: Bucket, path: seq<string>): Entry {
    match BucketAt(b, path)
    case None => Entry([], [], [])
    case Some(x) => Entry(x.samples, x.starts, x.rest)
  }

  function Starts(ns: seq<Node>): seq<int> {
    if ns == [] then [] else
    Starts(ns[..|ns| - 1]) + if ns[|ns| - 1].start.Some? then [ns[|ns| - 1].start.value] else []
  }

  function Least(xs: seq<int>): int
    requires xs != []
  {
    if |xs| == 1 then xs[0] else Min(Least(xs[..|xs| - 1]), xs[|xs| - 1])
  }

  /** The earliest start among the nodes that have one. */
  ghost predicate EarliestStart(ns: seq<Node>, m: int) {
    && (exists i :: 0 <= i < |ns| && ns[i].start == Some(m))
    && (forall i :: 0 <= i < |ns| && ns[i].start.Some? ==> m <= ns[i].start.value)
  }

  lemma {:induction false} LeastIsEarliest(ns: seq<Node>)
    ensures Starts(ns) == [] <==> forall i :: 0 <= i < |ns| ==> ns[i].start.None?
    ensures Starts(ns) != [] ==> EarliestStart(ns, Least(Starts(ns)))
  {
    if ns != [] {
      var n := |ns| - 1;
      LeastIsEarliest(ns[..n]);
      assert forall i :: 0 <= i < n ==> ns[i] == ns[..n][i];
      if ns[n].start.Some? {
        var before := Starts(ns[..n]);
        assert Starts(ns)[..|before|] == before;
      } else {
        assert Starts(ns) == Starts(ns[..n]);
      }
    }
  }

  /** The sums are sums: of the durations, and of the uncovered time of the nodes with children. */
  lemma {:induction false} SumsAreAdditive(a: seq<Node>, b: seq<Node>, n: Node)
    ensures SumDur([]) == 0 && SumRest([]) == 0
    ensures SumDur([n]) == n.dur && SumRest([n]) == if n.children != [] then UncoveredTime(n) else 0
    ensures SumDur(a + b) == SumDur(a) + SumDur(b) && SumRest(a + b) == SumRest(a) + SumRest(b)
    decreases |b|
  {
    assert [n][..0] == [];
    if b == [] {
      assert a + b == a;
    } else {
      SumsAreAdditive(a, b[..|b| - 1], n);
      assert (a + b)[..|a + b| - 1] == a + b[..|b| - 1];
    }
  }

  predicate HasChildren(ns: seq<Node>) {
    exists i :: 0 <= i < |ns| && ns[i].children != []
  }

  function SumRest(ns: seq<Node>): nat {
    if ns == [] then 0 else
    SumRest(ns[..|ns| - 1]) + if ns[|ns| - 1].children != [] then UncoveredTime(ns[|ns| - 1]) else 0
  }

  /** One merge adds one sample, the summed durations; one start, the earliest; and one remainder,
      the summed uncovered time, where there is something to add. */
  function Extend(e: Entry, ns: seq<Node>): Entry {
    if ns == [] then e else
    Entry(e.samples + [SumDur(ns)],
          if Starts(ns) == [] then e.starts else e.starts + [Least(Starts(ns))],
          if HasChildren(ns) then e.rest + [SumRest(ns)] else e.rest)
  }

  // ----- Size, for termination -----

  function Size(n: Node): nat {
    1 + SizeAll(n.children)
  }

  function SizeAll(ns: seq<Node>): nat {
    if ns == [] then 0 else SizeAll(ns[..|ns| - 1]) + Size(ns[|ns| - 1])
  }

  lemma {:induction false} SizeJoin(a: seq<Node>, b: seq<Node>)
    ensures SizeAll(a + b) == SizeAll(a) + SizeAll(b)
    decreases |b|
  {
    if b == [] {
      assert a + b == a;
    } else {
      SizeJoin(a, b[..|b| - 1]);
      assert (a + b)[..|a + b| - 1] == a + b[..|b| - 1];
    }
  }

  lemma {:induction false} KidsOfSize(cs: seq<Node>, name: string)
    ensures SizeAll(KidsOf(cs, name)) <= SizeAll(cs)
  {
    if cs != [] {
      KidsOfSize(cs[..|cs| - 1], name);
      if cs[|cs| - 1].name == name {
        SizeJoin(KidsOf(cs[..|cs| - 1], name), [cs[|cs| - 1]]);
        assert [cs[|cs| - 1]][..0] == [];
      } else {
        assert KidsOf(cs, name) == KidsOf(cs[..|cs| - 1], name);
      }
    }
  }

  lemma {:induction false} KidsSmaller(ns: seq<Node>, name: string)
    ensures SizeAll(Kids(ns, name)) + |ns| <= SizeAll(ns)
  {
    if ns != [] {
      KidsSmaller(ns[..|ns| - 1], name);
      KidsOfSize(ns[|ns| - 1].children, name);
      SizeJoin(Kids(ns[..|ns| - 1], name), KidsOf(ns[|ns| - 1].children, name));
    }
  }

  // ----- The merge -----

  /** The first sums of the merge, before the children. */
  method Local(bucket: Bucket, ns: seq<Node>) returns (b: Bucket)
    requires ns != []
    ensures b.children == bucket.children
    ensures Entry(b.samples, b.starts, b.rest) == Extend(Entry(bucket.samples, bucket.starts, bucket.rest), ns)
    ensures b.samples == bucket.samples + [SumDur(ns)]
    ensures b.starts == bucket.starts || exists m :: b.starts == bucket.starts + [m] && EarliestStart(ns, m)
    ensures b.starts == bucket.starts <==> forall i :: 0 <= i < |ns| ==> ns[i].start.None?
    ensures b.rest == if exists i :: 0 <= i < |ns| && ns[i].children != [] then bucket.rest + [SumRest(ns)] else bucket.rest
  {
    var total, rest, any := 0, 0, false;
    var starts: seq<int> := [];
    for i := 0 to |ns|
      invariant total == SumDur(ns[..i]) && starts == Starts(ns[..i]) && rest == SumRest(ns[..i])
      invariant any <==> HasChildren(ns[..i])
    {
      assert ns[..i + 1][..i] == ns[..i];
      total := total + ns[i].dur;
      if ns[i].start.Some? {
        starts := starts + [ns[i].start.value];
      }
      if ns[i].children != [] {
        var u := Uncovered(ns[i]);
        rest := rest + u;
        assert ns[..i + 1][i].children != [];
      }
      assert HasChildren(ns[..i + 1]) <==> HasChildren(ns[..i]) || ns[i].children != [] by {
        assert forall j :: 0 <= j < i ==> ns[..i + 1][j] == ns[..i][j];
      }
      any := any || ns[i].children != [];
    }
    assert ns[..|ns|] == ns;
    b := bucket.(samples := bucket.samples + [total],
                 starts := if starts == [] then bucket.starts else bucket.starts + [Least(starts)],
                 rest := if any then bucket.rest + [rest] else bucket.rest);
    LeastIsEarliest(ns);
  }

  /** groups holds the non-empty groups of the nodes and of some further children. */
  ghost predicate Grouped(groups: map<string, seq<Node>>, ns: seq<Node>, more: seq<Node>) {
    && (forall name :: name in groups ==>
          groups[name] == Kids(ns, name) + KidsOf(more, name) && groups[name] != [])
    && (forall name :: name !in groups ==> Kids(ns, name) + KidsOf(more, name) == [])
  }

  lemma GroupedChild(groups: map<string, seq<Node>>, ns: seq<Node>, more: seq<Node>, c: Node)
    requires Grouped(groups, ns, more)
    ensures Grouped(groups[c.name := (if c.name in groups then groups[c.name] else []) + [c]], ns, more + [c])
  {
    var all := more + [c];
    assert all[..|more|] == more;
    forall name
      ensures KidsOf(all, name) == KidsOf(more, name) + if name == c.name then [c] else []
    {
    }
    hide KidsOf, Kids;
  }

  lemma GroupedNode(groups: map<string, seq<Node>>, ns: seq<Node>, n: Node)
    requires Grouped(groups, ns, n.children)
    ensures Grouped(groups, ns + [n], [])
  {
    assert (ns + [n])[..|ns|] == ns;
    forall name
      ensures Kids(ns + [n], name) + KidsOf([], name) == Kids(ns, name) + KidsOf(n.children, name)
    {
    }
    hide KidsOf, Kids;
  }

  lemma NoGroups()
    ensures Grouped(map[], [], [])
  {
  }

  /** The children grouped by name. */
  method Group(ns: seq<Node>) returns (groups: map<string, seq<Node>>)
    ensures Grouped(groups, ns, [])
  {
    hide Grouped;
    NoGroups();
    groups := map[];
    assert ns[..0] == [];
    for i := 0 to |ns|
      invariant Grouped(groups, ns[..i], [])
    {
      var cs := ns[i].children;
      assert cs[..0] == [];
      for j := 0 to |cs|
        invariant Grouped(groups, ns[..i], cs[..j])
      {
        GroupedChild(groups, ns[..i], cs[..j], cs[j]);
        assert cs[..j + 1] == cs[..j] + [cs[j]];
        groups := groups[cs[j].name := (if cs[j].name in groups then groups[cs[j].name] else []) + [cs[j]]];
      }
      assert cs[..|cs|] == cs;
      GroupedNode(groups, ns[..i], ns[i]);
      assert ns[..i + 1] == ns[..i] + [ns[i]];
    }
    assert ns[..|ns|] == ns;
  }

  lemma GroupsAreKids(groups: map<string, seq<Node>>, ns: seq<Node>)
    requires Grouped(groups, ns, [])
    ensures forall name :: name in groups ==> groups[name] == Kids(ns, name) && groups[name] != []
    ensures forall name :: name !in groups ==> Kids(ns, name) == []
  {
    assert forall name :: Kids(ns, name) + KidsOf([], name) == Kids(ns, name);
  }

  /** At every path the merge does exactly what one more set of nodes asks for, and a path exists
      afterwards exactly when it did or when some node is there. */
  ghost predicate Merged(b: Bucket, ns: seq<Node>, b': Bucket) {
    forall path ::
      && EntryAt(b', path) == Extend(EntryAt(b, path), NodesAt(ns, path))
      && (BucketAt(b', path).Some? <==> BucketAt(b, path).Some? || NodesAt(ns, path) != [])
  }

  lemma {:induction false} NoNodesBelow(path: seq<string>)
    ensures NodesAt([], path) == []
    decreases |path|
  {
    if path != [] {
      assert Kids([], path[0]) == [];
      NoNodesBelow(path[1..]);
    }
  }

  method Merge(bucket: Bucket, ns: seq<Node>) returns (b: Bucket)
    requires ns != []
    ensures Merged(bucket, ns, b)
    decreases SizeAll(ns)
  {
    b := Local(bucket, ns);
    var groups := Group(ns);
    GroupsAreKids(groups, ns);
    var todo := groups.Keys;
    ghost var entry := b;
    while todo != {}
      invariant todo <= groups.Keys
      invariant b.(children := map[]) == entry.(children := map[])
      invariant forall name :: name in groups.Keys - todo ==>
                  name in b.children && Merged(Child(bucket, name), groups[name], b.children[name])
      invariant forall name :: name !in groups.Keys - todo ==>
                  (name in b.children <==> name in bucket.children) && Child(b, name) == Child(bucket, name)
      decreases todo
    {
      var name :| name in todo;
      KidsSmaller(ns, name);
      var child := if name in b.children then b.children[name] else EMPTY_BUCKET;
      var merged := Merge(child, groups[name]);
      b := b.(children := b.children[name := merged]);
      todo := todo - {name};
    }
    MergedFromChildren(bucket, ns, groups, b);
  }

  function Child(b: Bucket, name: string): Bucket {
    if name in b.children then b.children[name] else EMPTY_BUCKET
  }

  lemma MergedFromChildren(bucket: Bucket, ns: seq<Node>, groups: map<string, seq<Node>>, b: Bucket)
    requires ns != []
    requires Entry(b.samples, b.starts, b.rest) == Extend(Entry(bucket.samples, bucket.starts, bucket.rest), ns)
    requires forall name :: name in groups ==> groups[name] == Kids(ns, name) && groups[name] != []
    requires forall name :: name !in groups ==> Kids(ns, name) == []
    requires forall name :: name in groups ==>
               name in b.children && Merged(Child(bucket, name), groups[name], b.children[name])
    requires forall name :: name !in groups ==>
               (name in b.children <==> name in bucket.children) && Child(b, name) == Child(bucket, name)
    ensures Merged(bucket, ns, b)
  {
    forall path
      ensures EntryAt(b, path) == Extend(EntryAt(bucket, path), NodesAt(ns, path))
      ensures BucketAt(b, path).Some? <==> BucketAt(bucket, path).Some? || NodesAt(ns, path) != []
    {
      if path != [] {
        MergedAt(bucket, ns, groups, b, path);
      }
    }
  }

  lemma MergedAt(bucket: Bucket, ns: seq<Node>, groups: map<string, seq<Node>>, b: Bucket, path: seq<string>)
    requires path != []
    requires path[0] in groups ==>
               && groups[path[0]] == Kids(ns, path[0]) && groups[path[0]] != []
               && path[0] in b.children && Merged(Child(bucket, path[0]), groups[path[0]], b.children[path[0]])
    requires path[0] !in groups ==>
               && Kids(ns, path[0]) == []
               && (path[0] in b.children <==> path[0] in bucket.children) && Child(b, path[0]) == Child(bucket, path[0])
    ensures EntryAt(b, path) == Extend(EntryAt(bucket, path), NodesAt(ns, path))
    ensures BucketAt(b, path).Some? <==> BucketAt(bucket, path).Some? || NodesAt(ns, path) != []
  {
    var name, rest := path[0], path[1..];
    NoNodesBelow(rest);
    EmptyBucketAt(rest);
    if name in groups {
      assert EntryAt(b.children[name], rest) == Extend(EntryAt(Child(bucket, name), rest), NodesAt(groups[name], rest));
      NodesBelowEmpty(groups[name], rest);
    }
  }

  lemma EmptyBucketAt(path: seq<string>)
    ensures EntryAt(EMPTY_BUCKET, path) == Entry([], [], [])
    ensures BucketAt(EMPTY_BUCKET, path).Some? <==> path == []
  {
  }

  lemma NodesBelowEmpty(ns: seq<Node>, path: seq<string>)
    ensures path == [] ==> NodesAt(ns, path) == ns
  {
  }

  // ----- Many merges -----

  function Sum(xs: seq<nat>): nat {
    if xs == [] then 0 else Sum(xs[..|xs| - 1]) + xs[|xs| - 1]
  }

  function TimeAt(trees: seq<Node>, path: seq<string>): nat {
    if trees == [] then 0 else TimeAt(trees[..|trees| - 1], path) + SumDur(NodesAt([trees[|trees| - 1]], path))
  }

  function RestAt(trees: seq<Node>, path: seq<string>): nat {
    if trees == [] then 0 else RestAt(trees[..|trees| - 1], path) + SumRest(NodesAt([trees[|trees| - 1]], path))
  }

  lemma SumMore(xs: seq<nat>, x: nat)
    ensures Sum(xs + [x]) == Sum(xs) + x
  {
    assert (xs + [x])[..|xs|] == xs;
  }

  lemma {:induction false} NoRestWithoutChildren(ns: seq<Node>)
    requires !HasChildren(ns)
    ensures SumRest(ns) == 0
  {
    if ns != [] {
      assert forall i :: 0 <= i < |ns| - 1 ==> ns[..|ns| - 1][i] == ns[i];
      NoRestWithoutChildren(ns[..|ns| - 1]);
    }
  }

  /** What one merge adds at a path. */
  lemma SumsAfter(before: Bucket, tree: Node, b: Bucket, path: seq<string>)
    requires Merged(before, [tree], b)
    ensures Sum(EntryAt(b, path).samples) == Sum(EntryAt(before, path).samples) + SumDur(NodesAt([tree], path))
    ensures Sum(EntryAt(b, path).rest) == Sum(EntryAt(before, path).rest) + SumRest(NodesAt([tree], path))
  {
    hide EntryAt, NodesAt, Sum, SumDur, SumRest;
    var ns, e := NodesAt([tree], path), EntryAt(before, path);
    SumMore(e.samples, SumDur(ns));
    SumMore(e.rest, SumRest(ns));
    NothingAdded();
    if !HasChildren(ns) {
      NoRestWithoutChildren(ns);
    }
  }

  lemma NothingAdded()
    ensures SumDur([]) == 0 && SumRest([]) == 0
  {
  }

  /** After merging any list of sandboxes, at every path the samples add up to the durations of all
      nodes at that path, and the remainders to their uncovered time. */
  method MergeAll(trees: seq<Node>) returns (b: Bucket)
    ensures forall path :: Sum(EntryAt(b, path).samples) == TimeAt(trees, path)
    ensures forall path :: Sum(EntryAt(b, path).rest) == RestAt(trees, path)
  {
    b := EMPTY_BUCKET;
    forall path
      ensures EntryAt(b, path) == Entry([], [], [])
    {
      EmptyBucketAt(path);
    }
    for i := 0 to |trees|
      invariant forall path :: Sum(EntryAt(b, path).samples) == TimeAt(trees[..i], path)
      invariant forall path :: Sum(EntryAt(b, path).rest) == RestAt(trees[..i], path)
    {
      hide Merged, EntryAt, Sum;
      var before := b;
      b := Merge(b, [trees[i]]);
      assert trees[..i + 1][..i] == trees[..i];
      forall path
        ensures Sum(EntryAt(b, path).samples) == TimeAt(trees[..i + 1], path)
        ensures Sum(EntryAt(b, path).rest) == RestAt(trees[..i + 1], path)
      {
        SumsAfter(before, trees[i], b, path);
      }
    }
    assert trees[..|trees|] == trees;
  }
}
