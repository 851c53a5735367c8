/** Selecting end-to-end cases with their transitive dependencies: a depth-first search that shares
    two sets across its recursion. */
module CaseSelection {

  datatype Case = Case(id: string, dependsOn: seq<string>)

  type Catalog = map<string, Case>

  /** The dictionary built from the catalog; the last case with an ID wins. */
  function ById(cases: seq<Case>): Catalog {
    if cases == [] then map[] else ById(cases[..|cases| - 1])[cases[|cases| - 1].id := cases[|cases| - 1]]
  }

  // ----- Reachability -----

  predicate Edge(g: Catalog, x: string, y: string) {
    x in g && y in g[x].dependsOn
  }

  ghost predicate ReachIn(g: Catalog, x: string, y: string, n: nat)
    decreases n
  {
    if n == 0 then x == y else exists z :: Edge(g, x, z) && ReachIn(g, z, y, n - 1)
  }

  ghost predicate Reach(g: Catalog, x: string, y: string) {
    exists n :: ReachIn(g, x, y, n)
  }

  ghost predicate ReachPlus(g: Catalog, x: string, y: string) {
    exists n :: n > 0 && ReachIn(g, x, y, n)
  }

  /** An unknown case or a cycle can be reached. */
  ghost predicate Broken(g: Catalog, x: string) {
    exists y :: Reach(g, x, y) && (y !in g || ReachPlus(g, y, y))
  }

  lemma {:induction false} Join(g: Catalog, x: string, y: string, z: string, n: nat, m: nat)
    requires ReachIn(g, x, y, n) && ReachIn(g, y, z, m)
    ensures ReachIn(g, x, z, n + m)
    decreases n
  {
    if n > 0 {
      var w :| Edge(g, x, w) && ReachIn(g, w, y, n - 1);
      Join(g, w, y, z, n - 1, m);
    }
  }

  lemma EdgeReaches(g: Catalog, x: string, y: string)
    requires Edge(g, x, y)
    ensures ReachIn(g, x, y, 1) && ReachPlus(g, x, y) && Reach(g, x, y)
  {
    assert ReachIn(g, y, y, 0);
  }

  lemma SelfReaches(g: Catalog, x: string)
    ensures Reach(g, x, x)
  {
    assert ReachIn(g, x, x, 0);
  }

  lemma ReachJoin(g: Catalog, x: string, y: string, z: string)
    requires Reach(g, x, y) && Reach(g, y, z)
    ensures Reach(g, x, z)
    ensures ReachPlus(g, x, y) ==> ReachPlus(g, x, z)
  {
    var m :| ReachIn(g, y, z, m);
    var n :| ReachIn(g, x, y, n);
    Join(g, x, y, z, n, m);
    if ReachPlus(g, x, y) {
      var k :| k > 0 && ReachIn(g, x, y, k);
      Join(g, x, y, z, k, m);
    }
  }

  lemma BrokenBelow(g: Catalog, x: string, y: string)
    requires Reach(g, x, y) && Broken(g, y)
    ensures Broken(g, x)
  {
    var z :| Reach(g, y, z) && (z !in g || ReachPlus(g, z, z));
    ReachJoin(g, x, y, z);
  }

  lemma CycleBreaks(g: Catalog, x: string)
    requires ReachPlus(g, x, x)
    ensures Broken(g, x)
  {
    SelfReaches(g, x);
  }

  lemma UnknownBreaks(g: Catalog, x: string, y: string)
    requires Edge(g, x, y) && y !in g
    ensures Broken(g, x)
  {
    EdgeReaches(g, x, y);
  }

  // ----- What the search has built -----

  /** The cases in the order they were completed: each comes after all it depends on. */
  ghost predicate Completed(g: Catalog, order: seq<string>) {
    && (forall i, j :: 0 <= i < j < |order| ==> order[i] != order[j])
    && (forall i :: 0 <= i < |order| ==> order[i] in g)
    && (forall i, d :: 0 <= i < |order| && d in g[order[i]].dependsOn ==> d in order[..i])
  }

  lemma DependsEarlier(g: Catalog, order: seq<string>, i: nat, z: string) returns (k: nat)
    requires Completed(g, order) && i < |order| && Edge(g, order[i], z)
    ensures k < i && order[k] == z
  {
    assert z in order[..i];
    k :| 0 <= k < i && order[k] == z;
  }

  /** Every step down from a completed case lands earlier in the order. */
  lemma {:induction false} DownTheOrder(g: Catalog, order: seq<string>, i: nat, y: string, n: nat) returns (j: nat)
    requires Completed(g, order) && i < |order| && ReachIn(g, order[i], y, n)
    ensures j + n <= i && order[j] == y
    decreases n
  {
    if n == 0 {
      j := i;
    } else {
      hide Completed, Edge;
      var z :| Edge(g, order[i], z) && ReachIn(g, z, y, n - 1);
      var k := DependsEarlier(g, order, i, z);
      j := DownTheOrder(g, order, k, y, n - 1);
    }
  }

  lemma CompletedIsSound(g: Catalog, order: seq<string>, x: string)
    requires Completed(g, order) && x in order
    ensures !Broken(g, x)
    ensures forall y :: Reach(g, x, y) ==> y in order
  {
    var i :| 0 <= i < |order| && order[i] == x;
    forall y | Reach(g, x, y)
      ensures y in order && y in g && !ReachPlus(g, y, y)
    {
      var n :| ReachIn(g, x, y, n);
      var j := DownTheOrder(g, order, i, y, n);
      if ReachPlus(g, y, y) {
        var m :| m > 0 && ReachIn(g, y, y, m);
        var k := DownTheOrder(g, order, j, y, m);
      }
    }
  }

  // ----- The search -----

  class Selector {
    const byId: Catalog
    var selected: set<string>
    var visiting: set<string>
    ghost var order: seq<string>

    constructor (byId: Catalog)
      ensures this.byId == byId && selected == {} && visiting == {} && Valid()
    {
      this.byId := byId;
      selected := {};
      visiting := {};
      order := [];
    }

    ghost predicate Valid()
      reads this
    {
      && Completed(byId, order)
      && (forall x :: x in selected <==> x in order)
      && visiting <= byId.Keys
    }

    /** The cases on the stack lead to the one being entered. */
    ghost predicate OnPath(id: string)
      reads this
    {
      forall v :: v in visiting ==> ReachPlus(byId, v, id)
    }

    method Include(id: string) returns (err: bool)
      requires Valid() && id in byId && OnPath(id)
      modifies this
      ensures err ==> Broken(byId, id)
      ensures !err ==>
                && Valid() && visiting == old(visiting)
                && id in selected && old(selected) <= selected
                && (selected - old(selected)) !! visiting
                && (forall x :: x in selected && x !in old(selected) ==> Reach(byId, id, x))
      decreases |byId.Keys - visiting|, 0
    {
      hide Completed, ReachIn, Reach, ReachPlus, Broken, Edge;
      if id in selected {
        return false;
      }
      if id in visiting {
        CycleBreaks(byId, id);
        return true;
      }
      visiting := visiting + {id};
      assert byId.Keys - visiting < byId.Keys - old(visiting);
      err := IncludeAll(id, byId[id].dependsOn);
      if err {
        return true;
      }
      visiting := visiting - {id};
      CompleteOne(byId, order, id);
      SelfReaches(byId, id);
      order := order + [id];
      selected := selected + {id};
    }

    /** The loop over the dependencies of the case on top of the stack. */
    method IncludeAll(id: string, deps: seq<string>) returns (err: bool)
      requires Valid() && id in visiting && deps == byId[id].dependsOn
      requires forall v :: v in visiting && v != id ==> ReachPlus(byId, v, id)
      modifies this
      ensures err ==> Broken(byId, id)
      ensures !err ==>
                && Valid() && visiting == old(visiting)
                && old(selected) <= selected && (selected - old(selected)) !! visiting
                && (forall k :: 0 <= k < |deps| ==> deps[k] in selected)
                && (forall x :: x in selected && x !in old(selected) ==> Reach(byId, id, x))
      decreases |byId.Keys - visiting|, 1
    {
      hide Completed, ReachIn, Reach, ReachPlus, Broken;
      for i := 0 to |deps|
        invariant Valid() && visiting == old(visiting)
        invariant old(selected) <= selected && (selected - old(selected)) !! visiting
        invariant forall x :: x in selected && x !in old(selected) ==> Reach(byId, id, x)
        invariant forall k :: 0 <= k < i ==> deps[k] in selected
      {
        var dep := deps[i];
        assert Edge(byId, id, dep);
        if dep !in byId {
          UnknownBreaks(byId, id, dep);
          return true;
        }
        ExtendPath(id, dep);
        EdgeReaches(byId, id, dep);
        ghost var before := selected;
        err := Include(dep);
        if err {
          BrokenBelow(byId, id, dep);
          return true;
        }
        forall x | x in selected && x !in before
          ensures Reach(byId, id, x)
        {
          ReachJoin(byId, id, dep, x);
        }
      }
      err := false;
    }

    lemma ExtendPath(id: string, dep: string)
      requires Edge(byId, id, dep)
      requires forall v :: v in visiting && v != id ==> ReachPlus(byId, v, id)
      ensures OnPath(dep)
    {
      EdgeReaches(byId, id, dep);
      forall v | v in visiting
        ensures ReachPlus(byId, v, dep)
      {
        if v != id {
          var n :| n > 0 && ReachIn(byId, v, id, n);
          Join(byId, v, id, dep, n, 1);
        }
      }
    }
  }

  lemma CompleteOne(g: Catalog, order: seq<string>, id: string)
    requires Completed(g, order) && id in g && id !in order
    requires forall d :: d in g[id].dependsOn ==> d in order
    ensures Completed(g, order + [id])
  {
    var more := order + [id];
    forall i, d | 0 <= i < |more| && d in g[more[i]].dependsOn
      ensures d in more[..i]
    {
      if i < |order| {
        assert more[..i] == order[..i];
      } else {
        assert more[..i] == order;
      }
    }
  }

  // ----- The selection -----

  /** Closed under dependencies. */
  predicate Closed(g: Catalog, s: set<string>) {
    forall x, d :: x in s && x in g && d in g[x].dependsOn ==> d in s
  }

  /** The least dependency-closed superset of the request. */
  ghost predicate LeastClosed(g: Catalog, requested: set<string>, s: set<string>) {
    && requested <= s && Closed(g, s)
    && (forall t :: requested <= t && Closed(g, t) ==> s <= t)
  }

  lemma LeastClosedUnique(g: Catalog, requested: set<string>, s: set<string>, t: set<string>)
    requires LeastClosed(g, requested, s) && LeastClosed(g, requested, t)
    ensures s == t
  {
  }

  lemma {:induction false} ClosedReach(g: Catalog, s: set<string>, x: string, y: string, n: nat)
    requires Closed(g, s) && x in s && ReachIn(g, x, y, n)
    ensures y in s
    decreases n
  {
    if n > 0 {
      var z :| Edge(g, x, z) && ReachIn(g, z, y, n - 1);
      ClosedReach(g, s, z, y, n - 1);
    }
  }

  function Filter(cases: seq<Case>, s: set<string>): seq<Case> {
    if cases == [] then [] else
    Filter(cases[..|cases| - 1], s) + if cases[|cases| - 1].id in s then [cases[|cases| - 1]] else []
  }

  /** The catalog positions taken, ascending, are exactly those of the selected cases. */
  ghost predicate InCatalogOrder(cases: seq<Case>, s: set<string>, at: seq<nat>, out: seq<Case>) {
    && |at| == |out|
    && (forall i :: 0 <= i < |at| ==> at[i] < |cases| && out[i] == cases[at[i]])
    && (forall i, j :: 0 <= i < j < |at| ==> at[i] < at[j])
    && (forall k :: 0 <= k < |cases| ==> (k in at <==> cases[k].id in s))
  }

  lemma OneMoreCase(cases: seq<Case>, s: set<string>, at: seq<nat>, out: seq<Case>, c: Case)
    requires InCatalogOrder(cases, s, at, out)
    ensures if c.id in s then InCatalogOrder(cases + [c], s, at + [|cases|], out + [c])
            else InCatalogOrder(cases + [c], s, at, out)
  {
    var all := cases + [c];
    assert all[|cases|] == c && forall k :: 0 <= k < |cases| ==> all[k] == cases[k];
    assert forall i :: 0 <= i < |at| ==> at[i] in at;
    if c.id in s {
      var more := at + [|cases|];
      assert more[|at|] == |cases|;
      forall k | 0 <= k < |all|
        ensures k in more <==> all[k].id in s
      {
        assert k in more <==> k in at || k == |cases|;
      }
    }
  }

  lemma {:induction false} FilterIsInOrder(cases: seq<Case>, s: set<string>) returns (at: seq<nat>)
    ensures InCatalogOrder(cases, s, at, Filter(cases, s))
  {
    if cases == [] {
      at := [];
    } else {
      var n := |cases| - 1;
      at := FilterIsInOrder(cases[..n], s);
      hide InCatalogOrder;
      OneMoreCase(cases[..n], s, at, Filter(cases[..n], s), cases[n]);
      assert cases[..n] + [cases[n]] == cases;
      if cases[n].id in s {
        at := at + [n];
      } else {
        assert Filter(cases, s) == Filter(cases[..n], s);
      }
    }
  }

  /** The dictionary holds, under each ID of the catalog, the last case with it. */
  lemma {:induction false} ByIdExact(cases: seq<Case>, id: string)
    ensures id in ById(cases) <==> exists i :: 0 <= i < |cases| && cases[i].id == id
    ensures forall i :: 0 <= i < |cases| && cases[i].id == id && (forall j :: i < j < |cases| ==> cases[j].id != id) ==>
              id in ById(cases) && ById(cases)[id] == cases[i]
  {
    if cases != [] {
      var n := |cases| - 1;
      ByIdExact(cases[..n], id);
      assert forall k :: 0 <= k < n ==> cases[..n][k] == cases[k];
    }
  }

  /** Fails exactly when an unknown case or a cycle is reachable from the request; otherwise the
      least dependency-closed superset, in catalog order. The request is a set and may be visited
      in any order. */
  method SelectCases(cases: seq<Case>, requested: set<string>) returns (err: bool, result: seq<Case>)
    ensures err <==> exists x :: x in requested && Broken(ById(cases), x)
    ensures !err ==> exists s, at :: LeastClosed(ById(cases), requested, s) && InCatalogOrder(cases, s, at, result)
  {
    var byId := ById(cases);
    var unknown := set x | x in requested && x !in byId;
    result := [];
    if unknown != {} {
      ghost var x :| x in unknown;
      SelfReaches(byId, x);
      assert Broken(byId, x);
      return true, [];
    }
    var selector := new Selector(byId);
    var todo := requested;
    while todo != {}
      invariant selector.Valid() && selector.byId == byId && selector.visiting == {}
      invariant todo <= requested && requested - todo <= selector.selected
      invariant forall y :: y in selector.selected ==> exists x :: x in requested && Reach(byId, x, y)
      invariant fresh(selector)
      decreases todo
    {
      var id :| id in todo;
      assert id !in unknown;
      todo := todo - {id};
      err := selector.Include(id);
      if err {
        return true, [];
      }
    }
    SelectionIsLeast(byId, requested, selector.order, selector.selected);
    result := Pick(cases, selector.selected);
    ghost var at := FilterIsInOrder(cases, selector.selected);
    assert InCatalogOrder(cases, selector.selected, at, result);
    err := false;
  }

  lemma OrderIsClosed(g: Catalog, order: seq<string>, s: set<string>)
    requires Completed(g, order) && (forall x :: x in s <==> x in order)
    ensures Closed(g, s)
  {
    forall x, d | x in s && x in g && d in g[x].dependsOn
      ensures d in s
    {
      var i :| 0 <= i < |order| && order[i] == x;
      assert d in order[..i];
    }
  }

  lemma ReachedOnly(g: Catalog, requested: set<string>, s: set<string>, t: set<string>)
    requires forall y :: y in s ==> exists x :: x in requested && Reach(g, x, y)
    requires requested <= t && Closed(g, t)
    ensures s <= t
  {
    forall y | y in s
      ensures y in t
    {
      var x :| x in requested && Reach(g, x, y);
      var n :| ReachIn(g, x, y, n);
      ClosedReach(g, t, x, y, n);
    }
  }

  lemma SelectionIsLeast(g: Catalog, requested: set<string>, order: seq<string>, s: set<string>)
    requires Completed(g, order) && (forall x :: x in s <==> x in order) && requested <= s
    requires forall y :: y in s ==> exists x :: x in requested && Reach(g, x, y)
    ensures LeastClosed(g, requested, s)
    ensures forall x :: x in requested ==> !Broken(g, x)
  {
    hide Completed, Closed, Reach, Broken;
    OrderIsClosed(g, order, s);
    forall t | requested <= t && Closed(g, t)
      ensures s <= t
    {
      ReachedOnly(g, requested, s, t);
    }
    forall x | x in requested
      ensures !Broken(g, x)
    {
      CompletedIsSound(g, order, x);
    }
  }

  method Pick(cases: seq<Case>, s: set<string>) returns (out: seq<Case>)
    ensures out == Filter(cases, s)
  {
    out := [];
    for i := 0 to |cases|
      invariant out == Filter(cases[..i], s)
    {
      assert cases[..i + 1][..i] == cases[..i];
      if cases[i].id in s {
        out := out + [cases[i]];
      }
    }
    assert cases[..|cases|] == cases;
  }
}
