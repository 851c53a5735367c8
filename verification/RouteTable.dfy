/** The in-memory routing index of the multiplexer and the record list it writes through to. */
module RouteTable {
  import opened PersistedState
  import opened StateStore

  datatype Container = Container(backend: string, sandboxID: string)
  datatype Key = Key(kind: string, id: string)

  // ----- The last-wins reading of a record list -----

  function PodsOf(records: seq<RouteRecord>): map<string, string> {
    if records == [] then map[] else
    var last := records[|records| - 1];
    var earlier := PodsOf(records[..|records| - 1]);
    if last.kind == "pod" then earlier[last.id := last.engine] else earlier
  }

  function ContainersOf(records: seq<RouteRecord>): map<string, Container> {
    if records == [] then map[] else
    var last := records[|records| - 1];
    var earlier := ContainersOf(records[..|records| - 1]);
    if last.kind == "container" then earlier[last.id := Container(last.engine, last.sandboxID)] else earlier
  }

  /** The records whose key is not in the set. */
  function Keep(records: seq<RouteRecord>, gone: set<Key>): seq<RouteRecord> {
    if records == [] then [] else
    var last := records[|records| - 1];
    var earlier := Keep(records[..|records| - 1], gone);
    if Key(last.kind, last.id) in gone then earlier else earlier + [last]
  }

  function IdsOf(gone: set<Key>, kind: string): set<string> {
    set k | k in gone && k.kind == kind :: k.id
  }

  lemma ViewAppend(records: seq<RouteRecord>, r: RouteRecord)
    ensures PodsOf(records + [r]) == if r.kind == "pod" then PodsOf(records)[r.id := r.engine] else PodsOf(records)
    ensures ContainersOf(records + [r]) ==
            if r.kind == "container" then ContainersOf(records)[r.id := Container(r.engine, r.sandboxID)]
            else ContainersOf(records)
  {
    assert (records + [r])[..|records|] == records;
  }

  lemma {:induction false} ViewReplace(records: seq<RouteRecord>, r: RouteRecord)
    requires HasRoute(records, r.kind, r.id)
    ensures PodsOf(ReplaceRoutes(records, r)) ==
            if r.kind == "pod" then PodsOf(records)[r.id := r.engine] else PodsOf(records)
    ensures ContainersOf(ReplaceRoutes(records, r)) ==
            if r.kind == "container" then ContainersOf(records)[r.id := Container(r.engine, r.sandboxID)]
            else ContainersOf(records)
  {
    var earlier, last := records[..|records| - 1], records[|records| - 1];
    assert ReplaceRoutes(records, r)[..|records| - 1] == ReplaceRoutes(earlier, r);
    if HasRoute(earlier, r.kind, r.id) {
      ViewReplace(earlier, r);
    } else {
      forall i | 0 <= i < |earlier|
        ensures !SameRoute(records[i], r.kind, r.id)
      {
        assert earlier[i] == records[i];
      }
      assert ReplaceRoutes(earlier, r) == earlier;
      assert SameRoute(last, r.kind, r.id);
    }
  }

  /** Saving a record is one map update in the last-wins reading, duplicates or not. */
  lemma ViewUpsert(records: seq<RouteRecord>, r: RouteRecord)
    ensures PodsOf(UpsertRoute(records, r)) ==
            if r.kind == "pod" then PodsOf(records)[r.id := r.engine] else PodsOf(records)
    ensures ContainersOf(UpsertRoute(records, r)) ==
            if r.kind == "container" then ContainersOf(records)[r.id := Container(r.engine, r.sandboxID)]
            else ContainersOf(records)
  {
    if HasRoute(records, r.kind, r.id) {
      ViewReplace(records, r);
    } else {
      ViewAppend(records, r);
    }
  }

  lemma {:induction false} ViewKeep(records: seq<RouteRecord>, gone: set<Key>)
    ensures PodsOf(Keep(records, gone)) == PodsOf(records) - IdsOf(gone, "pod")
    ensures ContainersOf(Keep(records, gone)) == ContainersOf(records) - IdsOf(gone, "container")
  {
    if records != [] {
      var earlier, last := records[..|records| - 1], records[|records| - 1];
      ViewKeep(earlier, gone);
      ViewAppend(Keep(earlier, gone), last);
      assert Key(last.kind, last.id) in gone ==> last.id in IdsOf(gone, last.kind);
      assert last.id in IdsOf(gone, last.kind) ==> Key(last.kind, last.id) in gone;
    }
  }

  lemma DropMore(records: seq<RouteRecord>, last: RouteRecord, kind: string, id: string)
    ensures DropRoutes(records + [last], kind, id) ==
            DropRoutes(records, kind, id) + if SameRoute(last, kind, id) then [] else [last]
  {
    assert (records + [last])[..|records|] == records;
  }

  lemma {:induction false} KeepAll(records: seq<RouteRecord>)
    ensures Keep(records, {}) == records
  {
    if records != [] {
      KeepAll(records[..|records| - 1]);
      assert records == records[..|records| - 1] + [records[|records| - 1]];
    }
  }

  lemma {:induction false} DropIsKeep(records: seq<RouteRecord>, gone: set<Key>, kind: string, id: string)
    ensures DropRoutes(Keep(records, gone), kind, id) == Keep(records, gone + {Key(kind, id)})
    ensures Keep(records, {}) == records
  {
    KeepAll(records);
    if records != [] {
      var earlier, last := records[..|records| - 1], records[|records| - 1];
      DropIsKeep(earlier, gone, kind, id);
      hide DropRoutes;
      DropMore(Keep(earlier, gone), last, kind, id);
    }
  }

  // ----- The table and its operations on values -----

  datatype Table = Table(pods: map<string, string>, containers: map<string, Container>, state: State)

  datatype TableOp =
    | SetPod(id: string, backend: string, now: Time)
    | SetContainer(id: string, sandboxID: string, backend: string, now: Time)
    | DeleteSandbox(sandboxID: string)
    | DeleteContainer(id: string)

  predicate HasPrefix(s: string, prefix: string) {
    prefix <= s
  }

  /** A recorded parent decides; a legacy record without one belongs by name. */
  predicate Belongs(id: string, c: Container, sandboxID: string) {
    if c.sandboxID == "" then HasPrefix(id, sandboxID + "-") else c.sandboxID == sandboxID
  }

  function Stale(pods: map<string, string>, containers: map<string, Container>, sandboxID: string): set<Key> {
    (if sandboxID in pods then {Key("pod", sandboxID)} else {})
    + (set id | id in containers && Belongs(id, containers[id], sandboxID) :: Key("container", id))
  }

  function Remove(s: State, gone: set<Key>): State {
    if gone == {} then s else s.(version := 1, routes := Keep(s.routes, gone))
  }

  function Apply(t: Table, op: TableOp): Table {
    match op
    case SetPod(id, backend, now) =>
      if id == "" then t
      else Table(t.pods[id := backend], t.containers,
                 After(t.state, SaveRoute(RouteRecord("pod", id, backend, "", now), now)))
    case SetContainer(id, sandboxID, backend, now) =>
      if id == "" then t
      else Table(t.pods, t.containers[id := Container(backend, sandboxID)],
                 After(t.state, SaveRoute(RouteRecord("container", id, backend, sandboxID, now), now)))
    case DeleteSandbox(sandboxID) =>
      if sandboxID == "" then t else
      var gone := Stale(t.pods, t.containers, sandboxID);
      Table(t.pods - {sandboxID},
            map id | id in t.containers && !Belongs(id, t.containers[id], sandboxID) :: t.containers[id],
            Remove(t.state, gone))
    case DeleteContainer(id) =>
      if id == "" then t
      else Table(t.pods, t.containers - {id},
                 if id in t.containers then Remove(t.state, {Key("container", id)}) else t.state)
  }

  predicate Agrees(t: Table) {
    t.pods == PodsOf(t.state.routes) && t.containers == ContainersOf(t.state.routes)
  }

  function Restored(t: Table): Table {
    Table(PodsOf(t.state.routes), ContainersOf(t.state.routes), t.state)
  }

  lemma DeleteSandboxAgrees(t: Table, sandboxID: string)
    requires Agrees(t) && sandboxID != ""
    ensures Agrees(Apply(t, DeleteSandbox(sandboxID)))
  {
    hide Keep, PodsOf, ContainersOf;
    var gone := Stale(t.pods, t.containers, sandboxID);
    ViewKeep(t.state.routes, gone);
    StaleContainers(t, sandboxID);
    StalePods(t, sandboxID);
  }

  lemma DeleteContainerAgrees(t: Table, id: string)
    requires Agrees(t) && id != ""
    ensures Agrees(Apply(t, DeleteContainer(id)))
  {
    hide Keep, PodsOf, ContainersOf;
    var gone := {Key("container", id)};
    ViewKeep(t.state.routes, gone);
    assert Key("container", id) in gone;
    assert IdsOf(gone, "container") == {id};
    assert IdsOf(gone, "pod") == {};
  }

  lemma StepAgrees(t: Table, op: TableOp)
    requires Agrees(t)
    ensures Agrees(Apply(t, op))
  {
    hide UpsertRoute, PodsOf, ContainersOf;
    match op
    case SetPod(id, backend, now) =>
      ViewUpsert(t.state.routes, RouteRecord("pod", id, backend, "", now));
    case SetContainer(id, sandboxID, backend, now) =>
      ViewUpsert(t.state.routes, RouteRecord("container", id, backend, sandboxID, now));
    case DeleteSandbox(sandboxID) =>
      if sandboxID != "" {
        DeleteSandboxAgrees(t, sandboxID);
      }
    case DeleteContainer(id) =>
      if id != "" {
        DeleteContainerAgrees(t, id);
      }
  }

  lemma StalePods(t: Table, sandboxID: string)
    ensures t.pods - IdsOf(Stale(t.pods, t.containers, sandboxID), "pod") == t.pods - {sandboxID}
  {
    if sandboxID in t.pods {
      assert Key("pod", sandboxID) in Stale(t.pods, t.containers, sandboxID);
    }
  }

  lemma StaleContainers(t: Table, sandboxID: string)
    ensures var gone := Stale(t.pods, t.containers, sandboxID);
            t.containers - IdsOf(gone, "container")
            == map id | id in t.containers && !Belongs(id, t.containers[id], sandboxID) :: t.containers[id]
  {
    var gone := Stale(t.pods, t.containers, sandboxID);
    forall id | id in t.containers
      ensures id in IdsOf(gone, "container") <==> Belongs(id, t.containers[id], sandboxID)
    {
      if Belongs(id, t.containers[id], sandboxID) {
        assert Key("container", id) in gone;
      }
    }
  }

  function ApplyAll(t: Table, ops: seq<TableOp>): Table {
    if ops == [] then t else Apply(ApplyAll(t, ops[..|ops| - 1]), ops[|ops| - 1])
  }

  /** After any sequence of operations on a restored table the index equals the last-wins reading
      of the store's records, so restoring again changes nothing. Flush errors play no part:
      the memory of the store is updated before the write. */
  lemma {:induction false} IndexAgreesWithStore(t: Table, ops: seq<TableOp>)
    ensures Agrees(ApplyAll(Restored(t), ops))
    ensures Restored(ApplyAll(Restored(t), ops)) == ApplyAll(Restored(t), ops)
  {
    if ops != [] {
      IndexAgreesWithStore(t, ops[..|ops| - 1]);
      StepAgrees(ApplyAll(Restored(t), ops[..|ops| - 1]), ops[|ops| - 1]);
    }
  }

  /** Deleting a sandbox removes, from memory and from the records, exactly the pod route, the
      containers recorded under it and the legacy containers named after it. */
  lemma SandboxDeletionIsExact(t: Table, sandboxID: string)
    requires Agrees(t) && sandboxID != ""
    ensures var t' := Apply(t, DeleteSandbox(sandboxID));
            && (forall id :: id in t'.pods <==> id in t.pods && id != sandboxID)
            && (forall id :: id in t'.pods ==> t'.pods[id] == t.pods[id])
            && (forall id :: id in t'.containers <==> id in t.containers && !Belongs(id, t.containers[id], sandboxID))
            && (forall id :: id in t'.containers ==> t'.containers[id] == t.containers[id])
            && (forall r :: r in t'.state.routes <==>
                  r in t.state.routes && Key(r.kind, r.id) !in Stale(t.pods, t.containers, sandboxID))
            && t'.state.cleanupTasks == t.state.cleanupTasks && t'.state.sections == t.state.sections
  {
    KeepMembers(t.state.routes, Stale(t.pods, t.containers, sandboxID));
  }

  /** A container with a recorded parent goes, from memory and from the records, exactly when that
      parent is the deleted sandbox, whatever its own ID. */
  lemma RecordedParentRule(t: Table, id: string, sandboxID: string)
    requires Agrees(t) && sandboxID != "" && id in t.containers && t.containers[id].sandboxID != ""
    ensures var t' := Apply(t, DeleteSandbox(sandboxID));
            && (id in t'.containers <==> t.containers[id].sandboxID != sandboxID)
            && (forall r :: r in t.state.routes && r.kind == "container" && r.id == id ==>
                  (r in t'.state.routes <==> t.containers[id].sandboxID != sandboxID))
            && (forall r :: r in t.state.routes && r.kind == "pod" ==> (r in t'.state.routes <==> r.id != sandboxID))
  {
    hide PodsOf, ContainersOf, Keep;
    KeepMembers(t.state.routes, Stale(t.pods, t.containers, sandboxID));
    PodRecordsIndexed(t);
  }

  lemma PodRecordsIndexed(t: Table)
    requires Agrees(t)
    ensures forall r :: r in t.state.routes && r.kind == "pod" ==> r.id in t.pods
  {
    hide PodsOf, ContainersOf;
    forall r | r in t.state.routes && r.kind == "pod"
      ensures r.id in t.pods
    {
      var i :| 0 <= i < |t.state.routes| && t.state.routes[i] == r;
      LastWins(t.state.routes, r.id);
    }
  }

  predicate Recorded(records: seq<RouteRecord>, kind: string, id: string) {
    exists i :: 0 <= i < |records| && SameRoute(records[i], kind, id)
  }

  lemma {:induction false} LastPodWins(records: seq<RouteRecord>, id: string)
    ensures id in PodsOf(records) <==> Recorded(records, "pod", id)
    ensures forall i :: 0 <= i < |records| && LastOf(records, i, "pod", id) ==>
              id in PodsOf(records) && PodsOf(records)[id] == records[i].engine
  {
    if records != [] {
      var n := |records| - 1;
      LastPodWins(records[..n], id);
      LastMore(records, "pod", id);
      assert records == records[..n] + [records[n]];
      hide LastOf, PodsOf, ContainersOf, Recorded;
      ViewAppend(records[..n], records[n]);
      assert forall i :: 0 <= i < n ==> records[i] == records[..n][i];
    }
  }

  lemma {:induction false} LastContainerWins(records: seq<RouteRecord>, id: string)
    ensures id in ContainersOf(records) <==> Recorded(records, "container", id)
    ensures forall i :: 0 <= i < |records| && LastOf(records, i, "container", id) ==>
              id in ContainersOf(records) && ContainersOf(records)[id] == Container(records[i].engine, records[i].sandboxID)
  {
    if records != [] {
      var n := |records| - 1;
      LastContainerWins(records[..n], id);
      LastMore(records, "container", id);
      assert records == records[..n] + [records[n]];
      hide LastOf, PodsOf, ContainersOf, Recorded;
      ViewAppend(records[..n], records[n]);
      assert forall i :: 0 <= i < n ==> records[i] == records[..n][i];
    }
  }

  /** The index holds, for each ID, what the last record of that kind and ID says, and nothing else. */
  lemma LastWins(records: seq<RouteRecord>, id: string)
    ensures id in PodsOf(records) <==> Recorded(records, "pod", id)
    ensures id in ContainersOf(records) <==> Recorded(records, "container", id)
    ensures forall i :: 0 <= i < |records| && LastOf(records, i, "pod", id) ==>
              id in PodsOf(records) && PodsOf(records)[id] == records[i].engine
    ensures forall i :: 0 <= i < |records| && LastOf(records, i, "container", id) ==>
              id in ContainersOf(records) && ContainersOf(records)[id] == Container(records[i].engine, records[i].sandboxID)
  {
    hide LastOf, PodsOf, ContainersOf;
    LastPodWins(records, id);
    LastContainerWins(records, id);
  }

  lemma LastMore(records: seq<RouteRecord>, kind: string, id: string)
    requires records != []
    ensures var n := |records| - 1;
            && (Recorded(records, kind, id) <==> Recorded(records[..n], kind, id) || SameRoute(records[n], kind, id))
            && (forall i :: 0 <= i < n && LastOf(records, i, kind, id) ==>
                  LastOf(records[..n], i, kind, id) && !SameRoute(records[n], kind, id))
            && (LastOf(records, n, kind, id) <==> SameRoute(records[n], kind, id))
  {
    var n := |records| - 1;
    assert forall i :: 0 <= i < n ==> records[i] == records[..n][i];
    if Recorded(records[..n], kind, id) {
      var i :| 0 <= i < n && SameRoute(records[..n][i], kind, id);
      assert SameRoute(records[i], kind, id);
    }
  }

  predicate LastOf(records: seq<RouteRecord>, i: nat, kind: string, id: string)
    requires i < |records|
  {
    SameRoute(records[i], kind, id) && forall j :: i < j < |records| ==> !SameRoute(records[j], kind, id)
  }

  /** Setting a route makes it what both the index and the records say about the ID, and leaves
      every other ID alone. */
  lemma SettingIsExact(t: Table, id: string, sandboxID: string, backend: string, now: Time)
    requires Agrees(t) && id != ""
    ensures var t' := Apply(t, SetPod(id, backend, now));
            && t'.pods == t.pods[id := backend] && t'.containers == t.containers
            && RouteRecord("pod", id, backend, "", now) in t'.state.routes
            && (forall r :: r in t'.state.routes && r.kind == "pod" && r.id == id ==> r.engine == backend && r.updatedAt == now)
            && (forall r :: !SameRoute(r, "pod", id) ==> (r in t'.state.routes <==> r in t.state.routes))
    ensures var t' := Apply(t, SetContainer(id, sandboxID, backend, now));
            && t'.pods == t.pods && t'.containers == t.containers[id := Container(backend, sandboxID)]
            && RouteRecord("container", id, backend, sandboxID, now) in t'.state.routes
            && (forall r :: !SameRoute(r, "container", id) ==> (r in t'.state.routes <==> r in t.state.routes))
  {
    hide PodsOf, ContainersOf, UpsertRoute;
    UpsertMembers(t.state.routes, RouteRecord("pod", id, backend, "", now));
    UpsertMembers(t.state.routes, RouteRecord("container", id, backend, sandboxID, now));
  }

  lemma UpsertMembers(records: seq<RouteRecord>, r: RouteRecord)
    ensures r in UpsertRoute(records, r)
    ensures forall x :: x in UpsertRoute(records, r) && SameRoute(x, r.kind, r.id) ==> x == r
    ensures forall x :: !SameRoute(x, r.kind, r.id) ==> (x in UpsertRoute(records, r) <==> x in records)
  {
    var out := UpsertRoute(records, r);
    if HasRoute(records, r.kind, r.id) {
      var i :| 0 <= i < |records| && SameRoute(records[i], r.kind, r.id);
      assert out[i] == r;
      forall x | !SameRoute(x, r.kind, r.id)
        ensures x in out <==> x in records
      {
        if x in records {
          var j :| 0 <= j < |records| && records[j] == x;
          assert out[j] == x;
        }
      }
    }
  }

  /** Deleting a container removes it from index and records, and nothing else. */
  lemma ContainerDeletionIsExact(t: Table, id: string)
    requires Agrees(t) && id != "" && id in t.containers
    ensures var t' := Apply(t, DeleteContainer(id));
            && t'.pods == t.pods && t'.containers == t.containers - {id}
            && (forall r :: r in t'.state.routes <==> r in t.state.routes && !SameRoute(r, "container", id))
  {
    KeepMembers(t.state.routes, {Key("container", id)});
  }

  lemma {:induction false} KeepMembers(records: seq<RouteRecord>, gone: set<Key>)
    ensures forall r :: r in Keep(records, gone) <==> r in records && Key(r.kind, r.id) !in gone
  {
    if records != [] {
      KeepMembers(records[..|records| - 1], gone);
      assert records == records[..|records| - 1] + [records[|records| - 1]];
    }
  }

  /** A container of sandbox o, recorded before parents were and so known by its name alone, loses
      its route when sandbox d is deleted. */
  predicate TakesLegacy(t: Table, o: string, rest: string, d: string) {
    var id := o + "-" + rest;
    && id in t.containers && t.containers[id].sandboxID == ""
    && id !in Apply(t, DeleteSandbox(d)).containers
  }

  lemma NameRule(t: Table, o: string, rest: string, d: string)
    requires d != "" && o + "-" + rest in t.containers && t.containers[o + "-" + rest].sandboxID == ""
    ensures TakesLegacy(t, o, rest, d) <==> HasPrefix(o + "-" + rest, d + "-")
  {
  }

  lemma SharedName(o: string, rest: string, d: string)
    requires o != d && HasPrefix(o + "-" + rest, d + "-")
    ensures HasPrefix(d, o + "-") || HasPrefix(o, d + "-")
  {
    var id := o + "-" + rest;
    var n := |d|;
    assert id[..n] == d && id[n] == '-' && id[..|o|] == o && id[..|o| + 1] == o + "-";
    if n < |o| {
      assert id[..n + 1] == o[..n + 1];
    } else if n > |o| {
      assert d[..|o| + 1] == id[..|o| + 1];
    }
  }

  /** Deleting one sandbox can take a container named after another if and only if the ID of one,
      with a dash, begins the ID of the other. */
  lemma LegacyPrefixReachesOtherSandbox(o: string, d: string)
    requires o != d && d != ""
    ensures (exists t, rest :: TakesLegacy(t, o, rest, d)) <==> HasPrefix(d, o + "-") || HasPrefix(o, d + "-")
  {
    if exists t, rest :: TakesLegacy(t, o, rest, d) {
      var t, rest :| TakesLegacy(t, o, rest, d);
      NameRule(t, o, rest, d);
      SharedName(o, rest, d);
    } else {
      if HasPrefix(d, o + "-") {
        var rest := d[|o| + 1..] + "-";
        assert o + "-" + rest == d + "-";
        WitnessTaken(o, rest, d);
      }
      if HasPrefix(o, d + "-") {
        assert (o + "-" + "")[..|d| + 1] == o[..|d| + 1];
        WitnessTaken(o, "", d);
      }
    }
  }

  lemma WitnessTaken(o: string, rest: string, d: string)
    requires d != "" && HasPrefix(o + "-" + rest, d + "-")
    ensures exists t, r :: TakesLegacy(t, o, r, d)
  {
    var id := o + "-" + rest;
    var t := Table(map[], map[id := Container("", "")], EMPTY);
    NameRule(t, o, rest, d);
    assert TakesLegacy(t, o, rest, d);
  }

  function KeySet(keys: seq<Key>): set<Key> {
    set k | k in keys
  }

  lemma RemoveOneMore(s: State, keys: seq<Key>, k: Key)
    ensures After(Remove(s, KeySet(keys)), DeleteRoute(k.kind, k.id)) == Remove(s, KeySet(keys + [k]))
  {
    DropIsKeep(s.routes, KeySet(keys), k.kind, k.id);
    assert KeySet(keys + [k]) == KeySet(keys) + {k};
    assert k in KeySet(keys + [k]);
  }

  predicate Distinct(keys: seq<Key>) {
    forall i, j :: 0 <= i < j < |keys| ==> keys[i] != keys[j]
  }

  lemma {:induction false} DistinctSize(keys: seq<Key>)
    requires Distinct(keys)
    ensures |KeySet(keys)| == |keys|
  {
    if keys != [] {
      var front, last := keys[..|keys| - 1], keys[|keys| - 1];
      DistinctSize(front);
      assert KeySet(keys) == KeySet(front) + {last};
      assert last !in KeySet(front);
    }
  }

  // ----- The table object -----

  /** flushOk, or flushOk(i) for the i-th write of a call, is the outcome of the covering flush. */
  class Routes {
    var pods: map<string, string>
    var containers: map<string, Container>
    const store: JSONStateStore?

    constructor (store: JSONStateStore?)
      ensures this.store == store && pods == map[] && containers == map[]
    {
      this.store := store;
      pods := map[];
      containers := map[];
    }

    ghost function Abs(): Table
      reads this, store
    {
      Table(pods, containers, if store == null then EMPTY else store.state)
    }

    /** The memory follows the operation on values, and so does the store when there is one. */
    twostate predicate Did(op: TableOp)
      reads this, store
    {
      && pods == Apply(old(Abs()), op).pods
      && containers == Apply(old(Abs()), op).containers
      && (store != null ==> store.state == Apply(old(Abs()), op).state)
    }

    method SetPod(id: string, backend: string, now: Time, flushOk: bool) returns (err: bool)
      modifies this, store
      ensures Did(TableOp.SetPod(id, backend, now))
      ensures err <==> id == "" || (store != null && !flushOk)
    {
      if id == "" {
        return true;
      }
      pods := pods[id := backend];
      err := Save(RouteRecord("pod", id, backend, "", 0), now, flushOk);
    }

    method SetContainer(id: string, sandboxID: string, backend: string, now: Time, flushOk: bool) returns (err: bool)
      modifies this, store
      ensures Did(TableOp.SetContainer(id, sandboxID, backend, now))
      ensures err <==> id == "" || (store != null && !flushOk)
    {
      if id == "" {
        return true;
      }
      containers := containers[id := Container(backend, sandboxID)];
      err := Save(RouteRecord("container", id, backend, sandboxID, 0), now, flushOk);
    }

    method Save(rec: RouteRecord, now: Time, flushOk: bool) returns (err: bool)
      modifies store
      ensures store != null ==>
                old(store.state).(version := 1, routes := UpsertRoute(old(store.state.routes), rec.(updatedAt := now)))
                == store.state
      ensures err <==> store != null && !flushOk
    {
      if store == null {
        return false;
      }
      err := store.SaveRoute(rec.(updatedAt := now), now, flushOk);
    }

    method DeleteContainer(id: string, flushOk: bool) returns (err: bool)
      modifies this, store
      ensures Did(TableOp.DeleteContainer(id))
      ensures err <==> id != "" && id in old(containers) && store != null && !flushOk
    {
      if id == "" {
        return false;
      }
      var existed := id in containers;
      containers := containers - {id};
      if !existed || store == null {
        return false;
      }
      DropIsKeep(store.state.routes, {}, "container", id);
      assert {} + {Key("container", id)} == {Key("container", id)};
      err := store.DeleteRoute("container", id, flushOk);
    }

    /** Takes the entries out of memory and lists their keys. Go visits the map in an arbitrary
        order and deletes as it goes. */
    method TakeStale(sandboxID: string) returns (stale: seq<Key>)
      modifies this
      ensures pods == old(pods) - {sandboxID}
      ensures containers == map id | id in old(containers) && !Belongs(id, old(containers)[id], sandboxID) :: old(containers)[id]
      ensures KeySet(stale) == Stale(old(pods), old(containers), sandboxID) && Distinct(stale)
    {
      stale := [];
      if sandboxID in pods {
        pods := pods - {sandboxID};
        stale := stale + [Key("pod", sandboxID)];
      }
      var todo := containers.Keys;
      ghost var all := containers;
      while todo != {}
        invariant todo <= containers.Keys <= all.Keys
        invariant forall id :: id in containers ==> containers[id] == all[id]
        invariant forall id :: id in all && id !in todo ==> (id in containers <==> !Belongs(id, all[id], sandboxID))
        invariant Stales(stale, old(pods), all, todo, sandboxID) && Distinct(stale)
        invariant pods == old(pods) - {sandboxID}
        decreases todo
      {
        var id :| id in todo;
        todo := todo - {id};
        if Belongs(id, containers[id], sandboxID) {
          containers := containers - {id};
          stale := stale + [Key("container", id)];
        }
      }
      assert KeySet(stale) == Stale(old(pods), all, sandboxID);
    }

    method DeleteSandbox(sandboxID: string, flushOk: nat -> bool) returns (err: bool)
      modifies this, store
      ensures Did(TableOp.DeleteSandbox(sandboxID))
      ensures err <==> sandboxID != "" && store != null
                       && exists i :: 0 <= i < |Stale(old(pods), old(containers), sandboxID)| && !flushOk(i)
    {
      hide Stale, Belongs, Keep;
      if sandboxID == "" {
        return false;
      }
      var stale := TakeStale(sandboxID);
      DistinctSize(stale);
      if store == null {
        return false;
      }
      err := DeleteAll(stale, flushOk);
    }

    /** The keys found so far. */
    ghost predicate Stales(stale: seq<Key>, pods: map<string, string>, all: map<string, Container>,
                           todo: set<string>, sandboxID: string)
    {
      forall k :: k in stale <==>
        || (k == Key("pod", sandboxID) && sandboxID in pods)
        || (k.kind == "container" && k.id in all && k.id !in todo && Belongs(k.id, all[k.id], sandboxID))
    }

    method DeleteAll(stale: seq<Key>, flushOk: nat -> bool) returns (err: bool)
      requires store != null
      modifies store
      ensures store.state == Remove(old(store.state), KeySet(stale))
      ensures err <==> exists i :: 0 <= i < |stale| && !flushOk(i)
    {
      err := false;
      for i := 0 to |stale|
        invariant store.state == Remove(old(store.state), KeySet(stale[..i]))
        invariant err <==> exists j :: 0 <= j < i && !flushOk(j)
      {
        RemoveOneMore(old(store.state), stale[..i], stale[i]);
        assert stale[..i + 1] == stale[..i] + [stale[i]];
        var failed := store.DeleteRoute(stale[i].kind, stale[i].id, flushOk(i));
        err := err || failed;
      }
      assert stale[..|stale|] == stale;
    }

    /** Rebuilds the index from the records; kinds other than pod and container are ignored. */
    method Restore()
      modifies this
      ensures store == null ==> pods == old(pods) && containers == old(containers)
      ensures store != null ==> Abs() == Restored(old(Abs()))
    {
      if store == null {
        return;
      }
      var records := store.state.routes;
      var ps: map<string, string> := map[];
      var cs: map<string, Container> := map[];
      for i := 0 to |records|
        invariant ps == PodsOf(records[..i]) && cs == ContainersOf(records[..i])
      {
        var rec := records[i];
        assert records[..i + 1] == records[..i] + [rec];
        ViewAppend(records[..i], rec);
        if rec.kind == "pod" {
          ps := ps[rec.id := rec.engine];
        } else if rec.kind == "container" {
          cs := cs[rec.id := Container(rec.engine, rec.sandboxID)];
        }
      }
      assert records[..|records|] == records;
      pods := ps;
      containers := cs;
    }
  }
}
