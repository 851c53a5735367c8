/** The CRI multiplexer: the calls that create and remove sandboxes and containers, and why every
    call reaches the engine that created its object, over whole runs with failing flushes and
    crashes. */
module MuxRouting {
  import opened Options
  import opened PersistedState
  import opened StateStore
  import opened RouteTable
  import DurableLog
  import R = Registry

  // ----- Resolution -----

  /** The registry stores a module under the type its engine reports. */
  predicate TypesMatch(reg: R.Reg) {
    forall t :: t in reg.modules ==> reg.modules[t].typ == t
  }

  function DefaultEngine(reg: R.Reg): Option<string> {
    if reg.defaultType == "" || reg.defaultType !in reg.modules then None
    else Some(reg.modules[reg.defaultType].typ)
  }

  /** The engine for a route; an unregistered type, like a missing route, means the default. */
  function EngineFor(reg: R.Reg, route: Option<string>): Option<string> {
    if route.Some? && route.value in reg.modules then Some(reg.modules[route.value].typ) else DefaultEngine(reg)
  }

  function PodRoute(t: Table, id: string): Option<string> {
    if id in t.pods then Some(t.pods[id]) else None
  }

  function ContainerRoute(t: Table, id: string): Option<string> {
    if id in t.containers then Some(t.containers[id].backend) else None
  }

  function EngineForPod(reg: R.Reg, t: Table, id: string): Option<string> {
    EngineFor(reg, PodRoute(t, id))
  }

  function EngineForContainer(reg: R.Reg, t: Table, id: string): Option<string> {
    EngineFor(reg, ContainerRoute(t, id))
  }

  /** The engine a sandbox is started on; rejectUnknown is the policy for unknown handlers. */
  function EngineForHandler(norm: R.Norm, reg: R.Reg, rejectUnknown: bool, handler: string): Option<string> {
    var mod := R.ResolveHandler(norm, reg, handler);
    if mod.Some? then Some(mod.value.typ)
    else if rejectUnknown then None
    else DefaultEngine(reg)
  }

  /** The registered default, if there is one. */
  lemma DefaultExact(norm: R.Norm, reg: R.Reg, ms: seq<R.Module>)
    requires R.HoldsTypes(norm, reg, ms)
    ensures DefaultEngine(reg) == if reg.defaultType != "" && exists m :: m in ms && m.typ == reg.defaultType
                                  then Some(reg.defaultType) else None
  {
  }

  /** A sandbox starts on the engine of the module that its handler names; with a handler nobody
      names it is refused or starts on the default, as the policy says. */
  lemma HandlerDecidesEngine(norm: R.Norm, reg: R.Reg, ms: seq<R.Module>, reject: bool, handler: string, m: R.Module)
    requires R.HoldsTypes(norm, reg, ms) && R.HoldsNames(norm, reg, ms) && m in ms
    ensures norm(handler) != "" && R.NamedBy(norm, m, norm(handler)) ==>
              EngineForHandler(norm, reg, reject, handler) == Some(m.typ)
    ensures norm(handler) == "" || (forall x :: x in ms ==> !R.NamedBy(norm, x, norm(handler))) ==>
              EngineForHandler(norm, reg, reject, handler) ==
              if !reject && reg.defaultType != "" && (exists x :: x in ms && x.typ == reg.defaultType)
              then Some(reg.defaultType) else None
  {
    DefaultExact(norm, reg, ms);
    forall x | x in ms
      ensures norm(handler) in R.Names(norm, x) <==> R.NamedBy(norm, x, norm(handler))
    {
      R.NamesExact(norm, x, norm(handler));
    }
    hide R.Names, R.NamedBy;
  }

  /** A call for a sandbox or container goes to the registered engine its route names; without a
      route, or with one that names nothing registered, to the default. */
  lemma RouteDecidesEngine(norm: R.Norm, reg: R.Reg, ms: seq<R.Module>, t: Table, id: string)
    requires R.HoldsTypes(norm, reg, ms)
    ensures var fallback := if reg.defaultType != "" && exists m :: m in ms && m.typ == reg.defaultType
                            then Some(reg.defaultType) else None;
            && EngineForPod(reg, t, id) ==
                 (if id in t.pods && exists m :: m in ms && m.typ == t.pods[id] then Some(t.pods[id]) else fallback)
            && EngineForContainer(reg, t, id) ==
                 (if id in t.containers && exists m :: m in ms && m.typ == t.containers[id].backend
                  then Some(t.containers[id].backend) else fallback)
  {
    DefaultExact(norm, reg, ms);
  }

  // ----- The server object -----

  datatype EngineReply = Created(id: string) | Done | NotFound | Failed
  datatype Reply = ReplyId(id: string) | ReplyOk | ReplyError

  /** A request to the cleanup manager; what it does with it is its own matter. */
  datatype CleanupRequest = CleanupRequest(backend: string, sandboxID: string, resourceType: string, reason: string)

  /** Engine calls appear as their outcome; the engine that was called and the cleanup that was
      scheduled are returned. */
  class MuxServer {
    const norm: R.Norm
    const reg: R.Reg
    const rejectUnknown: bool
    const routes: Routes

    constructor (norm: R.Norm, reg: R.Reg, rejectUnknown: bool, routes: Routes)
      ensures this.norm == norm && this.reg == reg && this.rejectUnknown == rejectUnknown && this.routes == routes
    {
      this.norm := norm;
      this.reg := reg;
      this.rejectUnknown := rejectUnknown;
      this.routes := routes;
    }

    method ResolveByPod(id: string) returns (eng: Option<string>)
      ensures eng == EngineForPod(reg, routes.Abs(), id)
    {
      var route := if id in routes.pods then Some(routes.pods[id]) else None;
      eng := EngineFor(reg, route);
    }

    method ResolveByContainer(id: string) returns (eng: Option<string>)
      ensures eng == EngineForContainer(reg, routes.Abs(), id)
    {
      var route := if id in routes.containers then Some(routes.containers[id].backend) else None;
      eng := EngineFor(reg, route);
    }

    method RunPodSandbox(handler: string, outcome: EngineReply, now: Time, flushOk: bool)
      returns (reply: Reply, called: Option<string>, cleanup: Option<CleanupRequest>)
      modifies routes, routes.store
      ensures called == EngineForHandler(norm, reg, rejectUnknown, handler)
      ensures called.Some? && outcome.Created? ==> routes.Did(TableOp.SetPod(outcome.id, called.value, now))
      ensures called.None? || !outcome.Created? ==> routes.Abs() == old(routes.Abs())
      ensures reply == (if called.Some? && outcome.Created? && outcome.id != "" && (routes.store == null || flushOk)
                        then ReplyId(outcome.id) else ReplyError)
      ensures cleanup == (if called.Some? && outcome.Created? && reply.ReplyError?
                          then Some(CleanupRequest(called.value, outcome.id, "route", "persist-route-failed")) else None)
    {
      cleanup := None;
      var mod := R.ResolveHandler(norm, reg, handler);
      if mod.Some? {
        called := Some(mod.value.typ);
      } else if rejectUnknown {
        return ReplyError, None, None;
      } else {
        called := DefaultEngine(reg);
        if called.None? {
          return ReplyError, None, None;
        }
      }
      if !outcome.Created? {
        return ReplyError, called, None;
      }
      var err := routes.SetPod(outcome.id, called.value, now, flushOk);
      if err {
        cleanup := Some(CleanupRequest(called.value, outcome.id, "route", "persist-route-failed"));
        return ReplyError, called, cleanup;
      }
      reply := ReplyId(outcome.id);
    }

    method CreateContainer(pod: string, outcome: EngineReply, now: Time, flushOk: bool)
      returns (reply: Reply, called: Option<string>, cleanup: Option<CleanupRequest>)
      modifies routes, routes.store
      ensures called == old(EngineForPod(reg, routes.Abs(), pod))
      ensures called.Some? && outcome.Created? ==> routes.Did(TableOp.SetContainer(outcome.id, pod, called.value, now))
      ensures called.None? || !outcome.Created? ==> routes.Abs() == old(routes.Abs())
      ensures reply == (if called.Some? && outcome.Created? && outcome.id != "" && (routes.store == null || flushOk)
                        then ReplyId(outcome.id) else ReplyError)
      ensures cleanup == (if called.Some? && outcome.Created? && reply.ReplyError?
                          then Some(CleanupRequest(called.value, pod, "route", "persist-route-failed")) else None)
    {
      cleanup := None;
      called := ResolveByPod(pod);
      if called.None? || !outcome.Created? {
        return ReplyError, called, None;
      }
      var err := routes.SetContainer(outcome.id, pod, called.value, now, flushOk);
      if err {
        cleanup := Some(CleanupRequest(called.value, pod, "route", "persist-route-failed"));
        return ReplyError, called, cleanup;
      }
      reply := ReplyId(outcome.id);
    }

    /** A route whose deletion could not be flushed is only logged. */
    method RemoveContainer(id: string, outcome: EngineReply, flushOk: bool)
      returns (reply: Reply, called: Option<string>)
      modifies routes, routes.store
      ensures called == old(EngineForContainer(reg, routes.Abs(), id))
      ensures called.Some? && outcome.Done? ==> reply == ReplyOk && routes.Did(TableOp.DeleteContainer(id))
      ensures called.None? || !outcome.Done? ==> reply == ReplyError && routes.Abs() == old(routes.Abs())
    {
      called := ResolveByContainer(id);
      if called.None? || !outcome.Done? {
        return ReplyError, called;
      }
      var _ := routes.DeleteContainer(id, flushOk);
      reply := ReplyOk;
    }

    /** Success clears the routes; a failed removal changes none, so a retry reaches the same
        engine; an unrouted sandbox that is already gone counts as removed. */
    method RemovePodSandbox(id: string, outcome: EngineReply, flushOk: nat -> bool)
      returns (reply: Reply, called: Option<string>, cleanup: Option<CleanupRequest>)
      modifies routes, routes.store
      ensures called == old(EngineForPod(reg, routes.Abs(), id))
      ensures called.Some? && outcome.Done? ==> reply == ReplyOk && routes.Did(TableOp.DeleteSandbox(id))
      ensures called.None? || !outcome.Done? ==>
                && routes.Abs() == old(routes.Abs())
                && EngineForPod(reg, routes.Abs(), id) == called
                && (reply == ReplyOk <==> called.Some? && outcome.NotFound? && id !in old(routes.pods))
      ensures reply == ReplyOk || reply == ReplyError
      ensures cleanup == (if called.Some? && reply == ReplyError
                          then Some(CleanupRequest(called.value, id, "sandbox", "remove-failed")) else None)
    {
      cleanup := None;
      var routed := id in routes.pods;
      called := ResolveByPod(id);
      if called.None? {
        return ReplyError, called, None;
      }
      if !routed && outcome.NotFound? {
        return ReplyOk, called, None;
      }
      if !outcome.Done? {
        cleanup := Some(CleanupRequest(called.value, id, "sandbox", "remove-failed"));
        return ReplyError, called, cleanup;
      }
      var _ := routes.DeleteSandbox(id, flushOk);
      reply := ReplyOk;
    }
  }

  // ----- Whole runs -----

  datatype Owner = Owner(engine: string, sandboxID: string)

  /** The server between calls. All but the first two fields are history: which live objects which
      engine created, which of them were acknowledged to the caller, every ID ever handed out, the
      restored containers whose record has no parent, and those of them that a sandbox removal has
      reached by name. */
  datatype World = World(
    table: Table,
    store: DurableLog.Log,
    pods: map<string, string>,
    ctrs: map<string, Owner>,
    ackedPods: set<string>,
    ackedCtrs: set<string>,
    issued: set<string>,
    legacy: set<string>,
    reached: set<string>)

  /** floor is the durable prefix of the store's log once the call is over; a call that returned
      an ID was acknowledged by the store, so the prefix covers it. */
  datatype Action =
    | RunPod(handler: string, id: string, now: Time, acked: bool, floor: nat)
    | CreateCtr(pod: string, id: string, now: Time, acked: bool, floor: nat)
    | RemovePod(pod: string, order: seq<Key>, floor: nat)
    | RemoveCtr(id: string, floor: nat)
    | Other(op: Op, floor: nat)       // a cleanup or backend-state call on the same store
    | Restart(kept: nat)              // crash, then RestoreState

  datatype Config = Config(norm: R.Norm, reg: R.Reg, rejectUnknown: bool)

  function RoutesAt(w: World, k: nat): seq<RouteRecord>
    requires k <= |w.store.log|
  {
    Fold(w.store.base, w.store.log[..k]).routes
  }

  predicate Init(c: Config, w: World) {
    && w.store.log == [] && w.store.floor == 0
    && w.table == Restored(Table(map[], map[], w.store.base))
    && "" !in w.table.pods
    && w.table.pods.Keys + w.table.containers.Keys <= w.issued
    // Restored routes that name registered types are live.
    && (forall p :: p in w.pods ==> p in w.table.pods && w.table.pods[p] == w.pods[p] && w.pods[p] in c.reg.modules)
    && (forall x :: x in w.ctrs ==> x in w.table.containers
                                    && w.table.containers[x] == Container(w.ctrs[x].engine, w.ctrs[x].sandboxID)
                                    && w.ctrs[x].engine in c.reg.modules)
    && w.ackedPods == w.pods.Keys && w.ackedCtrs == w.ctrs.Keys
    && w.legacy == (set x | x in w.ctrs && w.ctrs[x].sandboxID == "") && w.reached == {}
  }

  function DeleteOps(order: seq<Key>): seq<Op> {
    seq(|order|, i requires 0 <= i < |order| => DeleteRoute(order[i].kind, order[i].id))
  }

  /** The store calls an action makes. */
  function OpsOf(c: Config, w: World, a: Action): seq<Op> {
    match a
    case RunPod(handler, id, now, _, _) =>
      var eng := EngineForHandler(c.norm, c.reg, c.rejectUnknown, handler);
      if eng.None? then [] else [SaveRoute(RouteRecord("pod", id, eng.value, "", now), now)]
    case CreateCtr(pod, id, now, _, _) =>
      var eng := EngineForPod(c.reg, w.table, pod);
      if eng.None? then [] else [SaveRoute(RouteRecord("container", id, eng.value, pod, now), now)]
    case RemovePod(_, order, _) => DeleteOps(order)
    case RemoveCtr(id, _) => if id in w.table.containers then [DeleteRoute("container", id)] else []
    case Other(op, _) => [op]
    case Restart(_) => []
  }

  predicate LeavesRoutes(op: Op) {
    !op.SaveRoute? && !op.DeleteRoute?
  }

  /** The parentless containers with an engine of their own that the name rule gives to the sandbox. */
  function ReachedBy(c: Config, w: World, pod: string): set<string> {
    set x | x in w.ctrs && w.ctrs[x].sandboxID == "" && Some(w.ctrs[x].engine) != DefaultEngine(c.reg) && HasPrefix(x, pod + "-")
  }

  /** Engines hand out fresh non-empty IDs; a sandbox deletion issues its store calls in some
      order; an acknowledged creation is covered by the durable prefix. */
  ghost predicate Enabled(c: Config, w: World, a: Action) {
    match a
    case RunPod(handler, id, now, acked, floor) =>
      && EngineForHandler(c.norm, c.reg, c.rejectUnknown, handler).Some?
      && id != "" && id !in w.issued
      && w.store.floor <= floor <= |w.store.log| + 1 && (acked ==> floor == |w.store.log| + 1)
    case CreateCtr(pod, id, now, acked, floor) =>
      && EngineForPod(c.reg, w.table, pod).Some?
      && id != "" && id !in w.issued
      && w.store.floor <= floor <= |w.store.log| + 1 && (acked ==> floor == |w.store.log| + 1)
    case RemovePod(pod, order, floor) =>
      && pod != "" && EngineForPod(c.reg, w.table, pod).Some?
      && KeySet(order) == Stale(w.table.pods, w.table.containers, pod)
      && w.store.floor <= floor <= |w.store.log| + |order|
    case RemoveCtr(id, floor) =>
      && id != "" && EngineForContainer(c.reg, w.table, id).Some?
      && w.store.floor <= floor <= |w.store.log| + |OpsOf(c, w, a)|
    case Other(op, floor) =>
      LeavesRoutes(op) && Step(w.table.state, op).Flush? && w.store.floor <= floor <= |w.store.log| + 1
    case Restart(kept) => w.store.floor <= kept <= |w.store.log|
  }

  ghost function Do(c: Config, w: World, a: Action): World
    requires Enabled(c, w, a)
  {
    var ops := OpsOf(c, w, a);
    match a
    case RunPod(handler, id, now, acked, floor) =>
      var eng := EngineForHandler(c.norm, c.reg, c.rejectUnknown, handler).value;
      w.(table := Apply(w.table, TableOp.SetPod(id, eng, now)),
         store := DurableLog.Log(w.store.base, w.store.log + ops, floor),
         pods := w.pods[id := eng],
         ackedPods := if acked then w.ackedPods + {id} else w.ackedPods,
         issued := w.issued + {id})
    case CreateCtr(pod, id, now, acked, floor) =>
      var eng := EngineForPod(c.reg, w.table, pod).value;
      w.(table := Apply(w.table, TableOp.SetContainer(id, pod, eng, now)),
         store := DurableLog.Log(w.store.base, w.store.log + ops, floor),
         ctrs := w.ctrs[id := Owner(eng, pod)],
         ackedCtrs := if acked then w.ackedCtrs + {id} else w.ackedCtrs,
         issued := w.issued + {id})
    case RemovePod(pod, order, floor) =>
      var kept := map x | x in w.ctrs && w.ctrs[x].sandboxID != pod :: w.ctrs[x];
      w.(table := Apply(w.table, TableOp.DeleteSandbox(pod)),
         store := DurableLog.Log(w.store.base, w.store.log + ops, floor),
         pods := w.pods - {pod},
         ctrs := kept,
         ackedPods := w.ackedPods - {pod},
         ackedCtrs := w.ackedCtrs * kept.Keys,
         reached := w.reached + ReachedBy(c, w, pod))
    case RemoveCtr(id, floor) =>
      w.(table := Apply(w.table, TableOp.DeleteContainer(id)),
         store := DurableLog.Log(w.store.base, w.store.log + ops, floor),
         ctrs := w.ctrs - {id},
         ackedCtrs := w.ackedCtrs - {id})
    case Other(op, floor) =>
      w.(table := w.table.(state := After(w.table.state, op)),
         store := DurableLog.Log(w.store.base, w.store.log + ops, floor))
    case Restart(kept) =>
      var log := w.store.log[..kept];
      w.(table := Restored(Table(map[], map[], Fold(w.store.base, log))),
         store := DurableLog.Log(w.store.base, log, kept),
         pods := w.pods - (w.pods.Keys - w.ackedPods),
         ctrs := w.ctrs - (w.ctrs.Keys - w.ackedCtrs))
  }

  ghost predicate Run(c: Config, w: World, actions: seq<Action>, w': World)
    decreases |actions|
  {
    if actions == [] then w' == w
    else Enabled(c, w, actions[0]) && Run(c, Do(c, w, actions[0]), actions[1..], w')
  }

  // ----- The invariant -----

  /** The records route these objects to their engines. Only a parentless container can be without
      a route: one with the default engine, which resolves all the same, or one that was reached. */
  ghost predicate RoutesThem(c: Config, records: seq<RouteRecord>, pods: map<string, string>, ctrs: map<string, Owner>,
                             reached: set<string>)
  {
    && "" !in PodsOf(records)
    && (forall p :: p in pods ==> p in PodsOf(records) && PodsOf(records)[p] == pods[p])
    && (forall x :: x in ctrs ==> ContainerRouted(c, ContainersOf(records), x, ctrs[x], reached))
  }

  ghost predicate ContainerRouted(c: Config, view: map<string, Container>, x: string, o: Owner, reached: set<string>) {
    if x in view then view[x] == Container(o.engine, o.sandboxID)
    else o.sandboxID == "" && (Some(o.engine) == DefaultEngine(c.reg) || x in reached)
  }

  function Acked<V>(m: map<string, V>, acked: set<string>): map<string, V> {
    map k | k in m && k in acked :: m[k]
  }

  /** The index, the store's memory and the fold of its log agree. */
  ghost predicate InStep(w: World) {
    DurableLog.Valid(w.store) && Agrees(w.table) && w.table.state.routes == Fold(w.store.base, w.store.log).routes
  }

  ghost predicate OnlyIssued(w: World) {
    && w.pods.Keys + w.ctrs.Keys + PodsOf(w.table.state.routes).Keys + ContainersOf(w.table.state.routes).Keys <= w.issued
    && w.ackedPods <= w.pods.Keys && w.ackedCtrs <= w.ctrs.Keys
  }

  ghost predicate EnginesKnown(c: Config, w: World) {
    && (forall p :: p in w.pods ==> w.pods[p] in c.reg.modules)
    && (forall x :: x in w.ctrs ==> w.ctrs[x].engine in c.reg.modules)
    && (forall x :: x in w.ctrs && w.ctrs[x].sandboxID == "" ==> Some(w.ctrs[x].engine) == DefaultEngine(c.reg) || x in w.legacy)
    && w.reached <= w.legacy <= w.issued
  }

  ghost predicate Inv(c: Config, w: World) {
    && InStep(w) && OnlyIssued(w) && EnginesKnown(c, w)
    && RoutesThem(c, w.table.state.routes, w.pods, w.ctrs, w.reached)
    && PrefixesRouteAcked(c, w)
  }

  /** Every prefix a crash could leave routes the acknowledged objects, and knows only issued IDs. */
  ghost predicate PrefixesRouteAcked(c: Config, w: World) {
    forall k :: w.store.floor <= k < |w.store.log| ==>
      && RoutesThem(c, RoutesAt(w, k), Acked(w.pods, w.ackedPods), Acked(w.ctrs, w.ackedCtrs), w.reached)
      && PodsOf(RoutesAt(w, k)).Keys + ContainersOf(RoutesAt(w, k)).Keys <= w.issued
  }

  ghost predicate SubMap<V(!new)>(small: map<string, V>, big: map<string, V>) {
    forall k :: k in small ==> k in big && big[k] == small[k]
  }

  lemma FewerObjects(c: Config, records: seq<RouteRecord>, pods: map<string, string>, ctrs: map<string, Owner>,
                     reached: set<string>, pods': map<string, string>, ctrs': map<string, Owner>, reached': set<string>)
    requires RoutesThem(c, records, pods, ctrs, reached) && SubMap(pods', pods) && SubMap(ctrs', ctrs) && reached <= reached'
    ensures RoutesThem(c, records, pods', ctrs', reached')
  {
    hide PodsOf, ContainersOf;
  }

  /** A step that appends one store call keeps the promise about prefixes, if the objects it must
      hold for were all there before the call. */
  lemma OneCallKeepsPrefixes(c: Config, w: World, w': World, op: Op)
    requires Inv(c, w)
    requires w'.store == DurableLog.Log(w.store.base, w.store.log + [op], w'.store.floor) && w.store.floor <= w'.store.floor
    requires w.issued <= w'.issued && w.reached <= w'.reached
    requires w'.store.floor == |w.store.log| + 1
             || (SubMap(Acked(w'.pods, w'.ackedPods), Acked(w.pods, w.ackedPods))
                 && SubMap(Acked(w'.ctrs, w'.ackedCtrs), Acked(w.ctrs, w.ackedCtrs)))
    ensures PrefixesRouteAcked(c, w')
  {
    hide RoutesThem, Fold, PodsOf, ContainersOf;
    forall k | w'.store.floor <= k < |w'.store.log|
      ensures RoutesThem(c, RoutesAt(w', k), Acked(w'.pods, w'.ackedPods), Acked(w'.ctrs, w'.ackedCtrs), w'.reached)
      ensures PodsOf(RoutesAt(w', k)).Keys + ContainersOf(RoutesAt(w', k)).Keys <= w'.issued
    {
      assert w'.store.log[..k] == w.store.log[..k];
      if k < |w.store.log| {
        FewerObjects(c, RoutesAt(w, k), Acked(w.pods, w.ackedPods), Acked(w.ctrs, w.ackedCtrs), w.reached,
                     Acked(w'.pods, w'.ackedPods), Acked(w'.ctrs, w'.ackedCtrs), w'.reached);
      } else {
        assert w.store.log[..k] == w.store.log;
        FewerObjects(c, RoutesAt(w', k), w.pods, w.ctrs, w.reached,
                     Acked(w'.pods, w'.ackedPods), Acked(w'.ctrs, w'.ackedCtrs), w'.reached);
      }
    }
  }

  lemma DeleteCallRoutes(s: State, kind: string, id: string)
    ensures After(s, DeleteRoute(kind, id)).routes == DropRoutes(s.routes, kind, id)
  {
  }

  lemma {:induction false} FoldDeletes(base: State, log: seq<Op>, order: seq<Key>)
    ensures Fold(base, log + DeleteOps(order)).routes == Keep(Fold(base, log).routes, KeySet(order))
    decreases |order|
  {
    hide After, Keep, DropRoutes, Fold;
    var routes := Fold(base, log).routes;
    if order == [] {
      assert log + DeleteOps(order) == log;
      DropIsKeep(routes, {}, "", "");
      assert KeySet(order) == {};
    } else {
      var front, k := order[..|order| - 1], order[|order| - 1];
      FoldDeletes(base, log, front);
      assert log + DeleteOps(order) == log + DeleteOps(front) + [DeleteRoute(k.kind, k.id)];
      FoldAppend(base, log + DeleteOps(front), DeleteRoute(k.kind, k.id));
      DeleteCallRoutes(Fold(base, log + DeleteOps(front)), k.kind, k.id);
      DropIsKeep(routes, KeySet(front), k.kind, k.id);
      assert KeySet(order) == KeySet(front) + {k};
    }
  }

  /** Deleting any part of what a sandbox removal deletes leaves the other objects routed. */
  lemma RemovalSparesOthers(c: Config, w: World, pod: string, gone: set<Key>)
    requires Inv(c, w) && pod != ""
    requires gone <= Stale(w.table.pods, w.table.containers, pod)
    ensures var kept := map x | x in w.ctrs && w.ctrs[x].sandboxID != pod :: w.ctrs[x];
            RoutesThem(c, Keep(w.table.state.routes, gone), w.pods - {pod}, kept, w.reached + ReachedBy(c, w, pod))
    ensures PodsOf(Keep(w.table.state.routes, gone)).Keys + ContainersOf(Keep(w.table.state.routes, gone)).Keys <= w.issued
  {
    hide Keep, PodsOf, ContainersOf, Fold;
    var routes := w.table.state.routes;
    ViewKeep(routes, gone);
    var view := ContainersOf(routes);
    forall x | x in w.ctrs && w.ctrs[x].sandboxID != pod
      ensures ContainerRouted(c, view - IdsOf(gone, "container"), x, w.ctrs[x], w.reached + ReachedBy(c, w, pod))
    {
      if x in view && x in IdsOf(gone, "container") {
        assert Key("container", x) in gone;
        assert Belongs(x, view[x], pod);
      }
    }
  }

  lemma NewPodRouted(c: Config, w: World, r: RouteRecord)
    requires Inv(c, w) && r.kind == "pod" && r.id != "" && r.id !in w.issued
    ensures var routes := UpsertRoute(w.table.state.routes, r);
            && RoutesThem(c, routes, w.pods[r.id := r.engine], w.ctrs, w.reached)
            && PodsOf(routes).Keys + ContainersOf(routes).Keys <= w.issued + {r.id}
  {
    hide Fold, PodsOf, ContainersOf, UpsertRoute, PrefixesRouteAcked;
    ViewUpsert(w.table.state.routes, r);
  }

  lemma NewContainerRouted(c: Config, w: World, r: RouteRecord)
    requires Inv(c, w) && r.kind == "container" && r.id !in w.issued
    ensures var routes := UpsertRoute(w.table.state.routes, r);
            && RoutesThem(c, routes, w.pods, w.ctrs[r.id := Owner(r.engine, r.sandboxID)], w.reached)
            && PodsOf(routes).Keys + ContainersOf(routes).Keys <= w.issued + {r.id}
  {
    hide Fold, PodsOf, ContainersOf, UpsertRoute, PrefixesRouteAcked;
    ViewUpsert(w.table.state.routes, r);
  }

  lemma RunPodInv(c: Config, w: World, a: Action)
    requires TypesMatch(c.reg) && Inv(c, w) && a.RunPod? && Enabled(c, w, a)
    ensures Inv(c, Do(c, w, a))
  {
    hide Fold, PodsOf, ContainersOf, UpsertRoute, RoutesThem, PrefixesRouteAcked;
    var w' := Do(c, w, a);
    var op := OpsOf(c, w, a)[0];
    FoldAppend(w.store.base, w.store.log, op);
    StepAgrees(w.table, TableOp.SetPod(a.id, op.route.engine, a.now));
    NewPodRouted(c, w, op.route);
    OneCallKeepsPrefixes(c, w, w', op);
  }

  /** Without a parent there is no pod route to follow, so the engine is the default one. */
  lemma NoParentMeansDefault(c: Config, w: World)
    requires Inv(c, w)
    ensures EngineForPod(c.reg, w.table, "") == DefaultEngine(c.reg)
  {
    hide PodsOf, ContainersOf, Fold;
  }

  lemma EngineIsKnown(reg: R.Reg, t: Table, pod: string)
    requires TypesMatch(reg) && EngineForPod(reg, t, pod).Some?
    ensures EngineForPod(reg, t, pod).value in reg.modules
  {
  }

  lemma ContainerSaved(w: World, id: string, pod: string, eng: string, now: Time)
    requires id != "" && Agrees(w.table) && w.table.state.routes == Fold(w.store.base, w.store.log).routes
    ensures var r := RouteRecord("container", id, eng, pod, now);
            var t := Apply(w.table, TableOp.SetContainer(id, pod, eng, now));
            && Agrees(t) && t.state.routes == UpsertRoute(w.table.state.routes, r)
            && t.state.routes == Fold(w.store.base, w.store.log + [SaveRoute(r, now)]).routes
  {
    hide Fold, PodsOf, ContainersOf, UpsertRoute, Agrees;
    StepAgrees(w.table, TableOp.SetContainer(id, pod, eng, now));
    FoldAppend(w.store.base, w.store.log, SaveRoute(RouteRecord("container", id, eng, pod, now), now));
  }

  lemma CreateCtrPrefixes(c: Config, w: World, a: Action)
    requires Inv(c, w) && a.CreateCtr? && Enabled(c, w, a)
    ensures PrefixesRouteAcked(c, Do(c, w, a))
  {
    hide Fold, PodsOf, ContainersOf, RoutesThem, PrefixesRouteAcked, EngineForPod, DefaultEngine, Agrees, Apply;
    var w' := Do(c, w, a);
    if !a.acked {
      assert a.id !in w.ackedCtrs;
      assert Acked(w'.ctrs, w'.ackedCtrs) == Acked(w.ctrs, w.ackedCtrs);
    }
    OneCallKeepsPrefixes(c, w, w', OpsOf(c, w, a)[0]);
  }

  lemma CreateCtrKnown(c: Config, w: World, a: Action)
    requires TypesMatch(c.reg) && Inv(c, w) && a.CreateCtr? && Enabled(c, w, a)
    ensures EnginesKnown(c, Do(c, w, a))
  {
    EngineIsKnown(c.reg, w.table, a.pod);
    NoParentMeansDefault(c, w);
    hide InStep, OnlyIssued, RoutesThem, PrefixesRouteAcked, EngineForPod, DefaultEngine, Apply;
  }

  lemma CreateCtrInv(c: Config, w: World, a: Action)
    requires TypesMatch(c.reg) && Inv(c, w) && a.CreateCtr? && Enabled(c, w, a)
    ensures Inv(c, Do(c, w, a))
  {
    CreateCtrKnown(c, w, a);
    CreateCtrPrefixes(c, w, a);
    hide Fold, PodsOf, ContainersOf, UpsertRoute, RoutesThem, PrefixesRouteAcked, EngineForPod, EnginesKnown, Agrees, Apply;
    var eng := EngineForPod(c.reg, w.table, a.pod).value;
    ContainerSaved(w, a.id, a.pod, eng, a.now);
    NewContainerRouted(c, w, RouteRecord("container", a.id, eng, a.pod, a.now));
  }

  lemma ContainerRemovalSparesOthers(c: Config, w: World, id: string)
    requires Inv(c, w)
    ensures var routes := Keep(w.table.state.routes, {Key("container", id)});
            && RoutesThem(c, routes, w.pods, w.ctrs - {id}, w.reached)
            && PodsOf(routes).Keys + ContainersOf(routes).Keys <= w.issued
  {
    hide Keep, PodsOf, ContainersOf, Fold, PrefixesRouteAcked;
    var key := Key("container", id);
    ViewKeep(w.table.state.routes, {key});
    assert IdsOf({key}, "pod") == {};
    assert forall x :: x in IdsOf({key}, "container") ==> x == id;
    forall x | x in w.ctrs && x != id
      ensures ContainerRouted(c, ContainersOf(w.table.state.routes) - IdsOf({key}, "container"), x, w.ctrs[x], w.reached)
    {
    }
  }

  lemma RemoveCtrInv(c: Config, w: World, a: Action)
    requires TypesMatch(c.reg) && Inv(c, w) && a.RemoveCtr? && Enabled(c, w, a)
    ensures Inv(c, Do(c, w, a))
  {
    hide Fold, PodsOf, ContainersOf, Keep, RoutesThem, PrefixesRouteAcked;
    var w' := Do(c, w, a);
    StepAgrees(w.table, TableOp.DeleteContainer(a.id));
    if a.id in w.table.containers {
      var key := Key("container", a.id);
      FoldDeletes(w.store.base, w.store.log, [key]);
      assert DeleteOps([key]) == OpsOf(c, w, a);
      assert KeySet([key]) == {key};
      ContainerRemovalSparesOthers(c, w, a.id);
      OneCallKeepsPrefixes(c, w, w', OpsOf(c, w, a)[0]);
    } else {
      assert w'.store.log == w.store.log;
      FewerObjects(c, w.table.state.routes, w.pods, w.ctrs, w.reached, w'.pods, w'.ctrs, w'.reached);
      NoCallKeepsPrefixes(c, w, w');
    }
  }

  lemma NoCallKeepsPrefixes(c: Config, w: World, w': World)
    requires Inv(c, w)
    requires w'.store == DurableLog.Log(w.store.base, w.store.log, w'.store.floor) && w.store.floor <= w'.store.floor
    requires w.issued == w'.issued && w.reached <= w'.reached
    requires SubMap(Acked(w'.pods, w'.ackedPods), Acked(w.pods, w.ackedPods))
    requires SubMap(Acked(w'.ctrs, w'.ackedCtrs), Acked(w.ctrs, w.ackedCtrs))
    ensures PrefixesRouteAcked(c, w')
  {
    hide RoutesThem, Fold, PodsOf, ContainersOf;
    forall k | w'.store.floor <= k < |w'.store.log|
      ensures RoutesThem(c, RoutesAt(w', k), Acked(w'.pods, w'.ackedPods), Acked(w'.ctrs, w'.ackedCtrs), w'.reached)
      ensures PodsOf(RoutesAt(w', k)).Keys + ContainersOf(RoutesAt(w', k)).Keys <= w'.issued
    {
      assert RoutesAt(w', k) == RoutesAt(w, k);
      FewerObjects(c, RoutesAt(w, k), Acked(w.pods, w.ackedPods), Acked(w.ctrs, w.ackedCtrs), w.reached,
                   Acked(w'.pods, w'.ackedPods), Acked(w'.ctrs, w'.ackedCtrs), w'.reached);
    }
  }

  lemma RemovePodPrefixes(c: Config, w: World, a: Action)
    requires Inv(c, w) && a.RemovePod? && Enabled(c, w, a)
    ensures PrefixesRouteAcked(c, Do(c, w, a))
  {
    hide RoutesThem, Fold, PodsOf, ContainersOf, Keep;
    var w' := Do(c, w, a);
    var pods', ctrs' := Acked(w'.pods, w'.ackedPods), Acked(w'.ctrs, w'.ackedCtrs);
    forall k | w'.store.floor <= k < |w'.store.log|
      ensures RoutesThem(c, RoutesAt(w', k), pods', ctrs', w'.reached)
      ensures PodsOf(RoutesAt(w', k)).Keys + ContainersOf(RoutesAt(w', k)).Keys <= w'.issued
    {
      var n := |w.store.log|;
      if k < n {
        assert w'.store.log[..k] == w.store.log[..k];
        FewerObjects(c, RoutesAt(w, k), Acked(w.pods, w.ackedPods), Acked(w.ctrs, w.ackedCtrs), w.reached, pods', ctrs', w'.reached);
      } else {
        var done := a.order[..k - n];
        assert w'.store.log[..k] == w.store.log + DeleteOps(done);
        FoldDeletes(w.store.base, w.store.log, done);
        assert KeySet(done) <= KeySet(a.order);
        RemovalSparesOthers(c, w, a.pod, KeySet(done));
        FewerObjects(c, RoutesAt(w', k), w'.pods, w'.ctrs, w'.reached, pods', ctrs', w'.reached);
      }
    }
  }

  lemma RemovePodInv(c: Config, w: World, a: Action)
    requires TypesMatch(c.reg) && Inv(c, w) && a.RemovePod? && Enabled(c, w, a)
    ensures Inv(c, Do(c, w, a))
  {
    hide RoutesThem, Fold, PodsOf, ContainersOf, Keep, PrefixesRouteAcked;
    var w' := Do(c, w, a);
    var gone := Stale(w.table.pods, w.table.containers, a.pod);
    StepAgrees(w.table, TableOp.DeleteSandbox(a.pod));
    FoldDeletes(w.store.base, w.store.log, a.order);
    RemovalSparesOthers(c, w, a.pod, gone);
    DropIsKeep(w.table.state.routes, {}, "", "");
    assert w'.table.state.routes == Keep(w.table.state.routes, gone);
    RemovePodPrefixes(c, w, a);
  }

  lemma RestartInv(c: Config, w: World, a: Action)
    requires TypesMatch(c.reg) && Inv(c, w) && a.Restart? && Enabled(c, w, a)
    ensures Inv(c, Do(c, w, a))
  {
    hide RoutesThem, Fold, PodsOf, ContainersOf, DefaultEngine;
    var w' := Do(c, w, a);
    assert w'.pods == Acked(w.pods, w.ackedPods) && w'.ctrs == Acked(w.ctrs, w.ackedCtrs);
    if a.kept == |w.store.log| {
      assert w.store.log[..a.kept] == w.store.log;
      FewerObjects(c, w.table.state.routes, w.pods, w.ctrs, w.reached, w'.pods, w'.ctrs, w'.reached);
    } else {
      assert w'.table.state.routes == RoutesAt(w, a.kept);
    }
  }

  lemma OtherKeepsRoutes(s: State, op: Op)
    requires LeavesRoutes(op)
    ensures After(s, op).routes == s.routes
  {
    hide SplitPath, UpsertTask, DropTasks;
  }

  /** Cleanup and backend-state calls share the log and leave every route alone. */
  lemma OtherInv(c: Config, w: World, a: Action)
    requires Inv(c, w) && a.Other? && Enabled(c, w, a)
    ensures Inv(c, Do(c, w, a)) && Do(c, w, a).table.state.routes == w.table.state.routes
  {
    hide RoutesThem, Fold, PodsOf, ContainersOf, PrefixesRouteAcked, After, Step;
    var w' := Do(c, w, a);
    OtherKeepsRoutes(w.table.state, a.op);
    OtherKeepsRoutes(Fold(w.store.base, w.store.log), a.op);
    FoldAppend(w.store.base, w.store.log, a.op);
    OneCallKeepsPrefixes(c, w, w', a.op);
  }

  lemma StepInv(c: Config, w: World, a: Action)
    requires TypesMatch(c.reg) && Inv(c, w) && Enabled(c, w, a)
    ensures Inv(c, Do(c, w, a))
  {
    match a
    case RunPod(_, _, _, _, _) => RunPodInv(c, w, a);
    case CreateCtr(_, _, _, _, _) => CreateCtrInv(c, w, a);
    case RemovePod(_, _, _) => RemovePodInv(c, w, a);
    case RemoveCtr(_, _) => RemoveCtrInv(c, w, a);
    case Other(_, _) => OtherInv(c, w, a);
    case Restart(_) => RestartInv(c, w, a);
  }

  lemma {:induction false} RunInv(c: Config, w: World, actions: seq<Action>, w': World)
    requires TypesMatch(c.reg) && Inv(c, w) && Run(c, w, actions, w')
    ensures Inv(c, w')
    decreases |actions|
  {
    hide Inv;
    if actions != [] {
      StepInv(c, w, actions[0]);
      RunInv(c, Do(c, w, actions[0]), actions[1..], w');
    }
  }

  lemma InitInv(c: Config, w: World)
    requires Init(c, w)
    ensures Inv(c, w)
  {
  }

  // ----- Routing safety -----

  /** Some sandbox removal of the run reaches the container's name. */
  ghost predicate Exposed(actions: seq<Action>, x: string) {
    exists i :: 0 <= i < |actions| && actions[i].RemovePod? && HasPrefix(x, actions[i].pod + "-")
  }

  lemma ReachedStep(c: Config, w: World, a: Action)
    requires Enabled(c, w, a)
    ensures Do(c, w, a).legacy == w.legacy
    ensures forall x :: x in Do(c, w, a).reached ==> x in w.reached || (a.RemovePod? && HasPrefix(x, a.pod + "-"))
  {
    hide Apply, Fold, EngineForHandler, EngineForPod, EngineForContainer, After, Stale;
  }

  lemma {:induction false} ReachedIsExposed(c: Config, w: World, actions: seq<Action>, w': World)
    requires Run(c, w, actions, w')
    ensures w'.legacy == w.legacy && forall x :: x in w'.reached ==> x in w.reached || Exposed(actions, x)
    decreases |actions|
  {
    hide Enabled, Do;
    if actions != [] {
      ReachedStep(c, w, actions[0]);
      ReachedIsExposed(c, Do(c, w, actions[0]), actions[1..], w');
      forall x | x in w'.reached
        ensures x in w.reached || Exposed(actions, x)
      {
        if Exposed(actions[1..], x) {
          var i :| 0 <= i < |actions[1..]| && actions[1..][i].RemovePod? && HasPrefix(x, actions[1..][i].pod + "-");
          assert actions[i + 1] == actions[1..][i];
        }
      }
    }
  }

  lemma UnreachedResolves(c: Config, w: World, x: string)
    requires TypesMatch(c.reg) && Inv(c, w) && x in w.ctrs && x !in w.reached
    ensures EngineForContainer(c.reg, w.table, x) == Some(w.ctrs[x].engine)
  {
    hide PodsOf, ContainersOf, Fold, PrefixesRouteAcked;
    assert ContainerRouted(c, w.table.containers, x, w.ctrs[x], w.reached);
  }

  /** In every reachable state every live object resolves to the engine that created it: every
      sandbox and every container, created or restored, save a restored container without a
      recorded parent whose name some removed sandbox reached. */
  lemma RoutingSafety(c: Config, w0: World, actions: seq<Action>, w: World)
    requires TypesMatch(c.reg) && Init(c, w0) && Run(c, w0, actions, w)
    ensures forall p :: p in w.pods ==> EngineForPod(c.reg, w.table, p) == Some(w.pods[p])
    ensures forall x :: x in w.ctrs && !(x in w0.legacy && Exposed(actions, x)) ==>
              EngineForContainer(c.reg, w.table, x) == Some(w.ctrs[x].engine)
  {
    hide PodsOf, ContainersOf, Fold, PrefixesRouteAcked, Run;
    InitInv(c, w0);
    RunInv(c, w0, actions, w);
    ReachedIsExposed(c, w0, actions, w);
    forall x | x in w.ctrs && !(x in w0.legacy && Exposed(actions, x))
      ensures EngineForContainer(c.reg, w.table, x) == Some(w.ctrs[x].engine)
    {
      UnreachedResolves(c, w, x);
    }
  }

  /** The exact reach of one removal: a routed container without a recorded parent still resolves
      to its engine if and only if its name does not begin with the sandbox and a dash, or its
      engine is the default one. */
  lemma RemovalReachesIff(c: Config, w: World, a: Action, x: string)
    requires TypesMatch(c.reg) && Inv(c, w) && a.RemovePod? && Enabled(c, w, a)
    requires x in w.ctrs && w.ctrs[x].sandboxID == "" && x in w.table.containers
    ensures EngineForContainer(c.reg, Do(c, w, a).table, x) == Some(w.ctrs[x].engine) <==>
            !HasPrefix(x, a.pod + "-") || Some(w.ctrs[x].engine) == DefaultEngine(c.reg)
  {
    hide PodsOf, ContainersOf, Fold, PrefixesRouteAcked, Remove;
    assert ContainerRouted(c, w.table.containers, x, w.ctrs[x], w.reached);
  }

  /** An acknowledged sandbox stays live, with its engine, over every run that does not remove
      it, crashes included. */
  lemma {:induction false} AckedPodStaysLive(c: Config, w: World, actions: seq<Action>, w': World, p: string)
    requires TypesMatch(c.reg) && Inv(c, w) && Run(c, w, actions, w')
    requires p in w.pods && p in w.ackedPods
    requires forall i :: 0 <= i < |actions| ==> !(actions[i].RemovePod? && actions[i].pod == p)
    ensures p in w'.pods && p in w'.ackedPods && w'.pods[p] == w.pods[p]
    ensures EngineForPod(c.reg, w'.table, p) == Some(w.pods[p])
    decreases |actions|
  {
    if actions == [] {
      hide PodsOf, ContainersOf, Fold;
    } else {
      StepInv(c, w, actions[0]);
      StepKeepsAckedPod(c, w, actions[0], p);
      AckedPodStaysLive(c, Do(c, w, actions[0]), actions[1..], w', p);
    }
  }

  lemma StepKeepsAckedPod(c: Config, w: World, a: Action, p: string)
    requires Inv(c, w) && Enabled(c, w, a) && p in w.pods && p in w.ackedPods
    requires !(a.RemovePod? && a.pod == p)
    ensures var w' := Do(c, w, a); p in w'.pods && p in w'.ackedPods && w'.pods[p] == w.pods[p]
  {
    hide Fold, PodsOf, ContainersOf, RoutesThem, PrefixesRouteAcked;
  }

  lemma StepKeepsAckedCtr(c: Config, w: World, a: Action, x: string)
    requires Inv(c, w) && Enabled(c, w, a) && x in w.ctrs && x in w.ackedCtrs
    requires !(a.RemovePod? && a.pod == w.ctrs[x].sandboxID) && !(a.RemoveCtr? && a.id == x)
    ensures var w' := Do(c, w, a); x in w'.ctrs && x in w'.ackedCtrs && w'.ctrs[x] == w.ctrs[x]
  {
    hide Fold, PodsOf, ContainersOf, RoutesThem, PrefixesRouteAcked;
  }

  /** The same for an acknowledged container, created or restored, while neither it nor its sandbox
      is removed, nor, if it has no recorded parent, a sandbox that its name begins with. */
  lemma {:induction false} AckedContainerStaysLive(c: Config, w: World, actions: seq<Action>, w': World, x: string)
    requires TypesMatch(c.reg) && Inv(c, w) && Run(c, w, actions, w')
    requires x in w.ctrs && x in w.ackedCtrs
    requires forall i :: 0 <= i < |actions| ==>
               && !(actions[i].RemovePod? && actions[i].pod == w.ctrs[x].sandboxID)
               && !(actions[i].RemoveCtr? && actions[i].id == x)
    requires x in w.legacy ==> x !in w.reached && !Exposed(actions, x)
    ensures x in w'.ctrs && w'.ctrs[x] == w.ctrs[x]
    ensures EngineForContainer(c.reg, w'.table, x) == Some(w.ctrs[x].engine)
    decreases |actions|
  {
    if actions == [] {
      UnreachedResolves(c, w, x);
    } else {
      hide Fold, PodsOf, ContainersOf, RoutesThem, PrefixesRouteAcked;
      StepInv(c, w, actions[0]);
      StepKeepsAckedCtr(c, w, actions[0], x);
      ReachedStep(c, w, actions[0]);
      StillUnexposed(actions, x);
      AckedContainerStaysLive(c, Do(c, w, actions[0]), actions[1..], w', x);
    }
  }

  lemma StillUnexposed(actions: seq<Action>, x: string)
    requires actions != []
    ensures !Exposed(actions, x) ==>
              !Exposed(actions[1..], x) && !(actions[0].RemovePod? && HasPrefix(x, actions[0].pod + "-"))
  {
    if Exposed(actions[1..], x) {
      var i :| 0 <= i < |actions[1..]| && actions[1..][i].RemovePod? && HasPrefix(x, actions[1..][i].pod + "-");
      assert actions[i + 1] == actions[1..][i];
    }
  }

  /** The actions of a run are the calls of the server: each is possible whenever its call is, with
      any outcome of the flush, and changes the table as the call does. */
  lemma ActionsAreCalls(c: Config, w: World, a: Action)
    requires Inv(c, w)
    ensures a.RunPod? && a.id != "" && a.id !in w.issued && a.floor == |w.store.log| + 1 ==>
              var eng := EngineForHandler(c.norm, c.reg, c.rejectUnknown, a.handler);
              eng.Some? ==>
                && Enabled(c, w, a)
                && var w' := Do(c, w, a);
                   && w'.table == Apply(w.table, TableOp.SetPod(a.id, eng.value, a.now))
                   && w'.pods == w.pods[a.id := eng.value] && (a.id in w'.ackedPods <==> a.acked)
    ensures a.CreateCtr? && a.id != "" && a.id !in w.issued && a.floor == |w.store.log| + 1 ==>
              var eng := EngineForPod(c.reg, w.table, a.pod);
              eng.Some? ==>
                && Enabled(c, w, a)
                && var w' := Do(c, w, a);
                   && w'.table == Apply(w.table, TableOp.SetContainer(a.id, a.pod, eng.value, a.now))
                   && w'.ctrs == w.ctrs[a.id := Owner(eng.value, a.pod)] && (a.id in w'.ackedCtrs <==> a.acked)
    ensures a.RemovePod? && a.pod != "" && EngineForPod(c.reg, w.table, a.pod).Some?
            && KeySet(a.order) == Stale(w.table.pods, w.table.containers, a.pod) && a.floor == w.store.floor ==>
              Enabled(c, w, a) && Do(c, w, a).table == Apply(w.table, TableOp.DeleteSandbox(a.pod))
    ensures a.RemoveCtr? && a.id != "" && EngineForContainer(c.reg, w.table, a.id).Some? && a.floor == w.store.floor ==>
              Enabled(c, w, a) && Do(c, w, a).table == Apply(w.table, TableOp.DeleteContainer(a.id))
    ensures a.Restart? && w.store.floor <= a.kept <= |w.store.log| ==>
              Enabled(c, w, a) && Do(c, w, a).table == Restored(Do(c, w, a).table)
  {
    hide Fold, PodsOf, ContainersOf, RoutesThem, PrefixesRouteAcked, Apply, EngineForHandler, EngineForPod, EngineForContainer, Stale;
  }

  /** Each action moves the store as the durable log allows. */
  lemma ActionsFollowDurableLog(c: Config, w: World, a: Action)
    requires Inv(c, w) && Enabled(c, w, a)
    ensures a.Restart? ==> DurableLog.Crash(w.store, Do(c, w, a).store)
    ensures !a.Restart? ==> DurableLog.Extend(w.store, Do(c, w, a).store, OpsOf(c, w, a))
  {
    hide Fold, PodsOf, ContainersOf, RoutesThem, PrefixesRouteAcked;
  }

  /** A frozen registry built by registration stores modules under the types they report. */
  lemma RegistrationMatchesTypes(norm: R.Norm, ms: seq<R.Module>)
    requires R.RegisterAll(norm, ms).Some?
    ensures TypesMatch(R.RegisterAll(norm, ms).value)
  {
    R.RegistersIffCompatible(norm, ms);
    var r := R.RegisterAll(norm, ms).value;
    forall t | t in r.modules
      ensures r.modules[t].typ == t
    {
      var m :| m in ms && m.typ == t;
    }
  }
}
