/** The backend registry: what one registration accepts and stores, and why the order of
    registration does not show in what a handler or an image resolves to. */
module Registry {
  import opened Options

  /** engineType is the type the engine reports, None for a nil engine. */
  datatype Module = Module(
    typ: string,
    engineType: Option<string>,
    handler: string,
    aliases: seq<string>,
    prefixes: seq<string>)

  datatype ImageRoute = ImageRoute(prefix: string, backend: string)

  /** norm is the handler normalisation, lower case without surrounding space; nothing else is
      assumed of it. */
  type Norm = string -> string

  datatype Reg = Reg(
    modules: map<string, Module>,
    handlers: map<string, string>,
    imageRoutes: seq<ImageRoute>,
    defaultType: string,
    frozen: bool)

  const NEW := Reg(map[], map[], [], "", false)

  // ----- What a module claims -----

  function Names(norm: Norm, m: Module): set<string> {
    {norm(m.handler)} + (set a | a in m.aliases && norm(a) != "" :: norm(a))
  }

  function PrefixSet(m: Module): set<string> {
    set p | p in m.prefixes
  }

  function Taken(routes: seq<ImageRoute>): set<string> {
    set r | r in routes :: r.prefix
  }

  predicate WellFormed(norm: Norm, m: Module) {
    && m.engineType == Some(m.typ)
    && m.typ != "" && norm(m.handler) != ""
    && "" !in m.prefixes
  }

  predicate CanRegister(norm: Norm, r: Reg, m: Module) {
    && !r.frozen
    && WellFormed(norm, m)
    && m.typ !in r.modules
    && Names(norm, m) !! r.handlers.Keys
    && PrefixSet(m) !! Taken(r.imageRoutes)
  }

  /** A handler names a module as its handler or, if not empty, as one of its aliases. */
  ghost predicate NamedBy(norm: Norm, m: Module, name: string) {
    name == norm(m.handler) || (name != "" && exists a :: a in m.aliases && norm(a) == name)
  }

  lemma NamesExact(norm: Norm, m: Module, name: string)
    ensures name in Names(norm, m) <==> NamedBy(norm, m, name)
  {
  }

  /** The reasons for a refusal, one by one. */
  lemma RejectsExactly(norm: Norm, r: Reg, m: Module)
    ensures !CanRegister(norm, r, m) <==>
            || r.frozen || m.engineType != Some(m.typ) || m.typ == "" || m.typ in r.modules
            || norm(m.handler) == "" || norm(m.handler) in r.handlers
            || (exists a :: a in m.aliases && norm(a) != "" && norm(a) in r.handlers)
            || (exists p :: p in m.prefixes && (p == "" || exists x :: x in r.imageRoutes && x.prefix == p))
  {
    if exists p :: p in m.prefixes && exists x :: x in r.imageRoutes && x.prefix == p {
      var p :| p in m.prefixes && exists x :: x in r.imageRoutes && x.prefix == p;
      assert p in PrefixSet(m) && p in Taken(r.imageRoutes);
    }
    if exists a :: a in m.aliases && norm(a) != "" && norm(a) in r.handlers {
      var a :| a in m.aliases && norm(a) != "" && norm(a) in r.handlers;
      assert norm(a) in Names(norm, m);
    }
  }

  // ----- What is stored -----

  function KeptAliases(norm: Norm, handler: string, raws: seq<string>): seq<string> {
    if raws == [] then [] else
    var earlier := KeptAliases(norm, handler, raws[..|raws| - 1]);
    var alias := norm(raws[|raws| - 1]);
    if alias == "" || alias == handler || alias in earlier then earlier else earlier + [alias]
  }

  function KeptPrefixes(raws: seq<string>): seq<string> {
    if raws == [] then [] else
    var earlier := KeptPrefixes(raws[..|raws| - 1]);
    var p := raws[|raws| - 1];
    if p in earlier then earlier else earlier + [p]
  }

  function Stored(norm: Norm, m: Module): Module {
    m.(handler := norm(m.handler),
       aliases := KeptAliases(norm, norm(m.handler), m.aliases),
       prefixes := KeptPrefixes(m.prefixes))
  }

  function RoutesFor(m: Module): seq<ImageRoute> {
    seq(|m.prefixes|, i requires 0 <= i < |m.prefixes| => ImageRoute(m.prefixes[i], m.typ))
  }

  predicate LongestFirst(routes: seq<ImageRoute>) {
    forall i, j :: 0 <= i < j < |routes| ==> |routes[i].prefix| >= |routes[j].prefix|
  }

  /** The position after every route at least as long: insertion keeps equal lengths in order. */
  function Insert(routes: seq<ImageRoute>, r: ImageRoute): (out: seq<ImageRoute>)
    requires LongestFirst(routes)
    ensures LongestFirst(out)
    ensures multiset(out) == multiset(routes) + multiset{r}
  {
    if routes == [] then [r]
    else if |routes[|routes| - 1].prefix| >= |r.prefix| then routes + [r]
    else
      var front, last := routes[..|routes| - 1], routes[|routes| - 1];
      assert routes == front + [last];
      InsertBeforeLast(front, last, r, Insert(front, r));
      Insert(front, r) + [last]
  }

  lemma InsertBeforeLast(front: seq<ImageRoute>, last: ImageRoute, r: ImageRoute, inner: seq<ImageRoute>)
    requires LongestFirst(front + [last]) && |r.prefix| >= |last.prefix|
    requires LongestFirst(inner) && multiset(inner) == multiset(front) + multiset{r}
    ensures LongestFirst(inner + [last])
  {
    forall i | 0 <= i < |inner|
      ensures |inner[i].prefix| >= |last.prefix|
    {
      assert inner[i] in multiset(inner);
      if inner[i] != r {
        assert inner[i] in multiset(front);
        var j :| 0 <= j < |front| && front[j] == inner[i];
        assert (front + [last])[j] == front[j] && (front + [last])[|front|] == last;
      }
    }
  }

  /** sort.SliceStable by decreasing prefix length */
  function SortRoutes(routes: seq<ImageRoute>): (out: seq<ImageRoute>)
    ensures LongestFirst(out)
    ensures multiset(out) == multiset(routes)
  {
    if routes == [] then [] else
    assert routes == routes[..|routes| - 1] + [routes[|routes| - 1]];
    Insert(SortRoutes(routes[..|routes| - 1]), routes[|routes| - 1])
  }

  /** The routes of one prefix length, in order. */
  function OfLength(routes: seq<ImageRoute>, n: nat): seq<ImageRoute> {
    if routes == [] then [] else
    OfLength(routes[..|routes| - 1], n) + if |routes[|routes| - 1].prefix| == n then [routes[|routes| - 1]] else []
  }

  lemma OneMoreLength(routes: seq<ImageRoute>, r: ImageRoute, n: nat)
    ensures OfLength(routes + [r], n) == OfLength(routes, n) + if |r.prefix| == n then [r] else []
  {
    assert (routes + [r])[..|routes|] == routes;
  }

  lemma {:induction false} InsertIsStable(routes: seq<ImageRoute>, r: ImageRoute, n: nat)
    requires LongestFirst(routes)
    ensures OfLength(Insert(routes, r), n) == OfLength(routes, n) + if |r.prefix| == n then [r] else []
  {
    hide OfLength;
    if routes == [] {
      OneMoreLength([], r, n);
      assert [] + [r] == [r];
    } else if |routes[|routes| - 1].prefix| >= |r.prefix| {
      OneMoreLength(routes, r, n);
    } else {
      var front, last := routes[..|routes| - 1], routes[|routes| - 1];
      InsertIsStable(front, r, n);
      OneMoreLength(Insert(front, r), last, n);
      OneMoreLength(front, last, n);
      assert routes == front + [last];
    }
  }

  /** Equal lengths stay in the order in which they were registered. */
  lemma {:induction false} SortIsStable(routes: seq<ImageRoute>, n: nat)
    ensures OfLength(SortRoutes(routes), n) == OfLength(routes, n)
  {
    if routes != [] {
      SortIsStable(routes[..|routes| - 1], n);
      InsertIsStable(SortRoutes(routes[..|routes| - 1]), routes[|routes| - 1], n);
    }
  }

  function Registered(norm: Norm, r: Reg, m: Module): Reg {
    var stored := Stored(norm, m);
    r.(modules := r.modules[m.typ := stored],
       handlers := r.handlers + (map n | n in Names(norm, m) :: m.typ),
       imageRoutes := SortRoutes(r.imageRoutes + RoutesFor(stored)))
  }

  // ----- Resolution -----

  function ResolveHandler(norm: Norm, r: Reg, handler: string): Option<Module> {
    var n := norm(handler);
    if n == "" || n !in r.handlers || r.handlers[n] !in r.modules then None
    else Some(r.modules[r.handlers[n]])
  }

  function FirstMatch(r: Reg, routes: seq<ImageRoute>, image: string): Option<Module> {
    if routes == [] then None
    else if routes[0].prefix <= image && routes[0].backend in r.modules then Some(r.modules[routes[0].backend])
    else FirstMatch(r, routes[1..], image)
  }

  function ResolveImage(r: Reg, image: string): Option<Module> {
    if image == "" then None else FirstMatch(r, r.imageRoutes, image)
  }

  // ----- Lists of modules -----

  function RegisterAll(norm: Norm, ms: seq<Module>): Option<Reg> {
    if ms == [] then Some(NEW) else
    var r :- RegisterAll(norm, ms[..|ms| - 1]);
    if CanRegister(norm, r, ms[|ms| - 1]) then Some(Registered(norm, r, ms[|ms| - 1])) else None
  }

  predicate Apart(norm: Norm, a: Module, b: Module) {
    a.typ != b.typ && Names(norm, a) !! Names(norm, b) && PrefixSet(a) !! PrefixSet(b)
  }

  /** The modules can live together; said of the bag of modules, not of a list. */
  ghost predicate Compatible(norm: Norm, bag: multiset<Module>) {
    && (forall m :: m in bag ==> bag[m] == 1 && WellFormed(norm, m))
    && (forall a, b :: a in bag && b in bag && a != b ==> Apart(norm, a, b))
  }

  /** The module owns the longest registered prefix of the image. */
  ghost predicate OwnsLongest(ms: seq<Module>, m: Module, p: string, image: string) {
    && m in ms && p in m.prefixes && p <= image
    && (forall m2, p2 :: m2 in ms && p2 in m2.prefixes && p2 <= image ==> |p2| <= |p|)
  }

  /** The registry holds exactly what the modules of the list claim. */
  ghost predicate HoldsTypes(norm: Norm, r: Reg, ms: seq<Module>) {
    && (forall t :: t in r.modules ==> exists m :: m in ms && m.typ == t)
    && (forall m :: m in ms ==> m.typ in r.modules && r.modules[m.typ] == Stored(norm, m))
  }

  ghost predicate HoldsNames(norm: Norm, r: Reg, ms: seq<Module>) {
    && (forall n :: n in r.handlers ==> exists m :: m in ms && n in Names(norm, m))
    && (forall m, n :: m in ms && n in Names(norm, m) ==> n in r.handlers && r.handlers[n] == m.typ)
  }

  ghost predicate HoldsImages(r: Reg, ms: seq<Module>) {
    && LongestFirst(r.imageRoutes)
    && (forall x :: x in r.imageRoutes ==> exists m :: m in ms && x.prefix in m.prefixes && x.backend == m.typ)
    && (forall m, p :: m in ms && p in m.prefixes ==> ImageRoute(p, m.typ) in r.imageRoutes)
  }

  ghost predicate HoldsModules(norm: Norm, r: Reg, ms: seq<Module>) {
    !r.frozen && HoldsTypes(norm, r, ms) && HoldsNames(norm, r, ms) && HoldsImages(r, ms)
  }

  lemma {:induction false} KeptPrefixesSame(raws: seq<string>)
    ensures forall p :: p in KeptPrefixes(raws) <==> p in raws
  {
    if raws != [] {
      KeptPrefixesSame(raws[..|raws| - 1]);
      assert raws == raws[..|raws| - 1] + [raws[|raws| - 1]];
    }
  }

  lemma {:induction false} KeptAliasesSame(norm: Norm, handler: string, raws: seq<string>)
    ensures forall n :: n in KeptAliases(norm, handler, raws) <==>
              n != "" && n != handler && exists a :: a in raws && norm(a) == n
  {
    if raws != [] {
      KeptAliasesSame(norm, handler, raws[..|raws| - 1]);
      assert raws == raws[..|raws| - 1] + [raws[|raws| - 1]];
    }
  }

  predicate NoRepeats(xs: seq<string>) {
    forall i, j :: 0 <= i < j < |xs| ==> xs[i] != xs[j]
  }

  lemma NoRepeatsMore(xs: seq<string>, x: string)
    requires NoRepeats(xs) && x !in xs
    ensures NoRepeats(xs + [x])
  {
    assert forall i :: 0 <= i < |xs| ==> xs[i] in xs;
  }

  /** No alias and no prefix is stored twice. */
  lemma {:induction false} KeptOnce(norm: Norm, handler: string, raws: seq<string>)
    ensures NoRepeats(KeptAliases(norm, handler, raws)) && NoRepeats(KeptPrefixes(raws))
  {
    if raws != [] {
      var front, last := raws[..|raws| - 1], raws[|raws| - 1];
      KeptOnce(norm, handler, front);
      hide NoRepeats;
      if norm(last) !in KeptAliases(norm, handler, front) {
        NoRepeatsMore(KeptAliases(norm, handler, front), norm(last));
      }
      if last !in KeptPrefixes(front) {
        NoRepeatsMore(KeptPrefixes(front), last);
      }
    }
  }

  lemma NewRoutes(norm: Norm, r: Reg, m: Module)
    ensures var out := Registered(norm, r, m).imageRoutes;
            && LongestFirst(out)
            && forall x :: x in out <==> x in r.imageRoutes || (x.prefix in m.prefixes && x.backend == m.typ)
  {
    var stored := Stored(norm, m);
    KeptPrefixesSame(m.prefixes);
    var joined := r.imageRoutes + RoutesFor(stored);
    var out := SortRoutes(joined);
    forall x
      ensures x in out <==> x in r.imageRoutes || (x.prefix in m.prefixes && x.backend == m.typ)
    {
      assert x in out <==> x in multiset(out);
      assert x in joined <==> x in multiset(joined);
      assert x in joined <==> x in r.imageRoutes || x in RoutesFor(stored);
      if x.prefix in m.prefixes && x.backend == m.typ {
        var i :| 0 <= i < |stored.prefixes| && stored.prefixes[i] == x.prefix;
        assert RoutesFor(stored)[i] == x;
      }
    }
  }

  lemma RegisteredHoldsTypes(norm: Norm, r: Reg, ms: seq<Module>, m: Module)
    requires HoldsTypes(norm, r, ms) && m.typ !in r.modules
    ensures HoldsTypes(norm, Registered(norm, r, m), ms + [m])
  {
    hide SortRoutes, Stored, Names;
    var r', ms' := Registered(norm, r, m), ms + [m];
    forall t | t in r'.modules
      ensures exists y :: y in ms' && y.typ == t
    {
      if t in r.modules {
        var y :| y in ms && y.typ == t;
        assert y in ms';
      } else {
        assert m in ms';
      }
    }
    forall y | y in ms'
      ensures y.typ in r'.modules && r'.modules[y.typ] == Stored(norm, y)
    {
      assert y in ms || y == m;
    }
  }

  lemma RegisteredHoldsNames(norm: Norm, r: Reg, ms: seq<Module>, m: Module)
    requires HoldsNames(norm, r, ms) && Names(norm, m) !! r.handlers.Keys
    ensures HoldsNames(norm, Registered(norm, r, m), ms + [m])
  {
    hide SortRoutes, Stored, Names;
    var r', ms' := Registered(norm, r, m), ms + [m];
    forall n | n in r'.handlers
      ensures exists y :: y in ms' && n in Names(norm, y)
    {
      if n in r.handlers {
        var y :| y in ms && n in Names(norm, y);
        assert y in ms';
      } else {
        assert m in ms';
      }
    }
    forall y, n | y in ms' && n in Names(norm, y)
      ensures n in r'.handlers && r'.handlers[n] == y.typ
    {
      assert y in ms || y == m;
    }
  }

  lemma RegisteredHoldsImages(norm: Norm, r: Reg, ms: seq<Module>, m: Module)
    requires HoldsImages(r, ms)
    ensures HoldsImages(Registered(norm, r, m), ms + [m])
  {
    NewRoutes(norm, r, m);
    hide Registered;
    var r', ms' := Registered(norm, r, m), ms + [m];
    forall x | x in r'.imageRoutes
      ensures exists y :: y in ms' && x.prefix in y.prefixes && x.backend == y.typ
    {
      if x in r.imageRoutes {
        var y :| y in ms && x.prefix in y.prefixes && x.backend == y.typ;
        assert y in ms';
      } else {
        assert m in ms';
      }
    }
    forall y, p | y in ms' && p in y.prefixes
      ensures ImageRoute(p, y.typ) in r'.imageRoutes
    {
      assert y in ms || y == m;
    }
  }

  lemma RegisteredHolds(norm: Norm, r: Reg, ms: seq<Module>, m: Module)
    requires HoldsModules(norm, r, ms) && CanRegister(norm, r, m)
    ensures HoldsModules(norm, Registered(norm, r, m), ms + [m])
  {
    hide HoldsTypes, HoldsNames, HoldsImages;
    RegisteredHoldsTypes(norm, r, ms, m);
    RegisteredHoldsNames(norm, r, ms, m);
    RegisteredHoldsImages(norm, r, ms, m);
  }

  /** A registry that holds the modules accepts one more exactly when it stands apart from all. */
  lemma AcceptsApart(norm: Norm, r: Reg, ms: seq<Module>, m: Module)
    requires HoldsModules(norm, r, ms)
    ensures CanRegister(norm, r, m) <==> WellFormed(norm, m) && forall a :: a in ms ==> Apart(norm, a, m)
  {
    hide Stored;
    if CanRegister(norm, r, m) {
      forall a | a in ms
        ensures Apart(norm, a, m)
      {
        forall p | p in a.prefixes
          ensures p !in m.prefixes
        {
          assert ImageRoute(p, a.typ) in r.imageRoutes;
          assert p in Taken(r.imageRoutes);
        }
      }
    }
    if WellFormed(norm, m) && (forall a :: a in ms ==> Apart(norm, a, m)) {
      forall p | p in Taken(r.imageRoutes)
        ensures p !in m.prefixes
      {
        var x :| x in r.imageRoutes && x.prefix == p;
        var a :| a in ms && x.prefix in a.prefixes && x.backend == a.typ;
        assert Apart(norm, a, m) && p in PrefixSet(a);
        assert p in m.prefixes ==> p in PrefixSet(m);
      }
      forall n | n in r.handlers
        ensures n !in Names(norm, m)
      {
        var a :| a in ms && n in Names(norm, a);
        assert Apart(norm, a, m);
      }
    }
  }

  lemma CompatibleAppend(norm: Norm, ms: seq<Module>, m: Module)
    ensures Compatible(norm, multiset(ms + [m])) <==>
            Compatible(norm, multiset(ms)) && WellFormed(norm, m) && forall a :: a in ms ==> Apart(norm, a, m)
  {
    hide Names;
    var bag, bag' := multiset(ms), multiset(ms + [m]);
    assert bag' == bag + multiset{m};
    assert forall a :: a in ms <==> a in bag;
    assert m in bag';
    if Compatible(norm, bag') {
      assert bag'[m] == 1;
      forall a | a in bag
        ensures bag[a] == 1 && WellFormed(norm, a) && Apart(norm, a, m)
      {
        assert a in bag';
      }
      forall a, b | a in bag && b in bag && a != b
        ensures Apart(norm, a, b)
      {
        assert a in bag' && b in bag';
      }
    }
    if Compatible(norm, bag) && WellFormed(norm, m) && (forall a :: a in ms ==> Apart(norm, a, m)) {
      assert !Apart(norm, m, m);
      assert m !in bag;
      forall a, b | a in bag' && b in bag' && a != b
        ensures Apart(norm, a, b)
      {
        assert a in bag || a == m;
        assert b in bag || b == m;
      }
    }
  }

  lemma NewHoldsNothing(norm: Norm)
    ensures HoldsModules(norm, NEW, []) && Compatible(norm, multiset([]))
  {
  }

  /** Registering the list succeeds exactly when its modules can live together. */
  lemma {:induction false} RegistersIffCompatible(norm: Norm, ms: seq<Module>)
    ensures RegisterAll(norm, ms).Some? <==> Compatible(norm, multiset(ms))
    ensures RegisterAll(norm, ms).Some? ==> HoldsModules(norm, RegisterAll(norm, ms).value, ms)
  {
    hide HoldsModules, Compatible, Apart, CanRegister, Registered;
    if ms == [] {
      NewHoldsNothing(norm);
    } else {
      var earlier, m := ms[..|ms| - 1], ms[|ms| - 1];
      RegistersIffCompatible(norm, earlier);
      assert ms == earlier + [m];
      CompatibleAppend(norm, earlier, m);
      if RegisterAll(norm, earlier).Some? {
        var r := RegisterAll(norm, earlier).value;
        AcceptsApart(norm, r, earlier, m);
        if CanRegister(norm, r, m) {
          RegisteredHolds(norm, r, earlier, m);
        }
      }
    }
  }

  // ----- Resolution does not see the order -----

  lemma HandlerExact(norm: Norm, r: Reg, ms: seq<Module>, handler: string, m: Module)
    requires HoldsModules(norm, r, ms) && m in ms
    ensures norm(handler) in Names(norm, m) && norm(handler) != "" ==>
              ResolveHandler(norm, r, handler) == Some(Stored(norm, m))
    ensures norm(handler) == "" || (forall x :: x in ms ==> norm(handler) !in Names(norm, x)) ==>
              ResolveHandler(norm, r, handler) == None
  {
    hide Names, Stored;
  }

  lemma {:induction false} FirstMatchIndex(r: Reg, routes: seq<ImageRoute>, image: string) returns (i: nat)
    requires forall j :: 0 <= j < |routes| ==> routes[j].backend in r.modules
    ensures i <= |routes| && forall j :: 0 <= j < i ==> !(routes[j].prefix <= image)
    ensures i < |routes| ==> routes[i].prefix <= image
    ensures FirstMatch(r, routes, image) == if i < |routes| then Some(r.modules[routes[i].backend]) else None
  {
    if routes == [] || routes[0].prefix <= image {
      i := 0;
    } else {
      i := FirstMatchIndex(r, routes[1..], image);
      i := i + 1;
    }
  }

  lemma FirstMatchIsLongest(r: Reg, routes: seq<ImageRoute>, image: string)
    requires LongestFirst(routes)
    requires forall x :: x in routes ==> x.backend in r.modules
    ensures FirstMatch(r, routes, image).None? ==> forall x :: x in routes ==> !(x.prefix <= image)
    ensures FirstMatch(r, routes, image).Some? ==>
              exists x :: x in routes && x.prefix <= image && FirstMatch(r, routes, image) == Some(r.modules[x.backend])
                          && forall y :: y in routes && y.prefix <= image ==> |y.prefix| <= |x.prefix|
  {
    hide FirstMatch;
    var i := FirstMatchIndex(r, routes, image);
    if i < |routes| {
      forall y | y in routes && y.prefix <= image
        ensures |y.prefix| <= |routes[i].prefix|
      {
        var j :| 0 <= j < |routes| && routes[j] == y;
      }
      assert routes[i] in routes;
    }
  }

  lemma FoundOwnsLongest(norm: Norm, r: Reg, ms: seq<Module>, image: string)
    requires HoldsModules(norm, r, ms)
    ensures var found := FirstMatch(r, r.imageRoutes, image);
            && (found.None? ==> forall m, p :: !OwnsLongest(ms, m, p, image))
            && (found.Some? ==> exists m, p :: OwnsLongest(ms, m, p, image) && found == Some(Stored(norm, m)))
  {
    hide Stored, Names, HoldsNames;
    FirstMatchIsLongest(r, r.imageRoutes, image);
    var found := FirstMatch(r, r.imageRoutes, image);
    if found.Some? {
      var x :| x in r.imageRoutes && x.prefix <= image && found == Some(r.modules[x.backend])
               && forall y :: y in r.imageRoutes && y.prefix <= image ==> |y.prefix| <= |x.prefix|;
      var m :| m in ms && x.prefix in m.prefixes && x.backend == m.typ;
      forall m2, p2 | m2 in ms && p2 in m2.prefixes && p2 <= image
        ensures |p2| <= |x.prefix|
      {
        assert ImageRoute(p2, m2.typ) in r.imageRoutes;
      }
      assert OwnsLongest(ms, m, x.prefix, image);
    } else {
      forall m, p
        ensures !OwnsLongest(ms, m, p, image)
      {
        assert m in ms && p in m.prefixes ==> ImageRoute(p, m.typ) in r.imageRoutes;
      }
    }
  }

  /** An image resolves to the one module that owns its longest registered prefix, and to none
      exactly when no registered prefix matches. */
  lemma ImageExact(norm: Norm, ms: seq<Module>, image: string)
    requires RegisterAll(norm, ms).Some?
    ensures var found := ResolveImage(RegisterAll(norm, ms).value, image);
            && (found.Some? <==> exists m, p :: OwnsLongest(ms, m, p, image))
            && (forall m, p :: OwnsLongest(ms, m, p, image) ==> found == Some(Stored(norm, m)))
  {
    RegistersIffCompatible(norm, ms);
    var r := RegisterAll(norm, ms).value;
    FoundOwnsLongest(norm, r, ms, image);
    hide RegisterAll, Stored, HoldsModules, FirstMatch, Compatible;
    forall m, p, m2, p2 | OwnsLongest(ms, m, p, image) && OwnsLongest(ms, m2, p2, image)
      ensures m == m2
    {
      LongestOwnerUnique(norm, ms, m, p, m2, p2, image);
    }
    if image == "" {
      forall m, p
        ensures !OwnsLongest(ms, m, p, image)
      {
        PrefixesNonEmpty(norm, ms, m, p);
      }
    }
  }

  lemma PrefixesNonEmpty(norm: Norm, ms: seq<Module>, m: Module, p: string)
    requires Compatible(norm, multiset(ms))
    ensures m in ms && p in m.prefixes ==> p != ""
  {
    assert m in ms ==> m in multiset(ms);
  }

  lemma LongestOwnerUnique(norm: Norm, ms: seq<Module>, a: Module, p: string, b: Module, q: string, image: string)
    requires Compatible(norm, multiset(ms))
    requires OwnsLongest(ms, a, p, image) && OwnsLongest(ms, b, q, image)
    ensures a == b && p == q
  {
    assert p == image[..|p|] && q == image[..|q|];
    assert |p| == |q|;
    assert a in multiset(ms) && b in multiset(ms);
    assert p in PrefixSet(a) && q in PrefixSet(b);
    assert a != b ==> Apart(norm, a, b);
  }

  /** A set of modules registers in one order if and only if it registers in every order, and then
      every handler and every image resolves alike. */
  lemma OrderIndependence(norm: Norm, ms: seq<Module>, ms': seq<Module>, handler: string, image: string)
    requires multiset(ms) == multiset(ms')
    ensures RegisterAll(norm, ms).Some? <==> RegisterAll(norm, ms').Some?
    ensures RegisterAll(norm, ms).Some? ==>
              var r, r' := RegisterAll(norm, ms).value, RegisterAll(norm, ms').value;
              && ResolveHandler(norm, r, handler) == ResolveHandler(norm, r', handler)
              && ResolveImage(r, image) == ResolveImage(r', image)
  {
    RegistersIffCompatible(norm, ms);
    RegistersIffCompatible(norm, ms');
    if RegisterAll(norm, ms).Some? {
      SameModules(ms, ms');
      SameHandlers(norm, ms, ms', handler);
      ImageExact(norm, ms, image);
      ImageExact(norm, ms', image);
      assert forall m, p :: OwnsLongest(ms, m, p, image) <==> OwnsLongest(ms', m, p, image);
    }
  }

  lemma SameModules(ms: seq<Module>, ms': seq<Module>)
    requires multiset(ms) == multiset(ms')
    ensures forall m :: m in ms <==> m in ms'
  {
    forall m
      ensures m in ms <==> m in ms'
    {
      assert m in ms <==> m in multiset(ms);
      assert m in ms' <==> m in multiset(ms');
    }
  }

  lemma SameHandlers(norm: Norm, ms: seq<Module>, ms': seq<Module>, handler: string)
    requires RegisterAll(norm, ms).Some? && RegisterAll(norm, ms').Some?
    requires forall m :: m in ms <==> m in ms'
    ensures ResolveHandler(norm, RegisterAll(norm, ms).value, handler)
            == ResolveHandler(norm, RegisterAll(norm, ms').value, handler)
  {
    RegistersIffCompatible(norm, ms);
    RegistersIffCompatible(norm, ms');
    hide RegisterAll, Names, Stored;
    var r, r' := RegisterAll(norm, ms).value, RegisterAll(norm, ms').value;
    if m :| m in ms && norm(handler) in Names(norm, m) {
      HandlerExact(norm, r, ms, handler, m);
      HandlerExact(norm, r', ms', handler, m);
    }
  }

  // ----- The registry object -----

  /** The handler and the aliases, each mapped to the type. */
  ghost function Claim(handler: string, aliases: seq<string>, typ: string): map<string, string> {
    map n | n in [handler] + aliases :: typ
  }

  lemma ClaimStart(handler: string, typ: string)
    ensures Claim(handler, [], typ) == map[handler := typ]
  {
    assert [handler] + [] == [handler];
  }

  lemma ClaimMore(handler: string, aliases: seq<string>, i: nat, typ: string)
    requires i < |aliases|
    ensures Claim(handler, aliases[..i + 1], typ) == Claim(handler, aliases[..i], typ)[aliases[i] := typ]
  {
    assert [handler] + aliases[..i + 1] == [handler] + aliases[..i] + [aliases[i]];
  }

  class BackendRegistry {
    const norm: Norm
    var modules: map<string, Module>
    var handlers: map<string, string>
    var imageRoutes: seq<ImageRoute>
    var frozen: bool
    const defaultType: string

    constructor (norm: Norm, defaultType: string)
      ensures this.norm == norm
      ensures Abs() == NEW.(defaultType := defaultType)
    {
      this.norm := norm;
      this.defaultType := defaultType;
      modules := map[];
      handlers := map[];
      imageRoutes := [];
      frozen := false;
    }

    function Abs(): Reg
      reads this
    {
      Reg(modules, handlers, imageRoutes, defaultType, frozen)
    }

    /** All checks come before the first write, so a rejected module leaves nothing behind. */
    method Register(m: Module) returns (err: bool)
      modifies this
      ensures err <==> !CanRegister(norm, old(Abs()), m)
      ensures err <==> || old(frozen) || m.engineType != Some(m.typ) || m.typ == "" || m.typ in old(modules)
                       || norm(m.handler) == "" || norm(m.handler) in old(handlers)
                       || (exists a :: a in m.aliases && norm(a) != "" && norm(a) in old(handlers))
                       || (exists p :: p in m.prefixes && (p == "" || exists x :: x in old(imageRoutes) && x.prefix == p))
      ensures err ==> Abs() == old(Abs())
      ensures !err ==> Abs() == Registered(norm, old(Abs()), m)
    {
      RejectsExactly(norm, Abs(), m);
      if frozen || m.engineType.None? || m.typ == "" || norm(m.handler) == ""
         || m.engineType.value != m.typ || m.typ in modules {
        return true;
      }
      var handler := norm(m.handler);
      if handler in handlers {
        return true;
      }
      var aliases: seq<string>;
      err, aliases := CheckAliases(m, handler);
      if err {
        return true;
      }
      var prefixes: seq<string>;
      err, prefixes := CheckPrefixes(m);
      if err {
        return true;
      }
      Commit(m, handler, aliases, prefixes);
    }

    method Commit(m: Module, handler: string, aliases: seq<string>, prefixes: seq<string>)
      requires handler == norm(m.handler)
      requires aliases == KeptAliases(norm, handler, m.aliases) && prefixes == KeptPrefixes(m.prefixes)
      modifies this
      ensures Abs() == Registered(norm, old(Abs()), m)
    {
      hide SortRoutes, KeptAliases, KeptPrefixes;
      var stored := m.(handler := handler, aliases := aliases, prefixes := prefixes);
      modules := modules[m.typ := stored];
      AddHandlers(handler, aliases, m.typ);
      KeptAliasesSame(norm, handler, m.aliases);
      assert Claim(handler, aliases, m.typ) == map n | n in Names(norm, m) :: m.typ;
      var added: seq<ImageRoute> := [];
      for i := 0 to |prefixes|
        invariant added == RoutesFor(stored)[..i]
      {
        added := added + [ImageRoute(prefixes[i], m.typ)];
      }
      assert added == RoutesFor(stored);
      imageRoutes := SortRoutes(imageRoutes + added);
    }

    method AddHandlers(handler: string, aliases: seq<string>, typ: string)
      modifies this`handlers
      ensures handlers == old(handlers) + Claim(handler, aliases, typ)
    {
      hide Claim;
      ClaimStart(handler, typ);
      ghost var before := handlers;
      handlers := handlers[handler := typ];
      assert aliases[..0] == [];
      assert before[handler := typ] == before + map[handler := typ];
      for i := 0 to |aliases|
        invariant handlers == before + Claim(handler, aliases[..i], typ)
      {
        ClaimMore(handler, aliases, i, typ);
        ghost var claim := Claim(handler, aliases[..i], typ);
        assert (before + claim)[aliases[i] := typ] == before + claim[aliases[i] := typ];
        handlers := handlers[aliases[i] := typ];
      }
      assert aliases[..|aliases|] == aliases;
    }

    method CheckAliases(m: Module, handler: string) returns (err: bool, aliases: seq<string>)
      requires handler == norm(m.handler) && handler !in handlers
      ensures err <==> !(Names(norm, m) !! handlers.Keys)
      ensures !err ==> aliases == KeptAliases(norm, handler, m.aliases)
    {
      aliases := [];
      for i := 0 to |m.aliases|
        invariant aliases == KeptAliases(norm, handler, m.aliases[..i])
        invariant forall a :: a in aliases ==> a !in handlers
        invariant forall j :: 0 <= j < i && norm(m.aliases[j]) != "" ==> norm(m.aliases[j]) !in handlers
      {
        assert m.aliases[..i + 1][..i] == m.aliases[..i];
        var alias := norm(m.aliases[i]);
        if alias == "" || alias == handler || alias in aliases {
          continue;
        }
        if alias in handlers {
          assert alias in Names(norm, m);
          return true, [];
        }
        aliases := aliases + [alias];
      }
      assert m.aliases[..|m.aliases|] == m.aliases;
      err := false;
    }

    method CheckPrefixes(m: Module) returns (err: bool, prefixes: seq<string>)
      ensures err <==> "" in m.prefixes || !(PrefixSet(m) !! Taken(imageRoutes))
      ensures !err ==> prefixes == KeptPrefixes(m.prefixes)
    {
      prefixes := [];
      for i := 0 to |m.prefixes|
        invariant prefixes == KeptPrefixes(m.prefixes[..i])
        invariant forall p :: p in prefixes ==> p != "" && p !in Taken(imageRoutes)
        invariant forall j :: 0 <= j < i ==> m.prefixes[j] != "" && m.prefixes[j] !in Taken(imageRoutes)
      {
        assert m.prefixes[..i + 1][..i] == m.prefixes[..i];
        var prefix := m.prefixes[i];
        if prefix == "" {
          return true, [];
        }
        if prefix in prefixes {
          continue;
        }
        for j := 0 to |imageRoutes|
          invariant forall k :: 0 <= k < j ==> imageRoutes[k].prefix != prefix
        {
          if imageRoutes[j].prefix == prefix {
            assert imageRoutes[j] in imageRoutes;
            assert prefix in Taken(imageRoutes) && prefix in PrefixSet(m);
            return true, [];
          }
        }
        prefixes := prefixes + [prefix];
      }
      assert m.prefixes[..|m.prefixes|] == m.prefixes;
      err := false;
    }

    /** Refuses when a default is required and missing; freezing again is harmless. */
    method Freeze() returns (err: bool)
      modifies this
      ensures err <==> !old(frozen) && defaultType != "" && defaultType !in modules
      ensures Abs() == old(Abs()).(frozen := old(frozen) || !err)
    {
      if frozen {
        return false;
      }
      if defaultType != "" && defaultType !in modules {
        return true;
      }
      frozen := true;
      err := false;
    }

    method ResolveImageRoute(image: string) returns (found: Option<Module>)
      ensures found == ResolveImage(Abs(), image)
    {
      if image == "" {
        return None;
      }
      for i := 0 to |imageRoutes|
        invariant FirstMatch(Abs(), imageRoutes, image) == FirstMatch(Abs(), imageRoutes[i..], image)
      {
        assert imageRoutes[i..][1..] == imageRoutes[i + 1..];
        if imageRoutes[i].prefix <= image && imageRoutes[i].backend in modules {
          return Some(modules[imageRoutes[i].backend]);
        }
      }
      found := None;
    }
  }
}
