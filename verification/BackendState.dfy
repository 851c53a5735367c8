/** The backend key/value layer against its meaning: a two-level map from sections to children,
    where a read returns what the last call that touched the path left there. */
module BackendState {
  import opened Options
  import opened PersistedState
  import opened StateStore

  type Section = map<string, Json>

  /** All sections hold JSON objects, as the backends write them. */
  predicate ObjectSections(s: State) {
    forall k :: k in s.sections ==> s.sections[k].JObj?
  }

  function View(s: State): map<string, Section>
    requires ObjectSections(s)
  {
    map k | k in s.sections :: s.sections[k].fields
  }

  /** Saving a whole section must keep it an object; nothing else is asked of a call. */
  predicate ObjectOp(op: Op) {
    op.SaveBackend? && SplitPath(op.path).Some? && SplitPath(op.path).value.Section? ==> op.value.JObj?
  }

  function ChildrenOf(m: map<string, Section>, sec: string): Section {
    if sec in m then m[sec] else map[]
  }

  /** The two-level map, with a section disappearing when its last child is deleted. */
  function MapAfter(m: map<string, Section>, op: Op): map<string, Section>
    requires ObjectOp(op)
  {
    match op
    case SaveBackend(path, value) => (
      match SplitPath(path)
      case None => m
      case Some(Section(sec)) => m[sec := value.fields]
      case Some(Child(sec, key)) => m[sec := ChildrenOf(m, sec)[key := value]])
    case DeleteBackend(path) => (
      match SplitPath(path)
      case None => m
      case Some(Section(sec)) => m - {sec}
      case Some(Child(sec, key)) =>
        var rest := ChildrenOf(m, sec) - {key};
        if key !in ChildrenOf(m, sec) then m
        else if rest == map[] then m - {sec}
        else m[sec := rest])
    case _ => m
  }

  function MapLoad(m: map<string, Section>, path: string): LoadResult {
    match SplitPath(path)
    case None => Failed
    case Some(Section(sec)) => if sec in m then Found(JObj(m[sec])) else Missing
    case Some(Child(sec, key)) => if key in ChildrenOf(m, sec) then Found(ChildrenOf(m, sec)[key]) else Missing
  }

  lemma SaveRefinesMap(s: State, path: string, value: Json)
    requires ObjectSections(s) && ObjectOp(SaveBackend(path, value))
    ensures var e := SaveBackendEffect(s, path, value);
            && (e == Return(true, s) <==> SplitPath(path).None?)
            && (SplitPath(path).Some? ==>
                  && e.Flush? && e.state.routes == s.routes && e.state.cleanupTasks == s.cleanupTasks
                  && ObjectSections(e.state)
                  && View(e.state) == MapAfter(View(s), SaveBackend(path, value)))
  {
    hide SplitPath;
  }

  lemma DeleteRefinesMap(s: State, path: string)
    requires ObjectSections(s)
    ensures var e := DeleteBackendEffect(s, path);
            && !e.Panic?
            && (e.Return? && e.error <==> SplitPath(path).None?)
            && (e.Return? ==> e.state == s)
            && e.state.routes == s.routes && e.state.cleanupTasks == s.cleanupTasks
            && ObjectSections(e.state)
            && View(e.state) == MapAfter(View(s), DeleteBackend(path))
  {
    hide SplitPath;
  }

  lemma LoadRefinesMap(s: State, path: string)
    requires ObjectSections(s)
    ensures LoadBackend(s, path) == MapLoad(View(s), path)
  {
  }

  /** One call refines the two-level map, leaves routes and tasks alone, rejects exactly the
      malformed paths, and changes nothing when it rejects. */
  lemma StepRefinesMap(s: State, op: Op)
    requires ObjectSections(s) && ObjectOp(op)
    ensures ObjectSections(After(s, op)) && View(After(s, op)) == MapAfter(View(s), op)
    ensures op.SaveBackend? || op.DeleteBackend? ==>
              && After(s, op).routes == s.routes && After(s, op).cleanupTasks == s.cleanupTasks
              && !Step(s, op).Panic?
              && (Step(s, op).Return? && Step(s, op).error <==> SplitPath(op.path).None?)
              && (SplitPath(op.path).None? ==> After(s, op) == s)
  {
    hide SplitPath, SaveBackendEffect, DeleteBackendEffect;
    match op
    case SaveBackend(path, value) => SaveRefinesMap(s, path, value);
    case DeleteBackend(path) => DeleteRefinesMap(s, path);
    case _ => assert After(s, op).sections == s.sections;
  }

  // ----- Whole histories -----

  predicate ObjectHistory(ops: seq<Op>) {
    forall i :: 0 <= i < |ops| ==> ObjectOp(ops[i])
  }

  function Lookup(m: map<string, Section>, sec: string, key: string): Option<Json> {
    if key in ChildrenOf(m, sec) then Some(ChildrenOf(m, sec)[key]) else None
  }

  /** What a reader of one child should find: the effect of the last call that names the child
      or its whole section, looking back through the history. */
  function LastWrite(initial: map<string, Section>, ops: seq<Op>, sec: string, key: string): Option<Json>
    requires ObjectHistory(ops)
  {
    if ops == [] then Lookup(initial, sec, key) else
    var earlier := ops[..|ops| - 1];
    match ops[|ops| - 1]
    case SaveBackend(path, value) =>
      if SplitPath(path) == Some(Child(sec, key)) then Some(value)
      else if SplitPath(path) == Some(Path.Section(sec)) then
        (if key in value.fields then Some(value.fields[key]) else None)
      else LastWrite(initial, earlier, sec, key)
    case DeleteBackend(path) =>
      if SplitPath(path) == Some(Child(sec, key)) || SplitPath(path) == Some(Path.Section(sec)) then None
      else LastWrite(initial, earlier, sec, key)
    case _ => LastWrite(initial, earlier, sec, key)
  }

  lemma {:induction false} HistoryRefinesMap(s: State, ops: seq<Op>)
    requires ObjectSections(s) && ObjectHistory(ops)
    ensures ObjectSections(Fold(s, ops))
  {
    if ops != [] {
      HistoryRefinesMap(s, ops[..|ops| - 1]);
      StepRefinesMap(Fold(s, ops[..|ops| - 1]), ops[|ops| - 1]);
    }
  }

  /** One call changes one child exactly as the look-back says. */
  lemma StepLookup(m: map<string, Section>, op: Op, sec: string, key: string)
    requires ObjectOp(op)
    ensures LastWrite(m, [op], sec, key) == Lookup(MapAfter(m, op), sec, key)
  {
    assert [op][..0] == [];
  }

  /** After any history of saves and deletes on one- and two-segment paths, mixed with any other
      calls, reading a child gives the last write to it. */
  lemma {:induction false} ReadsLastWrite(s: State, ops: seq<Op>, sec: string, key: string)
    requires ObjectSections(s) && ObjectHistory(ops)
    requires ValidPath(Child(sec, key))
    ensures LoadBackend(Fold(s, ops), sec + "." + key) ==
            (match LastWrite(View(s), ops, sec, key) case Some(v) => Found(v) case None => Missing)
  {
    HistoryRefinesMap(s, ops);
    SplitPathExact(sec + "." + key, Child(sec, key));
    LookupIsLastWrite(s, ops, sec, key);
    LoadRefinesMap(Fold(s, ops), sec + "." + key);
  }

  lemma {:induction false} LookupIsLastWrite(s: State, ops: seq<Op>, sec: string, key: string)
    requires ObjectSections(s) && ObjectHistory(ops)
    ensures ObjectSections(Fold(s, ops)) && Lookup(View(Fold(s, ops)), sec, key) == LastWrite(View(s), ops, sec, key)
  {
    HistoryRefinesMap(s, ops);
    if ops != [] {
      var earlier, op := ops[..|ops| - 1], ops[|ops| - 1];
      LookupIsLastWrite(s, earlier, sec, key);
      StepRefinesMap(Fold(s, earlier), op);
      StepLookup(View(Fold(s, earlier)), op, sec, key);
      assert [op][..0] == [];
    }
  }

  /** Deleting a child drops its section exactly when the section has no other child. */
  lemma DeletingLastChildDropsSection(s: State, sec: string, key: string)
    requires ObjectSections(s) && ValidPath(Child(sec, key))
    requires sec in s.sections && key in s.sections[sec].fields
    ensures LoadBackend(After(s, DeleteBackend(sec + "." + key)), sec) == Missing
            <==> s.sections[sec].fields.Keys == {key}
  {
    SplitPathExact(sec + "." + key, Child(sec, key));
    SplitPathExact(sec, Path.Section(sec));
    var rest := s.sections[sec].fields - {key};
    assert rest.Keys == s.sections[sec].fields.Keys - {key};
    assert rest == map[] <==> rest.Keys == {};
  }

  /** Without the object restriction: a save under a section fails exactly when the section
      holds a non-object, and panics exactly when it holds null, which a caller can put there. */
  lemma SaveUnderNonObject(s: State, sec: string, key: string, value: Json)
    requires ValidPath(Child(sec, key))
    ensures var e := Step(s, SaveBackend(sec + "." + key, value));
            && (e.Panic? <==> sec in s.sections && s.sections[sec].JNull?)
            && (e.Return? <==> sec in s.sections && !s.sections[sec].JNull? && !s.sections[sec].JObj?)
    ensures Step(After(s, SaveBackend(sec, JNull)), SaveBackend(sec + "." + key, value)).Panic?
  {
    SplitPathExact(sec + "." + key, Child(sec, key));
    SplitPathExact(sec, Path.Section(sec));
  }

  /** A call waits for a write exactly when it has something to write: a save on a well-formed path,
      a delete of a section or child that is there. */
  lemma FlushesIff(s: State, op: Op)
    requires ObjectSections(s)
    ensures op.SaveBackend? ==> (Step(s, op).Flush? <==> SplitPath(op.path).Some?)
    ensures op.DeleteBackend? ==>
              (Step(s, op).Flush? <==>
                 match SplitPath(op.path)
                 case None => false
                 case Some(Section(sec)) => sec in s.sections
                 case Some(Child(sec, key)) => key in ChildrenOf(View(s), sec))
  {
    hide SplitPath;
  }

  /** Reading or deleting below a section that is not an object: nothing is there if it is null,
      and it is an error if it is anything else; nothing changes either way. */
  lemma UnderNonObject(s: State, sec: string, key: string)
    requires ValidPath(Child(sec, key)) && sec in s.sections && !s.sections[sec].JObj?
    ensures LoadBackend(s, sec + "." + key) == if s.sections[sec].JNull? then Missing else Failed
    ensures Step(s, DeleteBackend(sec + "." + key)) == Return(!s.sections[sec].JNull?, s)
    ensures LoadBackend(s, sec) == Found(s.sections[sec])
  {
    SplitPathExact(sec + "." + key, Child(sec, key));
    SplitPathExact(sec, Path.Section(sec));
  }
}
