/** The node-local state store, one call at a time: what each call does to the in-memory state,
    whether it then waits for a flush, and the key/value layer the backends use on top of it. */
module StateStore {
  import opened Options
  import opened PersistedState

  // ----- Record lists -----

  predicate SameRoute(a: RouteRecord, kind: string, id: string) {
    a.kind == kind && a.id == id
  }

  predicate HasRoute(records: seq<RouteRecord>, kind: string, id: string) {
    exists i :: 0 <= i < |records| && SameRoute(records[i], kind, id)
  }

  function ReplaceRoutes(records: seq<RouteRecord>, r: RouteRecord): seq<RouteRecord> {
    seq(|records|, i requires 0 <= i < |records| => if SameRoute(records[i], r.kind, r.id) then r else records[i])
  }

  /** Every record with the key of r becomes r, in place; without one, r goes to the end. */
  function UpsertRoute(records: seq<RouteRecord>, r: RouteRecord): seq<RouteRecord> {
    if HasRoute(records, r.kind, r.id) then ReplaceRoutes(records, r) else records + [r]
  }

  function DropRoutes(records: seq<RouteRecord>, kind: string, id: string): seq<RouteRecord> {
    if records == [] then [] else
    var rest := DropRoutes(records[..|records| - 1], kind, id);
    var last := records[|records| - 1];
    if SameRoute(last, kind, id) then rest else rest + [last]
  }

  predicate HasTask(tasks: seq<CleanupTask>, id: string) {
    exists i :: 0 <= i < |tasks| && tasks[i].id == id
  }

  function ReplaceTasks(tasks: seq<CleanupTask>, t: CleanupTask): seq<CleanupTask> {
    seq(|tasks|, i requires 0 <= i < |tasks| => if tasks[i].id == t.id then t else tasks[i])
  }

  function UpsertTask(tasks: seq<CleanupTask>, t: CleanupTask): seq<CleanupTask> {
    if HasTask(tasks, t.id) then ReplaceTasks(tasks, t) else tasks + [t]
  }

  function DropTasks(tasks: seq<CleanupTask>, id: string): seq<CleanupTask> {
    if tasks == [] then [] else
    var rest := DropTasks(tasks[..|tasks| - 1], id);
    var last := tasks[|tasks| - 1];
    if last.id == id then rest else rest + [last]
  }

  method UpsertRouteRecord(records: seq<RouteRecord>, r: RouteRecord) returns (out: seq<RouteRecord>)
    ensures out == UpsertRoute(records, r)
  {
    out := [];
    var replaced := false;
    for i := 0 to |records|
      invariant out == ReplaceRoutes(records[..i], r)
      invariant replaced <==> HasRoute(records[..i], r.kind, r.id)
    {
      assert records[..i + 1] == records[..i] + [records[i]];
      if records[i].kind == r.kind && records[i].id == r.id {
        out := out + [r];
        replaced := true;
        assert SameRoute(records[..i + 1][i], r.kind, r.id);
      } else {
        out := out + [records[i]];
        if replaced {
          var j :| 0 <= j < i && SameRoute(records[..i][j], r.kind, r.id);
          assert SameRoute(records[..i + 1][j], r.kind, r.id);
        }
      }
    }
    assert records[..|records|] == records;
    if !replaced {
      assert out == records;
      out := out + [r];
    }
  }

  method DeleteRouteRecord(records: seq<RouteRecord>, kind: string, id: string) returns (out: seq<RouteRecord>)
    ensures out == DropRoutes(records, kind, id)
  {
    out := [];
    for i := 0 to |records|
      invariant out == DropRoutes(records[..i], kind, id)
    {
      assert records[..i + 1][..i] == records[..i];
      if !(records[i].kind == kind && records[i].id == id) {
        out := out + [records[i]];
      }
    }
    assert records[..|records|] == records;
  }

  /** The creation time a replacement carries: its own, or else the first one found on a record it
      has replaced. */
  function CarriedTime(tasks: seq<CleanupTask>, t: CleanupTask): Time {
    if tasks == [] then t.createdAt else
    var earlier, last := CarriedTime(tasks[..|tasks| - 1], t), tasks[|tasks| - 1];
    if earlier == 0 && last.id == t.id then last.createdAt else earlier
  }

  function FillTasks(tasks: seq<CleanupTask>, t: CleanupTask): seq<CleanupTask> {
    if tasks == [] then [] else
    var last := tasks[|tasks| - 1];
    FillTasks(tasks[..|tasks| - 1], t) + [if last.id == t.id then t.(createdAt := CarriedTime(tasks, t)) else last]
  }

  /** A task that brings its creation time simply replaces the records of its ID. */
  lemma {:induction false} StampedFill(tasks: seq<CleanupTask>, t: CleanupTask)
    requires t.createdAt != 0
    ensures CarriedTime(tasks, t) == t.createdAt && FillTasks(tasks, t) == ReplaceTasks(tasks, t)
  {
    if tasks != [] {
      StampedFill(tasks[..|tasks| - 1], t);
      assert ReplaceTasks(tasks, t)[..|tasks| - 1] == ReplaceTasks(tasks[..|tasks| - 1], t);
    }
  }

  lemma FillMore(tasks: seq<CleanupTask>, i: nat, t: CleanupTask)
    requires i < |tasks|
    ensures var earlier, same := CarriedTime(tasks[..i], t), tasks[i].id == t.id;
            var carried := if earlier == 0 && same then tasks[i].createdAt else earlier;
            && CarriedTime(tasks[..i + 1], t) == carried
            && FillTasks(tasks[..i + 1], t) ==
                 FillTasks(tasks[..i], t) + [if same then t.(createdAt := carried) else tasks[i]]
  {
    assert tasks[..i + 1][..i] == tasks[..i];
  }

  lemma HasMore(tasks: seq<CleanupTask>, i: nat, id: string)
    requires i < |tasks|
    ensures HasTask(tasks[..i + 1], id) <==> HasTask(tasks[..i], id) || tasks[i].id == id
  {
    if HasTask(tasks[..i], id) {
      var j :| 0 <= j < i && tasks[..i][j].id == id;
      assert tasks[..i + 1][j].id == id;
    }
    if tasks[i].id == id {
      assert tasks[..i + 1][i].id == id;
    }
  }

  lemma NoneYet(tasks: seq<CleanupTask>, t: CleanupTask)
    ensures tasks[..0] == [] && FillTasks([], t) == [] && CarriedTime([], t) == t.createdAt && !HasTask([], t.id)
  {
  }

  method UpsertCleanupTask(tasks: seq<CleanupTask>, task: CleanupTask) returns (out: seq<CleanupTask>)
    ensures out == if HasTask(tasks, task.id) then FillTasks(tasks, task) else tasks + [task]
    ensures task.createdAt != 0 ==> out == UpsertTask(tasks, task)
  {
    hide FillTasks, CarriedTime, HasTask, ReplaceTasks;
    NoneYet(tasks, task);
    out := [];
    var replaced, next := false, task;
    for i := 0 to |tasks|
      invariant out == FillTasks(tasks[..i], task)
      invariant next == task.(createdAt := CarriedTime(tasks[..i], task))
      invariant replaced <==> HasTask(tasks[..i], task.id)
      invariant !replaced ==> out == tasks[..i] && next == task
    {
      FillMore(tasks, i, task);
      HasMore(tasks, i, task.id);
      assert tasks[..i + 1] == tasks[..i] + [tasks[i]];
      if tasks[i].id == task.id {
        if next.createdAt == 0 {
          next := next.(createdAt := tasks[i].createdAt);
        }
        out := out + [next];
        replaced := true;
      } else {
        out := out + [tasks[i]];
      }
    }
    assert tasks[..|tasks|] == tasks;
    if !replaced {
      out := out + [next];
    }
    if task.createdAt != 0 {
      StampedFill(tasks, task);
    }
  }

  method DeleteTaskRecord(tasks: seq<CleanupTask>, id: string) returns (out: seq<CleanupTask>)
    ensures out == DropTasks(tasks, id)
  {
    out := [];
    for i := 0 to |tasks|
      invariant out == DropTasks(tasks[..i], id)
    {
      assert tasks[..i + 1][..i] == tasks[..i];
      if tasks[i].id != id {
        out := out + [tasks[i]];
      }
    }
    assert tasks[..|tasks|] == tasks;
  }

  /** Saving a record replaces those of its key where they stand, or goes to the end. */
  lemma UpsertInPlace(records: seq<RouteRecord>, r: RouteRecord, tasks: seq<CleanupTask>, t: CleanupTask)
    ensures var out := UpsertRoute(records, r);
            && (forall i :: 0 <= i < |records| ==>
                  out[i] == if records[i].kind == r.kind && records[i].id == r.id then r else records[i])
            && (if exists i :: 0 <= i < |records| && records[i].kind == r.kind && records[i].id == r.id
                then |out| == |records| else out == records + [r])
    ensures var out := UpsertTask(tasks, t);
            && (forall i :: 0 <= i < |tasks| ==> out[i] == if tasks[i].id == t.id then t else tasks[i])
            && (if exists i :: 0 <= i < |tasks| && tasks[i].id == t.id then |out| == |tasks| else out == tasks + [t])
  {
    assert (exists i :: 0 <= i < |records| && records[i].kind == r.kind && records[i].id == r.id) <==> HasRoute(records, r.kind, r.id) by {
      if exists i :: 0 <= i < |records| && records[i].kind == r.kind && records[i].id == r.id {
        var i :| 0 <= i < |records| && records[i].kind == r.kind && records[i].id == r.id;
        assert SameRoute(records[i], r.kind, r.id);
      }
    }
  }

  lemma DropOneMore(tasks: seq<CleanupTask>, t: CleanupTask, id: string)
    ensures DropTasks(tasks + [t], id) == DropTasks(tasks, id) + if t.id == id then [] else [t]
  {
    assert (tasks + [t])[..|tasks|] == tasks;
  }

  /** Deleting goes through a list from end to end and keeps what is left in order. */
  lemma {:induction false} DropInOrder(a: seq<CleanupTask>, b: seq<CleanupTask>, t: CleanupTask, id: string)
    ensures DropTasks(a + b, id) == DropTasks(a, id) + DropTasks(b, id)
    ensures DropTasks([t], id) == if t.id == id then [] else [t]
    decreases |b|
  {
    assert [t][..0] == [];
    if b == [] {
      assert a + b == a;
    } else {
      hide DropTasks;
      var front, last := b[..|b| - 1], b[|b| - 1];
      DropInOrder(a, front, t, id);
      DropOneMore(a + front, last, id);
      DropOneMore(front, last, id);
      assert a + b == (a + front) + [last] && b == front + [last];
    }
  }

  // ----- Backend-state paths -----

  datatype Path = Section(section: string) | Child(section: string, key: string)

  /** strings.Split(path, ".") */
  function Split(path: string): (parts: seq<string>)
    ensures |parts| >= 1
  {
    if path == "" then [""] else
    var rest := Split(path[1..]);
    if path[0] == '.' then [""] + rest else [[path[0]] + rest[0]] + rest[1..]
  }

  function SplitPath(path: string): Option<Path> {
    var parts := Split(path);
    if |parts| == 1 then
      if parts[0] == "" || parts[0] in RESERVED then None else Some(Section(parts[0]))
    else if |parts| == 2 then
      if parts[0] == "" || parts[1] == "" || parts[0] in RESERVED then None else Some(Child(parts[0], parts[1]))
    else None
  }

  /** The text a split path came from. */
  function PathText(p: Path): string {
    match p
    case Section(s) => s
    case Child(s, k) => s + "." + k
  }

  predicate ValidPath(p: Path) {
    && p.section != "" && '.' !in p.section && p.section !in RESERVED
    && (p.Child? ==> p.key != "" && '.' !in p.key)
  }

  lemma {:induction false} SplitPlain(s: string)
    ensures '.' !in s ==> Split(s) == [s]
  {
    if s != "" {
      SplitPlain(s[1..]);
      assert s == [s[0]] + s[1..];
    }
  }

  lemma {:induction false} SplitDotted(s: string, k: string)
    requires '.' !in s
    ensures Split(s + "." + k) == [s] + Split(k)
  {
    var path := s + "." + k;
    if s == "" {
      assert path[1..] == k;
    } else {
      assert path[1..] == s[1..] + "." + k;
      SplitDotted(s[1..], k);
      assert s == [s[0]] + s[1..];
    }
  }

  lemma {:induction false} SplitParts(path: string)
    ensures forall i :: 0 <= i < |Split(path)| ==> '.' !in Split(path)[i]
    ensures |Split(path)| == 1 ==> path == Split(path)[0]
    ensures |Split(path)| == 2 ==> path == Split(path)[0] + "." + Split(path)[1]
  {
    if path != "" {
      SplitParts(path[1..]);
      var rest := Split(path[1..]);
      assert path == [path[0]] + path[1..];
    }
  }

  /** A path is accepted exactly when it is the text of one or two non-empty dot-free segments
      whose first is not reserved, and those segments are what comes back. */
  lemma SplitPathExact(path: string, p: Path)
    ensures SplitPath(path) == Some(p) <==> ValidPath(p) && path == PathText(p)
  {
    SplitParts(path);
    if ValidPath(p) && path == PathText(p) {
      match p
      case Section(s) => SplitPlain(s);
      case Child(s, k) =>
        SplitDotted(s, k);
        SplitPlain(k);
    }
  }

  // ----- What each call does -----

  datatype Op =
    | SaveRoute(route: RouteRecord, now: Time)
    | DeleteRoute(kind: string, routeID: string)
    | SaveTask(task: CleanupTask, now: Time)
    | DeleteTask(taskID: string)
    | SaveBackend(path: string, value: Json)
    | DeleteBackend(path: string)

  /** A call either mutates the state and waits for a flush, or returns at once, or panics on
      an assignment into the nil map that decoding a JSON null leaves behind. */
  datatype Effect = Flush(state: State) | Return(error: bool, state: State) | Panic

  /** The task as SaveCleanupTask stamps it. */
  function Stamp(task: CleanupTask, now: Time): CleanupTask {
    task.(createdAt := if task.createdAt == 0 then now else task.createdAt, updatedAt := now)
  }

  function SaveBackendEffect(s: State, path: string, value: Json): Effect {
    match SplitPath(path)
    case None => Return(true, s)
    case Some(Section(sec)) => Flush(s.(version := 1, sections := s.sections[sec := value]))
    case Some(Child(sec, key)) =>
      if sec !in s.sections then Flush(s.(version := 1, sections := s.sections[sec := JObj(map[key := value])]))
      else match s.sections[sec]
        case JObj(f) => Flush(s.(version := 1, sections := s.sections[sec := JObj(f[key := value])]))
        case JNull => Panic
        case _ => Return(true, s.(version := 1))
  }

  function DeleteBackendEffect(s: State, path: string): Effect {
    match SplitPath(path)
    case None => Return(true, s)
    case Some(Section(sec)) =>
      if sec !in s.sections then Return(false, s) else Flush(s.(sections := s.sections - {sec}))
    case Some(Child(sec, key)) =>
      if sec !in s.sections then Return(false, s)
      else match s.sections[sec]
        case JObj(f) =>
          if key !in f then Return(false, s)
          else if f - {key} == map[] then Flush(s.(sections := s.sections - {sec}))
          else Flush(s.(sections := s.sections[sec := JObj(f - {key})]))
        case JNull => Return(false, s)
        case _ => Return(true, s)
  }

  function Step(s: State, op: Op): Effect {
    match op
    case SaveRoute(r, now) => Flush(s.(version := 1, routes := UpsertRoute(s.routes, r.(updatedAt := now))))
    case DeleteRoute(kind, id) => Flush(s.(version := 1, routes := DropRoutes(s.routes, kind, id)))
    case SaveTask(t, now) =>
      if t.id == "" then Return(false, s)
      else Flush(s.(cleanupTasks := UpsertTask(s.cleanupTasks, Stamp(t, now))))
    case DeleteTask(id) =>
      if id == "" then Return(false, s) else Flush(s.(cleanupTasks := DropTasks(s.cleanupTasks, id)))
    case SaveBackend(path, value) => SaveBackendEffect(s, path, value)
    case DeleteBackend(path) => DeleteBackendEffect(s, path)
  }

  function After(s: State, op: Op): State {
    match Step(s, op)
    case Flush(t) => t
    case Return(_, t) => t
    case Panic => s
  }

  /** The state that a list of calls, in lock order, leaves in memory. */
  function Fold(base: State, log: seq<Op>): State {
    if log == [] then base else After(Fold(base, log[..|log| - 1]), log[|log| - 1])
  }

  datatype LoadResult = Found(json: Json) | Missing | Failed

  function LoadBackend(s: State, path: string): LoadResult {
    match SplitPath(path)
    case None => Failed
    case Some(Section(sec)) => if sec in s.sections then Found(s.sections[sec]) else Missing
    case Some(Child(sec, key)) =>
      if sec !in s.sections then Missing
      else match s.sections[sec]
        case JObj(f) => if key in f then Found(f[key]) else Missing
        case JNull => Missing
        case _ => Failed
  }

  // ----- What every call keeps -----

  /** The version field is forced to 1 by every snapshot, so states are compared up to it. */
  function Norm(s: State): State {
    s.(version := 1)
  }

  predicate SameUpToVersion(a: State, b: State) {
    Norm(a) == Norm(b)
  }

  lemma StepKeepsNoReserved(s: State, op: Op)
    requires NoReserved(s)
    ensures NoReserved(After(s, op))
  {
    if op.SaveBackend? {
      SplitParts(op.path);
    }
  }

  lemma StepIgnoresVersion(s: State, t: State, op: Op)
    requires SameUpToVersion(s, t)
    ensures Step(s, op).Flush? <==> Step(t, op).Flush?
    ensures Step(s, op).Panic? <==> Step(t, op).Panic?
    ensures SameUpToVersion(After(s, op), After(t, op))
  {
    assert s.routes == t.routes && s.cleanupTasks == t.cleanupTasks && s.sections == t.sections;
  }

  /** A call that does not wait for a flush has changed nothing but the version field. */
  lemma ReturnKeepsState(s: State, op: Op)
    requires Step(s, op).Return?
    ensures SameUpToVersion(After(s, op), s)
  {
  }

  lemma FoldAppend(base: State, log: seq<Op>, op: Op)
    ensures Fold(base, log + [op]) == After(Fold(base, log), op)
  {
    assert (log + [op])[..|log|] == log;
  }

  lemma {:induction false} FoldKeepsNoReserved(base: State, log: seq<Op>)
    requires NoReserved(base)
    ensures NoReserved(Fold(base, log))
  {
    if log != [] {
      FoldKeepsNoReserved(base, log[..|log| - 1]);
      StepKeepsNoReserved(Fold(base, log[..|log| - 1]), log[|log| - 1]);
    }
  }

  /** In every state reachable from a loaded file no section uses a reserved key, so the next
      load of a written snapshot gives the state back. */
  lemma ReachableStateRoundTrips(disk: Option<Json>, log: seq<Op>)
    ensures var s := Norm(Fold(Load(disk), log)); NoReserved(s) && Load(Some(Marshal(s))) == s
  {
    FoldKeepsNoReserved(Load(disk), log);
    MarshalRoundTrip(Norm(Fold(Load(disk), log)));
  }

  // ----- The store object, one call at a time -----

  datatype Outcome = Ok | Err | Panicked

  /** flushOk is the outcome of the snapshot write that covers the call. */
  class JSONStateStore {
    var state: State

    constructor (disk: Option<Json>)
      ensures state == Load(disk)
    {
      state := Load(disk);
    }

    method SaveRoute(r: RouteRecord, now: Time, flushOk: bool) returns (err: bool)
      modifies this
      ensures Step(old(state), Op.SaveRoute(r, now)) == Flush(state)
      ensures state == old(state).(version := 1, routes := UpsertRoute(old(state.routes), r.(updatedAt := now)))
      ensures err == !flushOk
    {
      var routes := UpsertRouteRecord(state.routes, r.(updatedAt := now));
      state := state.(version := 1, routes := routes);
      err := !flushOk;
    }

    method DeleteRoute(kind: string, id: string, flushOk: bool) returns (err: bool)
      modifies this
      ensures Step(old(state), Op.DeleteRoute(kind, id)) == Flush(state)
      ensures state == old(state).(version := 1, routes := DropRoutes(old(state.routes), kind, id))
      ensures err == !flushOk
    {
      var routes := DeleteRouteRecord(state.routes, kind, id);
      state := state.(version := 1, routes := routes);
      err := !flushOk;
    }

    method SaveCleanupTask(task: CleanupTask, now: Time, flushOk: bool) returns (err: bool)
      requires now != 0
      modifies this
      ensures state == After(old(state), SaveTask(task, now))
      ensures task.id == "" ==> state == old(state)
      ensures task.id != "" ==>
                var createdAt := if task.createdAt == 0 then now else task.createdAt;
                state == old(state).(cleanupTasks :=
                  UpsertTask(old(state.cleanupTasks), task.(createdAt := createdAt, updatedAt := now)))
      ensures err <==> task.id != "" && !flushOk
    {
      if task.id == "" {
        return false;
      }
      var stamped := task;
      if stamped.createdAt == 0 {
        stamped := stamped.(createdAt := now);
      }
      stamped := stamped.(updatedAt := now);
      var tasks := UpsertCleanupTask(state.cleanupTasks, stamped);
      state := state.(cleanupTasks := tasks);
      err := !flushOk;
    }

    method DeleteCleanupTask(id: string, flushOk: bool) returns (err: bool)
      modifies this
      ensures state == After(old(state), DeleteTask(id))
      ensures state == if id == "" then old(state)
                       else old(state).(cleanupTasks := DropTasks(old(state.cleanupTasks), id))
      ensures err <==> id != "" && !flushOk
    {
      if id == "" {
        return false;
      }
      var tasks := DeleteTaskRecord(state.cleanupTasks, id);
      state := state.(cleanupTasks := tasks);
      err := !flushOk;
    }

    /** The outcome is exactly the effect of the call, the panic on a null section included. */
    method SaveBackendState(path: string, value: Json, flushOk: bool) returns (outcome: Outcome)
      modifies this
      ensures state == After(old(state), SaveBackend(path, value))
      ensures outcome == match Step(old(state), SaveBackend(path, value))
                         case Flush(_) => (if flushOk then Ok else Err)
                         case Return(error, _) => (if error then Err else Ok)
                         case Panic => Panicked
    {
      var split := SplitPath(path);
      if split.None? {
        return Err;
      }
      var section := split.value.section;
      if split.value.Section? {
        state := state.(version := 1, sections := state.sections[section := value]);
      } else {
        var children: map<string, Json> := map[];
        if section in state.sections {
          match state.sections[section]
          case JObj(f) =>
            children := f;
          case JNull =>
            return Panicked;
          case _ =>
            state := state.(version := 1);
            return Err;
        }
        children := children[split.value.key := value];
        state := state.(version := 1, sections := state.sections[section := JObj(children)]);
      }
      outcome := if flushOk then Ok else Err;
    }

    method LoadBackendState(path: string) returns (result: LoadResult)
      ensures result == LoadBackend(state, path)
    {
      var split := SplitPath(path);
      if split.None? {
        return Failed;
      }
      if split.value.section !in state.sections {
        return Missing;
      }
      var raw := state.sections[split.value.section];
      if split.value.Section? {
        return Found(raw);
      }
      if raw.JNull? {
        return Missing;
      }
      if !raw.JObj? {
        return Failed;
      }
      result := if split.value.key in raw.fields then Found(raw.fields[split.value.key]) else Missing;
    }

    method DeleteBackendState(path: string, flushOk: bool) returns (outcome: Outcome)
      modifies this
      ensures state == After(old(state), DeleteBackend(path))
      ensures outcome == match Step(old(state), DeleteBackend(path))
                         case Flush(_) => (if flushOk then Ok else Err)
                         case Return(error, _) => (if error then Err else Ok)
                         case Panic => Panicked
    {
      var split := SplitPath(path);
      if split.None? {
        return Err;
      }
      var section := split.value.section;
      if section !in state.sections {
        return Ok;
      }
      if split.value.Section? {
        state := state.(sections := state.sections - {section});
      } else {
        match state.sections[section]
        case JNull =>
          return Ok;
        case JObj(f) =>
          if split.value.key !in f {
            return Ok;
          }
          var children := f - {split.value.key};
          if children == map[] {
            state := state.(sections := state.sections - {section});
          } else {
            state := state.(sections := state.sections[section := JObj(children)]);
          }
        case _ =>
          return Err;
      }
      outcome := if flushOk then Ok else Err;
    }
  }
}
