/** The state file of the multiplexer: JSON values, the records it holds, and the hand-written
    (un)marshalling that keeps three fixed keys apart from the sections owned by the backends.

    Raw JSON messages are values here, and instants are integers with 0 for the zero time. */
module PersistedState {
  import opened Options

  datatype Json =
    | JNull
    | JBool(b: bool)
    | JNum(n: int)
    | JStr(s: string)
    | JArr(items: seq<Json>)
    | JObj(fields: map<string, Json>)

  type Time = int

  datatype RouteRecord = RouteRecord(kind: string, id: string, engine: string, sandboxID: string, updatedAt: Time)

  datatype CleanupTask = CleanupTask(
    id: string,
    runtime: string,
    sandboxID: string,
    resourceType: string,
    reason: string,
    attempts: int,
    lastError: string,
    nextRetryAt: Time,
    createdAt: Time,
    updatedAt: Time)

  datatype State = State(
    version: int,
    routes: seq<RouteRecord>,
    cleanupTasks: seq<CleanupTask>,
    sections: map<string, Json>)

  const EMPTY := State(1, [], [], map[])

  /** The fixed keys of the file; no backend section may use one. */
  const RESERVED: set<string> := {"version", "routes", "cleanup_tasks"}

  ghost predicate NoReserved(p: State) {
    p.sections.Keys !! RESERVED
  }

  // ----- Records as JSON objects -----

  /** An `omitempty` string field. */
  function OptionalField(key: string, value: string): map<string, Json> {
    if value == "" then map[] else map[key := JStr(value)]
  }

  function EncodeRoute(r: RouteRecord): Json {
    JObj(map["kind" := JStr(r.kind), "id" := JStr(r.id), "engine" := JStr(r.engine), "updated_at" := JNum(r.updatedAt)]
         + OptionalField("sandbox_id", r.sandboxID))
  }

  function EncodeTask(t: CleanupTask): Json {
    JObj(map["id" := JStr(t.id), "runtime" := JStr(t.runtime), "sandbox_id" := JStr(t.sandboxID),
             "resource_type" := JStr(t.resourceType), "reason" := JStr(t.reason), "attempts" := JNum(t.attempts),
             "next_retry_at" := JNum(t.nextRetryAt), "created_at" := JNum(t.createdAt),
             "updated_at" := JNum(t.updatedAt)]
         + OptionalField("last_error", t.lastError))
  }

  /** Decoding a missing or null field leaves the zero value; a value of another type is an error. */
  function StringField(fields: map<string, Json>, key: string): Option<string> {
    if key !in fields || fields[key].JNull? then Some("")
    else if fields[key].JStr? then Some(fields[key].s)
    else None
  }

  function NumberField(fields: map<string, Json>, key: string): Option<int> {
    if key !in fields || fields[key].JNull? then Some(0)
    else if fields[key].JNum? then Some(fields[key].n)
    else None
  }

  function DecodeRoute(j: Json): Option<RouteRecord> {
    match j
    case JNull => Some(RouteRecord("", "", "", "", 0))
    case JObj(f) =>
      var kind :- StringField(f, "kind");
      var id :- StringField(f, "id");
      var engine :- StringField(f, "engine");
      var sandboxID :- StringField(f, "sandbox_id");
      var updatedAt :- NumberField(f, "updated_at");
      Some(RouteRecord(kind, id, engine, sandboxID, updatedAt))
    case _ => None
  }

  function DecodeTask(j: Json): Option<CleanupTask> {
    match j
    case JNull => Some(CleanupTask("", "", "", "", "", 0, "", 0, 0, 0))
    case JObj(f) =>
      var id :- StringField(f, "id");
      var runtime :- StringField(f, "runtime");
      var sandboxID :- StringField(f, "sandbox_id");
      var resourceType :- StringField(f, "resource_type");
      var reason :- StringField(f, "reason");
      var attempts :- NumberField(f, "attempts");
      var lastError :- StringField(f, "last_error");
      var nextRetryAt :- NumberField(f, "next_retry_at");
      var createdAt :- NumberField(f, "created_at");
      var updatedAt :- NumberField(f, "updated_at");
      Some(CleanupTask(id, runtime, sandboxID, resourceType, reason, attempts, lastError,
                       nextRetryAt, createdAt, updatedAt))
    case _ => None
  }

  function EncodeRoutes(rs: seq<RouteRecord>): seq<Json> {
    seq(|rs|, i requires 0 <= i < |rs| => EncodeRoute(rs[i]))
  }

  function EncodeTasks(ts: seq<CleanupTask>): seq<Json> {
    seq(|ts|, i requires 0 <= i < |ts| => EncodeTask(ts[i]))
  }

  function DecodeRoutes(items: seq<Json>): Option<seq<RouteRecord>> {
    if items == [] then Some([]) else
    var head :- DecodeRoute(items[0]);
    var tail :- DecodeRoutes(items[1..]);
    Some([head] + tail)
  }

  function DecodeTasks(items: seq<Json>): Option<seq<CleanupTask>> {
    if items == [] then Some([]) else
    var head :- DecodeTask(items[0]);
    var tail :- DecodeTasks(items[1..]);
    Some([head] + tail)
  }

  // ----- The whole file -----

  function Marshal(p: State): Json {
    var out := p.sections["version" := JNum(p.version)];
    var out := if p.routes == [] then out else out["routes" := JArr(EncodeRoutes(p.routes))];
    var out := if p.cleanupTasks == [] then out else out["cleanup_tasks" := JArr(EncodeTasks(p.cleanupTasks))];
    JObj(out)
  }

  function RoutesOf(raw: map<string, Json>): Option<seq<RouteRecord>> {
    if "routes" !in raw || raw["routes"].JNull? then Some([])
    else if raw["routes"].JArr? then DecodeRoutes(raw["routes"].items)
    else None
  }

  function TasksOf(raw: map<string, Json>): Option<seq<CleanupTask>> {
    if "cleanup_tasks" !in raw || raw["cleanup_tasks"].JNull? then Some([])
    else if raw["cleanup_tasks"].JArr? then DecodeTasks(raw["cleanup_tasks"].items)
    else None
  }

  function VersionOf(raw: map<string, Json>): Option<int> {
    if "version" !in raw || raw["version"].JNull? then Some(1)
    else if raw["version"].JNum? then Some(raw["version"].n)
    else None
  }

  /** Decoding into the freshly constructed state, whose version is already 1. */
  function Unmarshal(doc: Json): (r: Option<State>)
    ensures r.Some? ==> NoReserved(r.value)
  {
    match doc
    case JNull => Some(EMPTY)
    case JObj(raw) =>
      var version :- VersionOf(raw);
      var routes :- RoutesOf(raw);
      var tasks :- TasksOf(raw);
      Some(State(version, routes, tasks, map k | k in raw && k !in RESERVED :: raw[k]))
    case _ => None
  }

  /** Start-up: a file that is missing or does not decode degrades to the empty state. */
  function Load(disk: Option<Json>): (p: State)
    ensures NoReserved(p)
  {
    var p := if disk.None? then EMPTY else
             match Unmarshal(disk.value)
             case Some(q) => q
             case None => EMPTY;
    if p.version == 0 then p.(version := 1) else p
  }

  // ----- Round trips -----

  lemma RouteRoundTrip(r: RouteRecord)
    ensures DecodeRoute(EncodeRoute(r)) == Some(r)
  {
    var f := EncodeRoute(r).fields;
    assert StringField(f, "kind") == Some(r.kind);
    assert StringField(f, "sandbox_id") == Some(r.sandboxID);
  }

  /** The required fields of a task object, read back one by one. */
  lemma TaskFields(t: CleanupTask)
    ensures var f := EncodeTask(t).fields;
            && StringField(f, "id") == Some(t.id)
            && StringField(f, "runtime") == Some(t.runtime)
            && StringField(f, "sandbox_id") == Some(t.sandboxID)
            && StringField(f, "resource_type") == Some(t.resourceType)
            && StringField(f, "reason") == Some(t.reason)
  {
  }

  lemma TaskCounters(t: CleanupTask)
    ensures var f := EncodeTask(t).fields;
            && NumberField(f, "attempts") == Some(t.attempts)
            && StringField(f, "last_error") == Some(t.lastError)
            && NumberField(f, "next_retry_at") == Some(t.nextRetryAt)
            && NumberField(f, "created_at") == Some(t.createdAt)
            && NumberField(f, "updated_at") == Some(t.updatedAt)
  {
  }

  lemma TaskRoundTrip(t: CleanupTask)
    ensures DecodeTask(EncodeTask(t)) == Some(t)
  {
    TaskFields(t);
    TaskCounters(t);
  }

  lemma {:induction false} RoutesRoundTrip(rs: seq<RouteRecord>)
    ensures DecodeRoutes(EncodeRoutes(rs)) == Some(rs)
  {
    hide EncodeRoute, DecodeRoute;
    if rs != [] {
      RouteRoundTrip(rs[0]);
      RoutesRoundTrip(rs[1..]);
      assert EncodeRoutes(rs)[1..] == EncodeRoutes(rs[1..]);
      assert rs == [rs[0]] + rs[1..];
    }
  }

  lemma {:induction false} TasksRoundTrip(ts: seq<CleanupTask>)
    ensures DecodeTasks(EncodeTasks(ts)) == Some(ts)
  {
    hide EncodeTask, DecodeTask;
    if ts != [] {
      TaskRoundTrip(ts[0]);
      TasksRoundTrip(ts[1..]);
      assert EncodeTasks(ts)[1..] == EncodeTasks(ts[1..]);
      assert ts == [ts[0]] + ts[1..];
    }
  }

  /** The file gives back exactly the state that was written if and only if no section
      uses a reserved key. */
  lemma MarshalRoundTrip(p: State)
    ensures Unmarshal(Marshal(p)) == Some(p) <==> NoReserved(p)
  {
    if NoReserved(p) {
      var raw := Marshal(p).fields;
      assert VersionOf(raw) == Some(p.version);
      assert "routes" in raw <==> p.routes != [];
      assert "cleanup_tasks" in raw <==> p.cleanupTasks != [];
      assert RoutesOf(raw) == Some(p.routes) by { RoutesRoundTrip(p.routes); }
      assert TasksOf(raw) == Some(p.cleanupTasks) by { TasksRoundTrip(p.cleanupTasks); }
      assert (map k | k in raw && k !in RESERVED :: raw[k]) == p.sections;
    }
  }

  // ----- The file's own layout -----

  /** The keys of the file and of a route in it; an empty list, and an empty parent, are left out. */
  lemma FileKeys(p: State, r: RouteRecord)
    ensures Marshal(p).fields.Keys == p.sections.Keys + {"version"}
              + (if p.routes == [] then {} else {"routes"}) + (if p.cleanupTasks == [] then {} else {"cleanup_tasks"})
    ensures Marshal(p).fields["version"] == JNum(p.version)
    ensures var f := EncodeRoute(r).fields;
            && f.Keys == {"kind", "id", "engine", "updated_at"} + (if r.sandboxID == "" then {} else {"sandbox_id"})
            && f["kind"] == JStr(r.kind) && f["id"] == JStr(r.id) && f["engine"] == JStr(r.engine)
            && f["updated_at"] == JNum(r.updatedAt) && (r.sandboxID != "" ==> f["sandbox_id"] == JStr(r.sandboxID))
  {
  }

  /** Start-up with a file it cannot use begins empty, at version 1; so does a missing file, and a
      version that is missing, null or zero counts as 1. */
  lemma StartUp(disk: Option<Json>, raw: map<string, Json>)
    ensures disk.None? || Unmarshal(disk.value).None? ==> Load(disk) == State(1, [], [], map[])
    ensures "version" in raw && !raw["version"].JNull? && !raw["version"].JNum? ==> Unmarshal(JObj(raw)).None?
    ensures "routes" in raw && !raw["routes"].JNull? && !raw["routes"].JArr? ==> Unmarshal(JObj(raw)).None?
    ensures "cleanup_tasks" in raw && !raw["cleanup_tasks"].JNull? && !raw["cleanup_tasks"].JArr? ==> Unmarshal(JObj(raw)).None?
    ensures Unmarshal(JObj(raw)).Some? && ("version" !in raw || raw["version"] == JNull || raw["version"] == JNum(0)) ==>
              Load(Some(JObj(raw))).version == 1
    ensures Unmarshal(JObj(raw)).Some? ==>
              Load(Some(JObj(raw))).sections ==
              map k | k in raw && k != "version" && k != "routes" && k != "cleanup_tasks" :: raw[k]
  {
  }
}
