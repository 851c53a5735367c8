/** What the store promises its users, with no batches, writer or files: calls append to a log,
    a durable prefix only grows, a call is acknowledged once the prefix covers it, and a crash
    loses at most what lies beyond the prefix. */
module DurableLog {
  import opened PersistedState
  import opened StateStore

  datatype Log = Log(base: State, log: seq<Op>, floor: nat)

  predicate Valid(d: Log) {
    d.floor <= |d.log|
  }

  predicate Append(d: Log, d': Log, op: Op) {
    d' == d.(log := d.log + [op])
  }

  predicate Advance(d: Log, d': Log) {
    d.floor <= d'.floor <= |d.log| && d' == d.(floor := d'.floor)
  }

  predicate Crash(d: Log, d': Log) {
    d.floor <= |d'.log| <= |d.log| && d' == d.(log := d.log[..|d'.log|], floor := |d'.log|)
  }

  ghost predicate Next(d: Log, d': Log) {
    d == d' || (exists op :: Append(d, d', op)) || Advance(d, d') || Crash(d, d')
  }

  /** A few steps at once: calls are appended and the durable prefix may advance. */
  predicate Extend(d: Log, d': Log, ops: seq<Op>) {
    d.floor <= d'.floor <= |d.log| + |ops| && d' == Log(d.base, d.log + ops, d'.floor)
  }

  ghost predicate Reaches(d: Log, d': Log, n: nat)
    decreases n
  {
    if n == 0 then d == d' else exists mid :: Next(d, mid) && Reaches(mid, d', n - 1)
  }

  lemma {:induction false} ExtendIsSteps(d: Log, d': Log, ops: seq<Op>)
    requires Extend(d, d', ops)
    ensures Reaches(d, d', |ops| + 1)
    decreases |ops|
  {
    if ops == [] {
      assert d.log + ops == d.log;
      assert Advance(d, d') && Next(d, d');
      assert Reaches(d', d', 0);
    } else {
      var mid := d.(log := d.log + [ops[0]]);
      assert Append(d, mid, ops[0]) && Next(d, mid);
      assert d.log + ops == mid.log + ops[1..];
      ExtendIsSteps(mid, d', ops[1..]);
    }
  }

  /** What lies below the floor stays in the log, at its place, over every run. */
  lemma {:induction false} FloorNeverLost(d: Log, d': Log, n: nat, p: nat)
    requires Valid(d) && Reaches(d, d', n) && p < d.floor
    ensures Valid(d') && p < d'.floor && d'.log[p] == d.log[p] && d'.base == d.base
    decreases n
  {
    if n > 0 {
      var mid :| Next(d, mid) && Reaches(mid, d', n - 1);
      FloorNeverLost(mid, d', n - 1, p);
    }
  }
}

/** The group commit of the state store as a step machine. Callers mutate the memory state under
    the lock, join the pending batch and wait; a background writer takes the batch, snapshots the
    memory under the lock and replaces the file without it. A step is one critical section or one
    file-system effect, so every interleaving of callers, writer, failing writes and crashes is a
    list of actions. */
module GroupCommit {
  import opened Options
  import opened PersistedState
  import opened StateStore
  import DurableLog

  type CallId = nat
  type BatchId = nat

  /** A file image; covers is the length of the log prefix it was made from. */
  datatype Image = Image(doc: Option<Json>, covers: nat)

  /** A caller blocked on its batch; its mutation is log[pos]. */
  datatype Waiting = Waiting(op: Op, pos: nat, batch: BatchId)

  /** Where a live flushBatches goroutine stands. */
  datatype Writer =
    | AtTop
    | Writing(batch: BatchId, image: Image)
    | Renamed(batch: BatchId, image: Image)
    | Closing(batch: BatchId, covers: nat, failed: bool)

  datatype Closed = Closed(covers: nat, failed: bool)

  datatype World = World(
    base: State,
    log: seq<Op>,                     // the flushed calls, in lock order
    memory: State,
    pending: Option<BatchId>,
    flushing: bool,
    writers: seq<Writer>,             // live goroutines
    nextBatch: BatchId,
    closed: map<BatchId, Closed>,
    waiting: map<CallId, Waiting>,
    acked: map<nat, Op>,              // log positions whose call returned nil
    durable: Image,                   // synced together with its directory entry
    unsynced: seq<Image>)             // renamed over it since, oldest first

  datatype Action =
    | Call(id: CallId, op: Op)        // lock, mutate, flushLocked up to the wait
    | TakeBatch(w: nat)               // lock, take the pending batch and snapshot, or exit
    | FailEarly(w: nat)               // marshal, temporary file, write, sync, close or rename failed
    | Rename(w: nat)
    | SyncDir(w: nat)
    | FailSyncDir(w: nat)
    | CloseBatch(w: nat)
    | Resume(id: CallId)              // the blocked caller returns
    | Crash(survivor: nat)            // restart from the durable image or an unsynced one

  /** The file a reader sees now. */
  function Visible(s: World): Image {
    if s.unsynced == [] then s.durable else s.unsynced[|s.unsynced| - 1]
  }

  function Survivor(s: World, k: nat): Image
    requires k <= |s.unsynced|
  {
    if k == 0 then s.durable else s.unsynced[k - 1]
  }

  predicate Init(s: World) {
    && s.base == Load(s.durable.doc)
    && s == World(s.base, [], s.base, None, false, [], 0, map[], map[], map[], Image(s.durable.doc, 0), [])
  }

  predicate Enabled(s: World, a: Action) {
    match a
    case Call(id, op) => id !in s.waiting && !Step(s.memory, op).Panic?
    case TakeBatch(w) => w < |s.writers| && s.writers[w].AtTop?
    case FailEarly(w) => w < |s.writers| && s.writers[w].Writing?
    case Rename(w) => w < |s.writers| && s.writers[w].Writing?
    case SyncDir(w) => w < |s.writers| && s.writers[w].Renamed?
    case FailSyncDir(w) => w < |s.writers| && s.writers[w].Renamed?
    case CloseBatch(w) => w < |s.writers| && s.writers[w].Closing?
    case Resume(id) => id in s.waiting && s.waiting[id].batch in s.closed
    case Crash(k) => k <= |s.unsynced|
  }

  function DoCall(s: World, id: CallId, op: Op): World {
    match Step(s.memory, op)
    case Flush(t) =>
      var batch := if s.pending.Some? then s.pending.value else s.nextBatch;
      s.(memory := t,
         log := s.log + [op],
         pending := Some(batch),
         nextBatch := if s.pending.Some? then s.nextBatch else s.nextBatch + 1,
         writers := if s.flushing then s.writers else s.writers + [AtTop],
         flushing := true,
         waiting := s.waiting[id := Waiting(op, |s.log|, batch)])
    case Return(_, t) => s.(memory := t)
    case Panic => s
  }

  function DoTakeBatch(s: World, w: nat): World
    requires Enabled(s, TakeBatch(w))
  {
    match s.pending
    case None => s.(flushing := false, writers := s.writers[..w] + s.writers[w + 1..])
    case Some(batch) =>
      var memory := Norm(s.memory);
      s.(pending := None,
         memory := memory,
         writers := s.writers[w := Writing(batch, Image(Some(Marshal(memory)), |s.log|))])
  }

  function DoCrash(s: World, k: nat): World
    requires k <= |s.unsynced|
  {
    var image := Survivor(s, k);
    var kept := if image.covers <= |s.log| then image.covers else |s.log|;
    World(s.base, s.log[..kept], Load(image.doc), None, false, [], 0, map[], map[], s.acked, image, [])
  }

  function Do(s: World, a: Action): World
    requires Enabled(s, a)
  {
    match a
    case Call(id, op) => DoCall(s, id, op)
    case TakeBatch(w) => DoTakeBatch(s, w)
    case FailEarly(w) =>
      var x := s.writers[w];
      s.(writers := s.writers[w := Closing(x.batch, x.image.covers, true)])
    case Rename(w) =>
      var x := s.writers[w];
      s.(writers := s.writers[w := Renamed(x.batch, x.image)], unsynced := s.unsynced + [x.image])
    case SyncDir(w) =>
      var x := s.writers[w];
      s.(writers := s.writers[w := Closing(x.batch, x.image.covers, false)], durable := Visible(s), unsynced := [])
    case FailSyncDir(w) =>
      var x := s.writers[w];
      s.(writers := s.writers[w := Closing(x.batch, x.image.covers, true)])
    case CloseBatch(w) =>
      var x := s.writers[w];
      s.(writers := s.writers[w := AtTop], closed := s.closed[x.batch := Closed(x.covers, x.failed)])
    case Resume(id) =>
      var c := s.waiting[id];
      s.(waiting := s.waiting - {id},
         acked := if s.closed[c.batch].failed then s.acked else s.acked[c.pos := c.op])
    case Crash(k) => DoCrash(s, k)
  }

  /** A run: every action is enabled where it is taken. */
  ghost predicate Run(s: World, actions: seq<Action>, s': World)
    decreases |actions|
  {
    if actions == [] then s' == s
    else Enabled(s, actions[0]) && Run(Do(s, actions[0]), actions[1..], s')
  }

  // ----- The invariant -----

  /** The image holds exactly the fold of the log prefix it covers. */
  ghost predicate Faithful(s: World, image: Image) {
    && image.covers <= |s.log|
    && SameUpToVersion(Load(image.doc), Fold(s.base, s.log[..image.covers]))
  }

  ghost predicate MemoryOk(s: World) {
    && NoReserved(s.base)
    && SameUpToVersion(s.memory, Fold(s.base, s.log))
  }

  ghost predicate FilesOk(s: World) {
    && Faithful(s, s.durable)
    && (forall i :: 0 <= i < |s.unsynced| ==>
          Faithful(s, s.unsynced[i]) && s.durable.covers <= s.unsynced[i].covers <= Visible(s).covers)
  }

  ghost predicate WriterOk(s: World, x: Writer) {
    match x
    case AtTop => true
    case Writing(_, image) => image.doc.Some? && Faithful(s, image) && Visible(s).covers <= image.covers
    case Renamed(_, image) => s.unsynced != [] && Visible(s) == image
    case Closing(_, covers, failed) => failed || covers <= s.durable.covers
  }

  /** flushing holds exactly while one writer is live, and a pending batch keeps it alive. */
  ghost predicate WritersOk(s: World) {
    && |s.writers| == (if s.flushing then 1 else 0)
    && (s.pending.Some? ==> s.flushing)
    && (s.flushing ==> WriterOk(s, s.writers[0]))
  }

  /** The batch the live writer holds, and the log prefix its snapshot covers. */
  predicate InFlight(s: World, batch: BatchId) {
    |s.writers| == 1 && !s.writers[0].AtTop? && s.writers[0].batch == batch
  }

  function InFlightCovers(s: World): nat
    requires |s.writers| == 1 && !s.writers[0].AtTop?
  {
    match s.writers[0]
    case Writing(_, image) => image.covers
    case Renamed(_, image) => image.covers
    case Closing(_, covers, _) => covers
  }

  ghost predicate BatchesOk(s: World) {
    && (forall b :: b in s.closed ==> b < s.nextBatch && !InFlight(s, b) && s.pending != Some(b))
    && (s.pending.Some? ==> s.pending.value < s.nextBatch && !InFlight(s, s.pending.value))
    && (|s.writers| == 1 && !s.writers[0].AtTop? ==> s.writers[0].batch < s.nextBatch)
  }

  /** A waiting call's batch is closed, pending or in flight, and in the last two cases that is
      the write that covers it. */
  ghost predicate CallOk(s: World, c: Waiting) {
    && c.pos < |s.log| && s.log[c.pos] == c.op
    && (c.batch in s.closed || s.pending == Some(c.batch) || InFlight(s, c.batch))
    && (InFlight(s, c.batch) ==> c.pos < InFlightCovers(s))
    && (c.batch in s.closed ==> c.pos < s.closed[c.batch].covers)
  }

  ghost predicate CallsOk(s: World) {
    forall id :: id in s.waiting ==> CallOk(s, s.waiting[id])
  }

  ghost predicate AcksOk(s: World) {
    && (forall b :: b in s.closed ==> s.closed[b].failed || s.closed[b].covers <= s.durable.covers)
    && (forall p :: p in s.acked ==> p < s.durable.covers && p < |s.log| && s.log[p] == s.acked[p])
  }

  ghost predicate Inv(s: World) {
    MemoryOk(s) && FilesOk(s) && WritersOk(s) && BatchesOk(s) && CallsOk(s) && AcksOk(s)
  }

  // ----- Every step keeps the invariant -----

  lemma InitInv(s: World)
    requires Init(s)
    ensures Inv(s)
  {
  }

  /** Appending to the log leaves every existing image faithful. */
  lemma FaithfulAfterAppend(s: World, s': World, image: Image)
    requires Faithful(s, image) && s'.base == s.base && s.log <= s'.log
    ensures Faithful(s', image)
  {
    assert s'.log[..image.covers] == s.log[..image.covers];
  }

  lemma FlushingCallKeepsFiles(s: World, id: CallId, op: Op)
    requires Inv(s) && Enabled(s, Call(id, op)) && Step(s.memory, op).Flush?
    ensures var s' := DoCall(s, id, op); MemoryOk(s') && FilesOk(s') && WritersOk(s')
  {
    hide Step, Fold, Load, Marshal;
    var s' := DoCall(s, id, op);
    StepIgnoresVersion(s.memory, Fold(s.base, s.log), op);
    FoldAppend(s.base, s.log, op);
    forall image | Faithful(s, image)
      ensures Faithful(s', image)
    {
      FaithfulAfterAppend(s, s', image);
    }
  }

  lemma FlushingCallKeepsCalls(s: World, id: CallId, op: Op)
    requires Inv(s) && Enabled(s, Call(id, op)) && Step(s.memory, op).Flush?
    ensures var s' := DoCall(s, id, op); BatchesOk(s') && CallsOk(s') && AcksOk(s')
  {
    hide Step, Fold, Load, Marshal;
    var s' := DoCall(s, id, op);
    assert forall b :: InFlight(s', b) <==> InFlight(s, b);
  }

  lemma CallInv(s: World, id: CallId, op: Op)
    requires Inv(s) && Enabled(s, Call(id, op))
    ensures Inv(DoCall(s, id, op))
  {
    hide Step, Fold, Load, Marshal;
    if Step(s.memory, op).Flush? {
      FlushingCallKeepsFiles(s, id, op);
      FlushingCallKeepsCalls(s, id, op);
    } else {
      ReturnKeepsState(s.memory, op);
    }
  }

  /** The snapshot is the fold of the whole log, and survives the trip through the file. */
  lemma SnapshotFaithful(s: World)
    requires MemoryOk(s)
    ensures Faithful(s, Image(Some(Marshal(Norm(s.memory))), |s.log|))
  {
    FoldKeepsNoReserved(s.base, s.log);
    MarshalRoundTrip(Norm(s.memory));
    assert s.log[..|s.log|] == s.log;
  }

  lemma TakeBatchFiles(s: World, w: nat)
    requires Inv(s) && Enabled(s, TakeBatch(w))
    ensures var s' := DoTakeBatch(s, w); MemoryOk(s') && FilesOk(s') && WritersOk(s')
  {
    hide Step, Fold, Load, Marshal, BatchesOk, CallsOk, AcksOk;
    SnapshotFaithful(s);
    var s' := DoTakeBatch(s, w);
    forall image | Faithful(s, image)
      ensures Faithful(s', image)
    {
    }
  }

  lemma TakeBatchCalls(s: World, w: nat)
    requires Inv(s) && Enabled(s, TakeBatch(w))
    ensures var s' := DoTakeBatch(s, w); BatchesOk(s') && CallsOk(s') && AcksOk(s')
  {
    hide Step, Fold, Load, Marshal, MemoryOk, FilesOk, Faithful;
  }

  lemma TakeBatchInv(s: World, w: nat)
    requires Inv(s) && Enabled(s, TakeBatch(w))
    ensures Inv(DoTakeBatch(s, w))
  {
    hide DoTakeBatch, MemoryOk, FilesOk, WritersOk, BatchesOk, CallsOk, AcksOk;
    TakeBatchFiles(s, w);
    TakeBatchCalls(s, w);
  }

  predicate WritesOut(a: Action) {
    a.FailEarly? || a.Rename? || a.SyncDir? || a.FailSyncDir? || a.CloseBatch?
  }

  lemma WriterStepFiles(s: World, a: Action)
    requires Inv(s) && Enabled(s, a) && WritesOut(a)
    ensures MemoryOk(Do(s, a)) && FilesOk(Do(s, a)) && WritersOk(Do(s, a))
  {
    hide Step, Fold, Load, Marshal, BatchesOk, CallsOk, AcksOk;
    var s' := Do(s, a);
    forall image | Faithful(s, image)
      ensures Faithful(s', image)
    {
    }
    if a.Rename? {
      assert Visible(s') == s.writers[0].image;
    }
  }

  lemma FileStepCalls(s: World, a: Action)
    requires Inv(s) && Enabled(s, a) && WritesOut(a) && !a.CloseBatch?
    ensures BatchesOk(Do(s, a)) && CallsOk(Do(s, a)) && AcksOk(Do(s, a))
  {
    hide Step, Fold, Load, Marshal, MemoryOk, Faithful;
    var s' := Do(s, a);
    assert forall b :: InFlight(s', b) <==> InFlight(s, b);
    assert s.durable.covers <= s'.durable.covers;
  }

  lemma CloseBatchCalls(s: World, w: nat)
    requires Inv(s) && Enabled(s, CloseBatch(w))
    ensures var s' := Do(s, CloseBatch(w)); BatchesOk(s') && CallsOk(s') && AcksOk(s')
  {
    hide Step, Fold, Load, Marshal, MemoryOk, FilesOk, Faithful;
  }

  lemma WriterStepInv(s: World, a: Action)
    requires Inv(s) && Enabled(s, a) && WritesOut(a)
    ensures Inv(Do(s, a))
  {
    hide Do, MemoryOk, FilesOk, WritersOk, BatchesOk, CallsOk, AcksOk;
    WriterStepFiles(s, a);
    if a.CloseBatch? {
      CloseBatchCalls(s, a.w);
    } else {
      FileStepCalls(s, a);
    }
  }

  lemma CrashInv(s: World, k: nat)
    requires Inv(s) && k <= |s.unsynced|
    ensures Inv(DoCrash(s, k))
  {
    var image := Survivor(s, k);
    assert Faithful(s, image) && s.durable.covers <= image.covers;
    var log := s.log[..image.covers];
    assert log[..image.covers] == log;
  }

  lemma StepInv(s: World, a: Action)
    requires Inv(s) && Enabled(s, a)
    ensures Inv(Do(s, a))
  {
    match a
    case Call(id, op) => CallInv(s, id, op);
    case TakeBatch(w) => TakeBatchInv(s, w);
    case Resume(id) => ResumeInv(s, id);
    case Crash(k) => CrashInv(s, k);
    case _ => WriterStepInv(s, a);
  }

  lemma ResumeInv(s: World, id: CallId)
    requires Inv(s) && Enabled(s, Resume(id))
    ensures Inv(Do(s, Resume(id)))
  {
    hide Step, Fold, Load, Marshal;
    var s' := Do(s, Resume(id));
    ResumeFiles(s, id);
    hide Faithful, FilesOk, MemoryOk, WritersOk, WriterOk;
    assert CallOk(s, s.waiting[id]);
    assert forall b :: InFlight(s', b) <==> InFlight(s, b);
  }

  lemma ResumeFiles(s: World, id: CallId)
    requires Inv(s) && Enabled(s, Resume(id))
    ensures var s' := Do(s, Resume(id)); MemoryOk(s') && FilesOk(s') && WritersOk(s')
  {
    hide Step, Fold, Load, Marshal, CallsOk, AcksOk, BatchesOk;
    var s' := Do(s, Resume(id));
    forall image | Faithful(s, image)
      ensures Faithful(s', image)
    {
    }
  }

  lemma {:induction false} RunInv(s: World, actions: seq<Action>, s': World)
    requires Inv(s) && Run(s, actions, s')
    ensures Inv(s')
    decreases |actions|
  {
    if actions != [] {
      StepInv(s, actions[0]);
      RunInv(Do(s, actions[0]), actions[1..], s');
    }
  }

  // ----- Durability -----

  /** A reader of the image finds the fold of a log prefix that contains position p. */
  ghost predicate Holds(s: World, image: Image, p: nat, op: Op) {
    p < image.covers && Faithful(s, image) && s.log[p] == op
  }

  lemma AckedGrows(s: World, a: Action)
    requires Inv(s) && Enabled(s, a)
    ensures forall p :: p in s.acked ==> p in Do(s, a).acked && Do(s, a).acked[p] == s.acked[p]
  {
    if a.Resume? {
      assert CallOk(s, s.waiting[a.id]);
    }
  }

  lemma {:induction false} AckedGrowsOverRun(s: World, actions: seq<Action>, s': World)
    requires Inv(s) && Run(s, actions, s')
    ensures forall p :: p in s.acked ==> p in s'.acked && s'.acked[p] == s.acked[p]
    decreases |actions|
  {
    if actions != [] {
      AckedGrows(s, actions[0]);
      StepInv(s, actions[0]);
      AckedGrowsOverRun(Do(s, actions[0]), actions[1..], s');
    }
  }

  /** Once a call has returned nil, then and after every further run, crashes included, the
      visible file and every image a crash could bring back hold the fold of a prefix of the
      lock-ordered log that contains the call's mutation at the position it was made. */
  lemma Durability(s0: World, before: seq<Action>, s: World, later: seq<Action>, s': World, p: nat)
    requires Init(s0) && Run(s0, before, s) && Run(s, later, s')
    requires p in s.acked
    ensures Holds(s', Visible(s'), p, s.acked[p])
    ensures forall k :: 0 <= k <= |s'.unsynced| ==> Holds(s', Survivor(s', k), p, s.acked[p])
  {
    InitInv(s0);
    RunInv(s0, before, s);
    RunInv(s, later, s');
    AckedGrowsOverRun(s, later, s');
  }

  lemma VisibleStep(s: World, a: Action)
    requires Inv(s) && Enabled(s, a) && !a.Crash?
    ensures Visible(s).covers <= Visible(Do(s, a)).covers
  {
    hide Step, Fold, Load, Marshal;
  }

  /** Between crashes the prefix a reader sees never shrinks. */
  lemma {:induction false} VisibleNeverShrinks(s: World, actions: seq<Action>, s': World)
    requires Inv(s) && Run(s, actions, s')
    requires forall i :: 0 <= i < |actions| ==> !actions[i].Crash?
    ensures Visible(s).covers <= Visible(s').covers
    decreases |actions|
  {
    if actions != [] {
      VisibleStep(s, actions[0]);
      StepInv(s, actions[0]);
      VisibleNeverShrinks(Do(s, actions[0]), actions[1..], s');
    }
  }

  /** Every step of the group commit is a step of the durable log, so whatever holds of the log
      over all its runs holds of the store. */
  function Abs(s: World): DurableLog.Log {
    DurableLog.Log(s.base, s.log, s.durable.covers)
  }

  lemma StepRefinesDurableLog(s: World, a: Action)
    requires Inv(s) && Enabled(s, a)
    ensures DurableLog.Valid(Abs(s))
    ensures DurableLog.Next(Abs(s), Abs(Do(s, a)))
    ensures a.Resume? && !s.closed[s.waiting[a.id].batch].failed ==> s.waiting[a.id].pos < Abs(s).floor
  {
    hide Step, Fold, Load, Marshal;
    var d, d' := Abs(s), Abs(Do(s, a));
    match a
    case Call(id, op) =>
      if Step(s.memory, op).Flush? {
        assert DurableLog.Append(d, d', op);
      }
    case SyncDir(w) =>
      assert DurableLog.Advance(d, d');
    case Crash(k) =>
      assert Faithful(s, Survivor(s, k));
      assert DurableLog.Crash(d, d');
    case Resume(id) =>
      assert CallOk(s, s.waiting[id]);
    case _ =>
  }

  // ----- No lost wakeup -----

  predicate WriterAction(a: Action) {
    a.TakeBatch? || a.FailEarly? || a.Rename? || a.SyncDir? || a.FailSyncDir? || a.CloseBatch?
  }

  /** In every reachable state: flushing holds exactly when one writer is live; a waiting call's
      batch is closed, pending or in flight under that writer; the write that releases it covers
      its mutation; and a call still blocked leaves the writer with a step to take. */
  lemma NoLostWakeup(s0: World, actions: seq<Action>, s: World, id: CallId)
    requires Init(s0) && Run(s0, actions, s)
    ensures s.flushing <==> |s.writers| == 1
    ensures |s.writers| <= 1
    ensures id in s.waiting ==> var c := s.waiting[id];
                                || (c.batch in s.closed && c.pos < s.closed[c.batch].covers)
                                || (s.pending == Some(c.batch) && s.flushing)
                                || (InFlight(s, c.batch) && c.pos < InFlightCovers(s))
    ensures id in s.waiting ==> Enabled(s, Resume(id)) || exists a :: WriterAction(a) && Enabled(s, a)
  {
    InitInv(s0);
    RunInv(s0, actions, s);
    if id in s.waiting && !Enabled(s, Resume(id)) {
      assert CallOk(s, s.waiting[id]);
      var a := match s.writers[0]
               case AtTop => TakeBatch(0)
               case Writing(_, _) => Rename(0)
               case Renamed(_, _) => SyncDir(0)
               case Closing(_, _, _) => CloseBatch(0);
      assert WriterAction(a) && Enabled(s, a);
    }
  }

  // ----- Which result releases a call -----

  /** The write of the batch is over and succeeded. */
  ghost predicate Succeeded(s: World, b: BatchId) {
    || (b in s.closed && !s.closed[b].failed)
    || (InFlight(s, b) && s.writers[0].Closing? && !s.writers[0].failed)
  }

  /** During the run the directory is synced while the batch is in flight. */
  ghost predicate Synced(s: World, actions: seq<Action>, b: BatchId)
    decreases |actions|
  {
    && actions != [] && Enabled(s, actions[0])
    && ((actions[0].SyncDir? && InFlight(s, b)) || Synced(Do(s, actions[0]), actions[1..], b))
  }

  lemma SucceededStep(s: World, a: Action, b: BatchId)
    requires Inv(s) && Enabled(s, a) && !a.Crash? && b < s.nextBatch
    ensures b < Do(s, a).nextBatch
    ensures Succeeded(Do(s, a), b) <==> Succeeded(s, b) || (a.SyncDir? && InFlight(s, b))
  {
    hide Step, Fold, Load, Marshal, MemoryOk, FilesOk, AcksOk, CallsOk, Norm;
  }

  lemma {:induction false} SucceededRun(s: World, actions: seq<Action>, s': World, b: BatchId)
    requires Inv(s) && Run(s, actions, s') && b < s.nextBatch
    requires forall i :: 0 <= i < |actions| ==> !actions[i].Crash?
    ensures Succeeded(s', b) <==> Succeeded(s, b) || Synced(s, actions, b)
    decreases |actions|
  {
    hide Inv, Do, Enabled, Succeeded, InFlight;
    if actions != [] {
      SucceededStep(s, actions[0], b);
      StepInv(s, actions[0]);
      SucceededRun(Do(s, actions[0]), actions[1..], s', b);
    }
  }

  /** Making a call: a mutation is in memory and at the end of the log at once, and its caller waits
      on a batch whose write is still to come; a call with nothing to write does not wait. */
  lemma CallJoinsBatch(s: World, id: CallId, op: Op)
    requires Inv(s) && id !in s.waiting && !Step(s.memory, op).Panic?
    ensures Enabled(s, Call(id, op))
    ensures var s' := Do(s, Call(id, op));
            && s'.memory == After(s.memory, op)
            && (Step(s.memory, op).Flush? ==>
                  && s'.log == s.log + [op] && id in s'.waiting
                  && s'.waiting[id].op == op && s'.waiting[id].pos == |s.log|
                  && s'.pending == Some(s'.waiting[id].batch) && !Succeeded(s', s'.waiting[id].batch))
            && (Step(s.memory, op).Return? ==> s' == s.(memory := s'.memory))
  {
    hide Fold, Load, Marshal, MemoryOk, FilesOk, AcksOk, CallsOk;
  }

  /** A blocked call whose write is not yet over returns nil, and is recorded as acknowledged at its
      position, if and only if a directory sync succeeds while its batch is in flight; otherwise it
      returns that write's error and nothing is acknowledged. */
  lemma NilIffSynced(s: World, later: seq<Action>, s': World, id: CallId)
    requires Inv(s) && id in s.waiting && !Succeeded(s, s.waiting[id].batch)
    requires Run(s, later, s') && forall i :: 0 <= i < |later| ==> later[i] != Resume(id) && !later[i].Crash?
    requires Enabled(s', Resume(id))
    ensures var c := s.waiting[id];
            && id !in Do(s', Resume(id)).waiting
            && Do(s', Resume(id)).acked == (if Synced(s, later, c.batch) then s'.acked[c.pos := c.op] else s'.acked)
  {
    hide Run, Synced, Fold, Load, Step, Marshal, MemoryOk, FilesOk;
    var b := s.waiting[id].batch;
    assert CallOk(s, s.waiting[id]);
    RunProgress(s, later, s', id);
    SucceededRun(s, later, s', b);
  }

  /** The step that ends the write, the close of the batch and the return of the call are all
      possible, and leave these acknowledgements. */
  ghost predicate ReturnsAfter(s: World, last: Action, id: CallId, acked: map<nat, Op>) {
    && Enabled(s, last)
    && Enabled(Do(s, last), CloseBatch(0))
    && Enabled(Do(Do(s, last), CloseBatch(0)), Resume(id))
    && Do(Do(Do(s, last), CloseBatch(0)), Resume(id)).acked == acked
  }

  /** Step by step: a failed write or a failed sync acknowledges nothing, a synced one the call. */
  lemma WriteDecidesReturn(s: World, id: CallId)
    requires Inv(s) && id in s.waiting && InFlight(s, s.waiting[id].batch)
    ensures var c := s.waiting[id];
            && (s.writers[0].Writing? ==> Enabled(s, Rename(0)) && ReturnsAfter(s, FailEarly(0), id, s.acked))
            && (s.writers[0].Renamed? ==>
                  && ReturnsAfter(s, SyncDir(0), id, s.acked[c.pos := c.op])
                  && ReturnsAfter(s, FailSyncDir(0), id, s.acked))
  {
    hide Fold, Load, Step, Marshal, MemoryOk, FilesOk, AcksOk, Norm;
    assert CallOk(s, s.waiting[id]);
  }

  /** Writer steps until the writer is back at the top of its loop. */
  function StepsToTop(x: Writer): nat {
    match x
    case AtTop => 0
    case Writing(_, _) => 3
    case Renamed(_, _) => 2
    case Closing(_, _, _) => 1
  }

  /** Writer steps, and snapshot writes, until the batch is closed. */
  function StepsLeft(s: World, batch: BatchId): nat {
    if batch in s.closed || |s.writers| != 1 then 0
    else if InFlight(s, batch) then StepsToTop(s.writers[0])
    else StepsToTop(s.writers[0]) + 4
  }

  function WritesLeft(s: World, batch: BatchId): nat {
    if batch in s.closed || |s.writers| != 1 then 0
    else if InFlight(s, batch) || s.writers[0].AtTop? then 1
    else 2
  }

  function CountWriterActions(actions: seq<Action>): nat {
    if actions == [] then 0 else (if WriterAction(actions[0]) then 1 else 0) + CountWriterActions(actions[1..])
  }

  function CountWrites(actions: seq<Action>): nat {
    if actions == [] then 0 else (if actions[0].CloseBatch? then 1 else 0) + CountWrites(actions[1..])
  }

  lemma OtherProgress(s: World, a: Action, id: CallId)
    requires Inv(s) && Enabled(s, a) && id in s.waiting && a != Resume(id) && !a.Crash? && !WriterAction(a)
    ensures var s' := Do(s, a);
            var b := s.waiting[id].batch;
            && id in s'.waiting && s'.waiting[id] == s.waiting[id]
            && StepsLeft(s', b) <= StepsLeft(s, b) && WritesLeft(s', b) <= WritesLeft(s, b)
  {
    hide Step, Fold, Load, Marshal, MemoryOk, FilesOk, AcksOk;
    assert CallOk(s, s.waiting[id]);
  }

  lemma WriterProgress(s: World, a: Action, id: CallId)
    requires Inv(s) && Enabled(s, a) && id in s.waiting && WriterAction(a)
    ensures var s' := Do(s, a);
            var b := s.waiting[id].batch;
            && s'.waiting == s.waiting
            && StepsLeft(s', b) <= StepsLeft(s, b) && WritesLeft(s', b) <= WritesLeft(s, b)
            && (StepsLeft(s, b) > 0 ==> StepsLeft(s', b) < StepsLeft(s, b))
            && (a.CloseBatch? && WritesLeft(s, b) > 0 ==> WritesLeft(s', b) < WritesLeft(s, b))
  {
    hide Step, Fold, Load, Marshal, MemoryOk, FilesOk, AcksOk;
    assert CallOk(s, s.waiting[id]);
  }

  lemma StepProgress(s: World, a: Action, id: CallId)
    requires Inv(s) && Enabled(s, a) && id in s.waiting && a != Resume(id) && !a.Crash?
    ensures var s' := Do(s, a);
            var b := s.waiting[id].batch;
            && id in s'.waiting && s'.waiting[id] == s.waiting[id]
            && StepsLeft(s', b) <= StepsLeft(s, b) && WritesLeft(s', b) <= WritesLeft(s, b)
            && (WriterAction(a) && StepsLeft(s, b) > 0 ==> StepsLeft(s', b) < StepsLeft(s, b))
            && (a.CloseBatch? && WritesLeft(s, b) > 0 ==> WritesLeft(s', b) < WritesLeft(s, b))
  {
    hide Inv, Do, Enabled, StepsLeft, WritesLeft;
    if WriterAction(a) {
      WriterProgress(s, a, id);
    } else {
      OtherProgress(s, a, id);
    }
  }

  lemma {:induction false} RunProgress(s: World, actions: seq<Action>, s': World, id: CallId)
    requires Inv(s) && Run(s, actions, s') && id in s.waiting
    requires forall i :: 0 <= i < |actions| ==> actions[i] != Resume(id) && !actions[i].Crash?
    ensures Inv(s') && id in s'.waiting && s'.waiting[id] == s.waiting[id]
    ensures var b := s.waiting[id].batch;
            && (StepsLeft(s', b) > 0 ==> CountWriterActions(actions) + StepsLeft(s', b) <= StepsLeft(s, b))
            && (WritesLeft(s', b) > 0 ==> CountWrites(actions) + WritesLeft(s', b) <= WritesLeft(s, b))
    decreases |actions|
  {
    hide Inv, Do, Enabled, StepsLeft, WritesLeft, WriterAction;
    if actions != [] {
      StepProgress(s, actions[0], id);
      StepInv(s, actions[0]);
      RunProgress(Do(s, actions[0]), actions[1..], s', id);
    }
  }

  /** However the other callers interleave, a blocked caller can return after at most two
      snapshot writes, that is after at most seven steps of the writer. */
  lemma ReleasedAfterTwoWrites(s0: World, before: seq<Action>, s: World, later: seq<Action>, s': World, id: CallId)
    requires Init(s0) && Run(s0, before, s) && Run(s, later, s') && id in s.waiting
    requires forall i :: 0 <= i < |later| ==> later[i] != Resume(id) && !later[i].Crash?
    requires CountWrites(later) >= 2 || CountWriterActions(later) >= 7
    ensures Enabled(s', Resume(id))
  {
    hide Run, Fold, Load, MemoryOk, FilesOk, AcksOk, CountWrites, CountWriterActions;
    InitInv(s0);
    RunInv(s0, before, s);
    RunProgress(s, later, s', id);
    assert CallOk(s', s'.waiting[id]);
  }
}
