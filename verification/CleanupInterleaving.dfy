/** Concurrent Schedule calls on the same records, and the one retry driver beside them. A call runs
    its Cleaner without any lock, then loads and saves, or deletes, under taskMu. The driver loads
    the records without taskMu and then works through what it loaded, waiting for each of its own
    calls. A step is one such action, so the theorems hold for every interleaving. */
module CleanupInterleaving {
  import opened Options
  import opened PersistedState
  import opened StateStore
  import opened Cleanup

  type ThreadId = nat

  datatype Pc =
    | Cleaning(job: Job, reason: string)
    | WantSave(job: Job, reason: string, error: string)
    | Locked(job: Job, reason: string, error: string)
    | Loaded(job: Job, reason: string, error: string, now: Time, snapshot: seq<CleanupTask>)
    | WantDelete(job: Job)
    | Deleting(job: Job)

  /** todo is what is left of the list the driver loaded; t runs the Schedule it waits for. */
  datatype Driver =
    | Idle
    | Working(now: Time, todo: seq<CleanupTask>)
    | Awaiting(now: Time, todo: seq<CleanupTask>, t: ThreadId, job: Job)

  datatype World = World(tasks: seq<CleanupTask>, taskMu: Option<ThreadId>, threads: map<ThreadId, Pc>, driver: Driver)

  datatype Action =
    | Begin(t: ThreadId, job: Job, reason: string)
    | CleanerFails(t: ThreadId, error: string)        // or the backend is not registered
    | CleanerSucceeds(t: ThreadId, job: Job)          // or reports not-found
    | Lock(t: ThreadId)
    | Load(t: ThreadId, now: Time)
    | Save(t: ThreadId, job: Job)                     // save and unlock: a failed Schedule is over
    | Delete(t: ThreadId, job: Job)                   // delete and unlock
    | DriverLoad(now: Time)
    | DriverSkip                                      // not due, or a Schedule that returns at once
    | DriverCall(t: ThreadId, job: Job)               // Schedule the next record's job
    | DriverNext                                      // that Schedule has returned
    | DriverDone

  /** Schedule calls that return without a Cleaner call and without touching the records. */
  predicate ReturnsAtOnce(c: Config, job: Job) {
    job.sandboxID == "" || c.dryRun || (job.backend in c.modules && !c.modules[job.backend])
  }

  predicate Enabled(c: Config, s: World, a: Action) {
    match a
    case Begin(t, job, _) =>
      t !in s.threads && Plain(job) && !ReturnsAtOnce(c, job) && !(s.driver.Awaiting? && s.driver.t == t)
    case CleanerFails(t, _) => t in s.threads && s.threads[t].Cleaning?
    case CleanerSucceeds(t, job) => t in s.threads && s.threads[t].Cleaning? && s.threads[t].job == job
    case Lock(t) => t in s.threads && (s.threads[t].WantSave? || s.threads[t].WantDelete?) && s.taskMu.None?
    case Load(t, now) => t in s.threads && s.threads[t].Locked? && now != 0
    case Save(t, job) => t in s.threads && s.threads[t].Loaded? && s.threads[t].job == job
    case Delete(t, job) => t in s.threads && s.threads[t].Deleting? && s.threads[t].job == job
    case DriverLoad(_) => s.driver.Idle?
    case DriverSkip => NextUp(s) && !Calls(c, s)
    case DriverCall(t, job) => NextUp(s) && Calls(c, s) && job == JobOf(s.driver.todo[0]) && t !in s.threads
    case DriverNext => s.driver.Awaiting? && s.driver.t !in s.threads
    case DriverDone => s.driver.Working? && s.driver.todo == []
  }

  predicate NextUp(s: World) {
    s.driver.Working? && s.driver.todo != []
  }

  /** The driver looks at the record as it loaded it. */
  predicate Calls(c: Config, s: World)
    requires NextUp(s)
  {
    Due(c, s.driver.todo[0], s.driver.now) && !ReturnsAtOnce(c, JobOf(s.driver.todo[0]))
  }

  function Set(s: World, t: ThreadId, pc: Pc): World {
    s.(threads := s.threads[t := pc])
  }

  /** The save works on the list that was loaded, not on the current one. */
  ghost function Do(c: Config, s: World, a: Action): World
    requires Enabled(c, s, a) && Inv(s)
  {
    match a
    case Begin(t, job, reason) => Set(s, t, Cleaning(job, reason))
    case CleanerFails(t, error) => Set(s, t, WantSave(s.threads[t].job, s.threads[t].reason, error))
    case CleanerSucceeds(t, job) => Set(s, t, WantDelete(job))
    case Lock(t) =>
      var x := s.threads[t];
      Set(s, t, if x.WantSave? then Locked(x.job, x.reason, x.error) else Deleting(x.job)).(taskMu := Some(t))
    case Load(t, now) =>
      var x := s.threads[t];
      Set(s, t, Loaded(x.job, x.reason, x.error, now, s.tasks))
    case Save(t, job) =>
      var x := s.threads[t];
      GoodFind(x.snapshot, TaskID(job));
      var record := Escalate(c.maxRetries, Find(x.snapshot, TaskID(job)), Fresh(job, x.reason), x.error, x.now);
      World(UpsertTask(s.tasks, record), None, s.threads - {t}, s.driver)
    case Delete(t, job) =>
      World(DropTasks(s.tasks, TaskID(job)), None, s.threads - {t}, s.driver)
    case DriverLoad(now) => s.(driver := Working(now, s.tasks))
    case DriverSkip => s.(driver := Working(s.driver.now, s.driver.todo[1..]))
    case DriverCall(t, job) =>
      Set(s, t, Cleaning(job, "retry")).(driver := Awaiting(s.driver.now, s.driver.todo[1..], t, job))
    case DriverNext => s.(driver := Working(s.driver.now, s.driver.todo))
    case DriverDone => s.(driver := Idle)
  }

  predicate Holding(pc: Pc) {
    pc.Locked? || pc.Loaded? || pc.Deleting?
  }

  /** Only the owner of taskMu is inside, so what it loaded is still what is stored. */
  ghost predicate Inv(s: World) {
    && Good(s.tasks)
    && (forall t :: t in s.threads && Holding(s.threads[t]) ==> s.taskMu == Some(t))
    && (forall t :: t in s.threads && s.threads[t].Loaded? ==> s.threads[t].snapshot == s.tasks && s.threads[t].now != 0)
    && (forall t :: t in s.threads ==> Plain(s.threads[t].job))
    && (!s.driver.Idle? ==> Good(s.driver.todo))
    && (s.driver.Awaiting? && s.driver.t in s.threads ==> s.threads[s.driver.t].job == s.driver.job)
    && (s.driver.Awaiting? ==> forall i :: 0 <= i < |s.driver.todo| ==> JobOf(s.driver.todo[i]) != s.driver.job)
  }

  ghost predicate Run(c: Config, s: World, actions: seq<Action>, s': World)
    requires Inv(s)
    decreases |actions|
  {
    if actions == [] then s' == s
    else
      && Enabled(c, s, actions[0])
      && (StepInv(c, s, actions[0]); Run(c, Do(c, s, actions[0]), actions[1..], s'))
  }

  lemma StepInv(c: Config, s: World, a: Action)
    requires Inv(s) && Enabled(c, s, a)
    ensures Inv(Do(c, s, a))
  {
    hide Good, Find, UpsertTask, DropTasks;
    match a
    case Save(t, job) =>
      var x := s.threads[t];
      FailureKeepsGood(c, s.tasks, job, x.reason, x.error, x.now);
    case Delete(t, job) =>
      DropKeepsGood(s.tasks, TaskID(job));
    case DriverSkip =>
      GoodTail(s.driver.todo);
    case DriverCall(t, job) =>
      GoodTail(s.driver.todo);
    case _ =>
  }

  /** What is left of a loaded list names other jobs than its head. */
  lemma GoodTail(tasks: seq<CleanupTask>)
    requires Good(tasks) && tasks != []
    ensures Good(tasks[1..]) && Plain(JobOf(tasks[0]))
    ensures forall i :: 0 <= i < |tasks[1..]| ==> JobOf(tasks[1..][i]) != JobOf(tasks[0])
  {
    assert GoodTask(tasks[0]);
    forall i | 0 <= i < |tasks[1..]|
      ensures GoodTask(tasks[1..][i]) && JobOf(tasks[1..][i]) != JobOf(tasks[0])
    {
      assert tasks[1..][i] == tasks[i + 1];
      assert tasks[0].id != tasks[i + 1].id;
    }
  }

  lemma DropKeepsGood(tasks: seq<CleanupTask>, id: string)
    requires Good(tasks)
    ensures Good(DropTasks(tasks, id))
  {
    DropUnique(tasks, id);
    DropMembers(tasks, id);
    forall i | 0 <= i < |DropTasks(tasks, id)|
      ensures GoodTask(DropTasks(tasks, id)[i])
    {
      assert DropTasks(tasks, id)[i] in tasks;
    }
  }

  lemma {:induction false} RunInv(c: Config, s: World, actions: seq<Action>, s': World)
    requires Inv(s) && Run(c, s, actions, s')
    ensures Inv(s')
    decreases |actions|
  {
    if actions != [] {
      StepInv(c, s, actions[0]);
      RunInv(c, Do(c, s, actions[0]), actions[1..], s');
    }
  }

  // ----- Counting -----

  function CountSaves(actions: seq<Action>, job: Job): nat {
    if actions == [] then 0
    else (if actions[0].Save? && actions[0].job == job then 1 else 0) + CountSaves(actions[1..], job)
  }

  predicate NoDelete(actions: seq<Action>, job: Job) {
    forall i :: 0 <= i < |actions| ==> !(actions[i].Delete? && actions[i].job == job)
  }

  /** What one step does to the record of one job. */
  lemma StepRecord(c: Config, s: World, a: Action, job: Job)
    requires Inv(s) && Enabled(c, s, a) && Plain(job)
    requires !(a.Delete? && a.job == job)
    ensures var before, after := Find(s.tasks, TaskID(job)), Find(Do(c, s, a).tasks, TaskID(job));
            && (a.Save? && a.job == job ==>
                  && after.Some? && after.value.attempts == Attempts(s.tasks, TaskID(job)) + 1
                  && JobOf(after.value) == job
                  && (before.Some? ==> after.value.createdAt == before.value.createdAt))
            && (!(a.Save? && a.job == job) ==> after == before)
  {
    hide Good, Find, UpsertTask, DropTasks;
    match a
    case Save(t, other) =>
      var x := s.threads[t];
      FailureExact(c, s.tasks, other, x.reason, x.error, x.now, TaskID(job));
      if TaskID(other) == TaskID(job) {
        TaskIDInjective(other, job);
      }
    case Delete(t, other) =>
      if TaskID(other) == TaskID(job) {
        TaskIDInjective(other, job);
      }
      FindDrop(s.tasks, TaskID(other), TaskID(job));
    case _ =>
  }

  /** Over any interleaving without a success of the job, N failed Schedules raise its attempts by
      exactly N, keep its creation time, and leave the record pointing at the same job. */
  lemma {:induction false} FailuresAreCounted(c: Config, s: World, actions: seq<Action>, s': World, job: Job)
    requires Inv(s) && Plain(job) && Run(c, s, actions, s') && NoDelete(actions, job)
    ensures Attempts(s'.tasks, TaskID(job)) == Attempts(s.tasks, TaskID(job)) + CountSaves(actions, job)
    ensures Find(s.tasks, TaskID(job)).Some? ==>
              && Find(s'.tasks, TaskID(job)).Some?
              && Find(s'.tasks, TaskID(job)).value.createdAt == Find(s.tasks, TaskID(job)).value.createdAt
    ensures CountSaves(actions, job) > 0 ==>
              Find(s'.tasks, TaskID(job)).Some? && JobOf(Find(s'.tasks, TaskID(job)).value) == job
    ensures CountSaves(actions, job) == 0 ==> Find(s'.tasks, TaskID(job)) == Find(s.tasks, TaskID(job))
    decreases |actions|
  {
    hide Good, Find;
    if actions != [] {
      StepInv(c, s, actions[0]);
      StepRecord(c, s, actions[0], job);
      var mid := Do(c, s, actions[0]);
      FailuresAreCounted(c, mid, actions[1..], s', job);
      assert NoDelete(actions[1..], job);
      RunInv(c, mid, actions[1..], s');
      RecordJob(s', job);
    }
  }

  lemma RecordJob(s: World, job: Job)
    requires Inv(s) && Plain(job)
    ensures Find(s.tasks, TaskID(job)).Some? ==> JobOf(Find(s.tasks, TaskID(job)).value) == job
  {
    GoodFind(s.tasks, TaskID(job));
    var t := Find(s.tasks, TaskID(job));
    if t.Some? {
      TaskIDInjective(JobOf(t.value), job);
    }
  }

  // ----- Retention -----

  /** A thread that is about to delete has seen its Cleaner succeed. */
  ghost predicate Earned(s: World, past: seq<Action>) {
    forall t :: t in s.threads && (s.threads[t].WantDelete? || s.threads[t].Deleting?) ==>
      CleanerSucceeds(t, s.threads[t].job) in past
  }

  lemma {:induction false} LostRecordWasCleaned(c: Config, s: World, past: seq<Action>, actions: seq<Action>, s': World, job: Job)
    requires Inv(s) && Earned(s, past) && Plain(job) && Run(c, s, actions, s')
    requires Find(s.tasks, TaskID(job)).Some? && Find(s'.tasks, TaskID(job)).None?
    ensures exists t :: CleanerSucceeds(t, job) in past + actions
    decreases |actions|
  {
    hide Good, Find;
    var a := actions[0];
    StepInv(c, s, a);
    var mid := Do(c, s, a);
    if a.Delete? && a.job == job {
      assert CleanerSucceeds(a.t, job) in past + actions;
    } else {
      StepRecord(c, s, a, job);
      EarnedStep(c, s, past, a);
      assert (past + [a]) + actions[1..] == past + actions;
      LostRecordWasCleaned(c, mid, past + [a], actions[1..], s', job);
    }
  }

  lemma EarnedStep(c: Config, s: World, past: seq<Action>, a: Action)
    requires Inv(s) && Enabled(c, s, a) && Earned(s, past)
    ensures Earned(Do(c, s, a), past + [a])
  {
    hide Good, Find, UpsertTask, DropTasks;
  }

  /** From a start without calls in progress, a record disappears only if the Cleaner of its own
      job succeeded or reported not-found during the run. */
  lemma RecordsAreRetained(c: Config, s: World, actions: seq<Action>, s': World, task: CleanupTask)
    requires Inv(s) && s.threads == map[] && Run(c, s, actions, s')
    requires task in s.tasks && Find(s'.tasks, task.id).None?
    ensures exists t :: CleanerSucceeds(t, JobOf(task)) in actions
  {
    var i :| 0 <= i < |s.tasks| && s.tasks[i] == task;
    FindIndex(s.tasks, i);
    LostRecordWasCleaned(c, s, [], actions, s', JobOf(task));
    assert [] + actions == actions;
  }

  // ----- One call at a time -----

  /** A call that returns at once does nothing at all. */
  lemma AtOnceDoesNothing(c: Config, tasks: seq<CleanupTask>, job: Job, reason: string, now: Time, outcome: CleanerOutcome)
    ensures var s := ScheduleOn(c, tasks, job, reason, now, outcome);
            ReturnsAtOnce(c, job) <==> !s.called && !s.failed
    ensures ReturnsAtOnce(c, job) ==> ScheduleOn(c, tasks, job, reason, now, outcome) == Scheduled(tasks, false, false)
  {
  }

  /** The steps of one Schedule, without others between them. */
  function StepsOf(t: ThreadId, job: Job, reason: string, now: Time, outcome: CleanerOutcome): seq<Action> {
    match outcome
    case Fails(error) => [Begin(t, job, reason), CleanerFails(t, error), Lock(t), Load(t, now), Save(t, job)]
    case _ => [Begin(t, job, reason), CleanerSucceeds(t, job), Lock(t), Delete(t, job)]
  }

  /** The steps for a backend that is not registered are those of a Cleaner that fails. */
  function Answer(c: Config, job: Job, outcome: CleanerOutcome): CleanerOutcome {
    if job.backend in c.modules then outcome else Fails("not registered")
  }

  /** Left alone, a thread goes through its steps and leaves the records as the serial call does. */
  lemma AloneIsSchedule(c: Config, s: World, t: ThreadId, job: Job, reason: string, now: Time, outcome: CleanerOutcome)
    returns (s': World)
    requires Inv(s) && t !in s.threads && s.taskMu.None? && s.driver.Idle? && Plain(job) && now != 0
    requires !ReturnsAtOnce(c, job)
    ensures Run(c, s, StepsOf(t, job, reason, now, Answer(c, job, outcome)), s')
    ensures s' == s.(tasks := ScheduleOn(c, s.tasks, job, reason, now, outcome).tasks)
  {
    hide Good, Find, UpsertTask, DropTasks, Run, SaveFailure;
    var begun, answer := Do(c, s, Begin(t, job, reason)), Answer(c, job, outcome);
    StepInv(c, s, Begin(t, job, reason));
    if answer.Fails? {
      var saving := [Load(t, now), Save(t, job)];
      var locked := FailAndLock(c, begun, t, answer.error, saving);
      s' := LoadAndSave(c, locked, t, now);
      RunFrom(c, s, Begin(t, job, reason), [CleanerFails(t, answer.error), Lock(t)] + saving, s');
      assert [Begin(t, job, reason)] + ([CleanerFails(t, answer.error), Lock(t)] + saving) == StepsOf(t, job, reason, now, answer);
    } else {
      s' := SucceedAndDelete(c, begun, t);
      RunFrom(c, s, Begin(t, job, reason), [CleanerSucceeds(t, job), Lock(t), Delete(t, job)], s');
      assert [Begin(t, job, reason)] + [CleanerSucceeds(t, job), Lock(t), Delete(t, job)] == StepsOf(t, job, reason, now, answer);
    }
    assert s'.threads == s.threads;
  }

  lemma SucceedAndDelete(c: Config, s: World, t: ThreadId) returns (s': World)
    requires Inv(s) && t in s.threads && s.threads[t].Cleaning? && s.taskMu.None?
    ensures Run(c, s, [CleanerSucceeds(t, s.threads[t].job), Lock(t), Delete(t, s.threads[t].job)], s')
    ensures s' == World(DropTasks(s.tasks, TaskID(s.threads[t].job)), None, s.threads - {t}, s.driver)
  {
    hide Good, DropTasks, Run;
    var job := s.threads[t].job;
    var done := Do(c, s, CleanerSucceeds(t, job));
    StepInv(c, s, CleanerSucceeds(t, job));
    var locked := Do(c, done, Lock(t));
    StepInv(c, done, Lock(t));
    s' := Do(c, locked, Delete(t, job));
    StepInv(c, locked, Delete(t, job));
    NoActions(c, s');
    RunFrom(c, locked, Delete(t, job), [], s');
    RunFrom(c, done, Lock(t), [Delete(t, job)] + [], s');
    RunFrom(c, s, CleanerSucceeds(t, job), [Lock(t)] + ([Delete(t, job)] + []), s');
    assert [CleanerSucceeds(t, job)] + ([Lock(t)] + ([Delete(t, job)] + [])) == [CleanerSucceeds(t, job), Lock(t), Delete(t, job)];
    assert s'.threads == s.threads - {t};
  }

  // ----- The driver's calls -----

  function CountDriverCalls(actions: seq<Action>, job: Job): nat {
    if actions == [] then 0
    else (if actions[0].DriverCall? && actions[0].job == job then 1 else 0) + CountDriverCalls(actions[1..], job)
  }

  predicate AwaitsJob(s: World, job: Job) {
    s.driver.Awaiting? && s.driver.job == job && s.driver.t in s.threads
  }

  /** After n calls on a job that started with `first` attempts: every finished call has been
      counted, and so has every call before the record was loaded. */
  ghost predicate Charged(c: Config, s: World, job: Job, first: int, n: nat) {
    && Attempts(s.tasks, TaskID(job)) >= first + n - (if AwaitsJob(s, job) then 1 else 0)
    && (!s.driver.Idle? ==>
          forall i :: 0 <= i < |s.driver.todo| && JobOf(s.driver.todo[i]) == job ==> s.driver.todo[i].attempts >= first + n)
    && (n == 0 || n <= c.maxRetries - first)
  }

  lemma ChargedStep(c: Config, s: World, a: Action, job: Job, first: int, n: nat)
    requires Inv(s) && Enabled(c, s, a) && Plain(job) && Charged(c, s, job, first, n)
    requires !(a.Delete? && a.job == job)
    ensures Charged(c, Do(c, s, a), job, first, if a.DriverCall? && a.job == job then n + 1 else n)
  {
    hide Find, UpsertTask, DropTasks, Good;
    StepRecord(c, s, a, job);
    if a.DriverLoad? {
      LoadedAttempts(s.tasks, job);
    } else if a.DriverCall? || a.DriverSkip? {
      var todo := s.driver.todo;
      GoodTail(todo);
      assert forall i :: 0 <= i < |todo[1..]| ==> todo[1..][i] == todo[i + 1];
    }
  }

  lemma LoadedAttempts(tasks: seq<CleanupTask>, job: Job)
    requires Good(tasks)
    ensures forall i :: 0 <= i < |tasks| && JobOf(tasks[i]) == job ==>
              Find(tasks, TaskID(job)) == Some(tasks[i]) && tasks[i].attempts == Attempts(tasks, TaskID(job))
  {
    forall i | 0 <= i < |tasks| && JobOf(tasks[i]) == job
      ensures Find(tasks, TaskID(job)) == Some(tasks[i])
    {
      FindIndex(tasks, i);
      assert GoodTask(tasks[i]);
    }
  }

  lemma {:induction false} ChargedRun(c: Config, s: World, actions: seq<Action>, s': World, job: Job, first: int, n: nat)
    requires Inv(s) && Run(c, s, actions, s') && Plain(job) && NoDelete(actions, job) && Charged(c, s, job, first, n)
    ensures Charged(c, s', job, first, n + CountDriverCalls(actions, job))
    decreases |actions|
  {
    hide Good, Find, Charged;
    if actions != [] {
      StepInv(c, s, actions[0]);
      ChargedStep(c, s, actions[0], job, first, n);
      assert NoDelete(actions[1..], job);
      ChargedRun(c, Do(c, s, actions[0]), actions[1..], s', job, first,
                 if actions[0].DriverCall? && actions[0].job == job then n + 1 else n);
    }
  }

  /** However other Schedule calls interleave, and however often the driver runs, it calls for one
      job at most MaxRetries - Attempts times while no success of the job is recorded. */
  lemma DriverCallsAreBounded(c: Config, s: World, actions: seq<Action>, s': World, job: Job)
    requires Inv(s) && s.driver.Idle? && Run(c, s, actions, s') && Plain(job) && NoDelete(actions, job)
    ensures CountDriverCalls(actions, job) == 0
            || CountDriverCalls(actions, job) <= c.maxRetries - Attempts(s.tasks, TaskID(job))
  {
    ChargedRun(c, s, actions, s', job, Attempts(s.tasks, TaskID(job)), 0);
  }

  // ----- Calls on a record that has changed since it was loaded -----

  predicate NoLoad(actions: seq<Action>) {
    forall i :: 0 <= i < |actions| ==> !actions[i].DriverLoad?
  }

  /** The clock that recorded failures read is not behind the driver's, nor that behind the zero time. */
  predicate ClockFrom(s: World, actions: seq<Action>, from: Time) {
    && from >= 0
    && (forall t :: t in s.threads && s.threads[t].Loaded? ==> s.threads[t].now >= from)
    && (forall i :: 0 <= i < |actions| && actions[i].Load? ==> actions[i].now >= from)
  }

  lemma {:induction false} TodoWasLoaded(c: Config, s: World, actions: seq<Action>, s': World, loaded: seq<CleanupTask>, now: Time)
    requires Inv(s) && Run(c, s, actions, s') && NoLoad(actions)
    requires !s.driver.Idle? ==> s.driver.now == now && forall x :: x in s.driver.todo ==> x in loaded
    ensures !s'.driver.Idle? ==> s'.driver.now == now && forall x :: x in s'.driver.todo ==> x in loaded
    decreases |actions|
  {
    hide Good, Find, UpsertTask, DropTasks;
    if actions != [] {
      StepInv(c, s, actions[0]);
      assert NoLoad(actions[1..]);
      assert !actions[0].DriverLoad?;
      TodoWasLoaded(c, Do(c, s, actions[0]), actions[1..], s', loaded, now);
    }
  }

  lemma SaveSetsRetry(c: Config, s: World, a: Action, from: Time)
    requires Inv(s) && Enabled(c, s, a) && a.Save? && Plain(a.job) && s.threads[a.t].now >= from >= 0
    ensures var after := Find(Do(c, s, a).tasks, TaskID(a.job)); after.Some? && !Due(c, after.value, from)
  {
    hide Good, Find, UpsertTask;
    var x := s.threads[a.t];
    FailureExact(c, s.tasks, a.job, x.reason, x.error, x.now, TaskID(a.job));
    var after := Find(Do(c, s, a).tasks, TaskID(a.job)).value;
    DelayPositive(after.attempts);
  }

  lemma DelayPositive(attempts: int)
    requires attempts >= 1
    ensures SECOND * Pow2(Min(attempts - 1, 6)) > 0
  {
    PowPositive(Min(attempts - 1, 6));
  }

  lemma {:induction false} PowPositive(n: nat)
    ensures Pow2(n) > 0
  {
    if n > 0 {
      PowPositive(n - 1);
    }
  }

  lemma {:induction false} FailedIsNotDue(c: Config, s: World, actions: seq<Action>, s': World, job: Job, from: Time)
    requires Inv(s) && Run(c, s, actions, s') && Plain(job) && NoDelete(actions, job) && ClockFrom(s, actions, from)
    requires CountSaves(actions, job) > 0
    ensures Find(s'.tasks, TaskID(job)).Some? && !Due(c, Find(s'.tasks, TaskID(job)).value, from)
    decreases |actions|
  {
    hide Good, Find, Due;
    var a, rest := actions[0], actions[1..];
    StepInv(c, s, a);
    var mid := Do(c, s, a);
    assert NoDelete(rest, job);
    ClockMoves(c, s, actions, from);
    if CountSaves(rest, job) > 0 {
      FailedIsNotDue(c, mid, rest, s', job, from);
    } else {
      SaveSetsRetry(c, s, a, from);
      FailuresAreCounted(c, mid, rest, s', job);
    }
  }

  lemma ClockMoves(c: Config, s: World, actions: seq<Action>, from: Time)
    requires Inv(s) && actions != [] && Enabled(c, s, actions[0]) && ClockFrom(s, actions, from)
    ensures ClockFrom(Do(c, s, actions[0]), actions[1..], from)
  {
    hide Good, Find, UpsertTask, DropTasks;
    assert actions[0].Load? ==> actions[0].now >= from;
  }

  /** What the driver's look at a stale record means, for every run since it loaded: when it calls,
      the stored count is at the limit if and only if the failures recorded since the load make up
      the difference; the stored record is the one it looked at if and only if there were none;
      and, as long as clocks run forward, the stored record is not due, so the call comes early or
      at the limit, if and only if there was one. */
  lemma CalledTooSoonIff(c: Config, s: World, actions: seq<Action>, s': World, t: ThreadId, job: Job)
    requires Inv(s) && s.driver.Working? && s.driver.todo == s.tasks
    requires Run(c, s, actions, s') && NoLoad(actions) && NoDelete(actions, job)
    requires Enabled(c, s', DriverCall(t, job))
    ensures var stored, failures := Find(s'.tasks, TaskID(job)), CountSaves(actions, job);
            && stored.Some?
            && (stored.value.attempts >= c.maxRetries <==> failures >= c.maxRetries - s'.driver.todo[0].attempts)
            && (stored.value == s'.driver.todo[0] <==> failures == 0)
            && (ClockFrom(s, actions, s.driver.now) ==> (!Due(c, stored.value, s'.driver.now) <==> failures > 0))
  {
    hide Good, Find;
    RunInv(c, s, actions, s');
    TodoWasLoaded(c, s, actions, s', s.tasks, s.driver.now);
    var record := s'.driver.todo[0];
    assert record in s.tasks;
    var i :| 0 <= i < |s.tasks| && s.tasks[i] == record;
    LoadedAttempts(s.tasks, job);
    GoodTail(s'.driver.todo);
    FailuresAreCounted(c, s, actions, s', job);
    if CountSaves(actions, job) > 0 && ClockFrom(s, actions, s.driver.now) {
      FailedIsNotDue(c, s, actions, s', job, s.driver.now);
    }
  }

  lemma RunFrom(c: Config, s: World, a: Action, rest: seq<Action>, s': World)
    requires Inv(s) && Enabled(c, s, a) && Inv(Do(c, s, a)) && Run(c, Do(c, s, a), rest, s')
    ensures Run(c, s, [a] + rest, s')
  {
    assert ([a] + rest)[1..] == rest;
  }

  lemma NoActions(c: Config, s: World)
    requires Inv(s)
    ensures Run(c, s, [], s)
  {
  }

  lemma LoadAndSave(c: Config, s: World, t: ThreadId, now: Time) returns (s': World)
    requires Inv(s) && t in s.threads && s.threads[t].Locked? && now != 0
    ensures Run(c, s, [Load(t, now), Save(t, s.threads[t].job)], s')
    ensures s'.threads == s.threads - {t} && s'.driver == s.driver && s'.taskMu.None?
    ensures var x := s.threads[t]; s'.tasks == SaveFailure(c, s.tasks, x.job, x.reason, x.error, now)
    ensures var id := TaskID(s.threads[t].job); Attempts(s'.tasks, id) == Attempts(s.tasks, id) + 1
  {
    hide Good, Find, UpsertTask, DropTasks, Run;
    var job := s.threads[t].job;
    var mid := Do(c, s, Load(t, now));
    StepInv(c, s, Load(t, now));
    s' := Do(c, mid, Save(t, job));
    StepInv(c, mid, Save(t, job));
    StepRecord(c, mid, Save(t, job), job);
    NoActions(c, s');
    RunFrom(c, mid, Save(t, job), [], s');
    assert [Save(t, job)] + [] == [Save(t, job)];
    RunFrom(c, s, Load(t, now), [Save(t, job)], s');
    assert [Load(t, now)] + [Save(t, job)] == [Load(t, now), Save(t, job)];
    assert s'.threads == s.threads - {t};
  }

  lemma FailAndLock(c: Config, s: World, t: ThreadId, error: string, rest: seq<Action>) returns (mid: World)
    requires Inv(s) && t in s.threads && s.threads[t].Cleaning? && s.taskMu.None?
    ensures Inv(mid) && mid.tasks == s.tasks && mid.driver == s.driver
    ensures mid.threads == s.threads[t := Locked(s.threads[t].job, s.threads[t].reason, error)]
    ensures forall s' :: Run(c, mid, rest, s') ==> Run(c, s, [CleanerFails(t, error), Lock(t)] + rest, s')
  {
    hide Good, Run;
    var failed := Do(c, s, CleanerFails(t, error));
    StepInv(c, s, CleanerFails(t, error));
    mid := Do(c, failed, Lock(t));
    StepInv(c, failed, Lock(t));
    forall s' | Run(c, mid, rest, s')
      ensures Run(c, s, [CleanerFails(t, error), Lock(t)] + rest, s')
    {
      RunFrom(c, failed, Lock(t), rest, s');
      RunFrom(c, s, CleanerFails(t, error), [Lock(t)] + rest, s');
      assert [CleanerFails(t, error)] + ([Lock(t)] + rest) == [CleanerFails(t, error), Lock(t)] + rest;
    }
  }

  /** And it does happen: one other failure between load and call, for any record that is one
      attempt away from the limit. */
  lemma CalledAtLimit(c: Config, record: CleanupTask, now: Time, error: string)
    returns (s: World, actions: seq<Action>, s': World)
    requires GoodTask(record) && !ReturnsAtOnce(c, JobOf(record)) && now != 0
    requires record.attempts == c.maxRetries - 1 && Due(c, record, now)
    ensures Inv(s) && s.driver == Working(now, s.tasks) && s.tasks == [record]
    ensures Run(c, s, actions, s') && NoLoad(actions) && NoDelete(actions, JobOf(record))
    ensures Enabled(c, s', DriverCall(2, JobOf(record)))
    ensures Attempts(s'.tasks, record.id) == c.maxRetries
  {
    var job := JobOf(record);
    assert Good([record]);
    FindIndex([record], 0);
    hide Good, Find, Run, Due;
    s := World([record], None, map[], Working(now, [record]));
    var begun := Do(c, s, Begin(1, job, "other"));
    StepInv(c, s, Begin(1, job, "other"));
    var saving := [Load(1, now), Save(1, job)];
    var locked := FailAndLock(c, begun, 1, error, saving);
    s' := LoadAndSave(c, locked, 1, now);
    RunFrom(c, s, Begin(1, job, "other"), [CleanerFails(1, error), Lock(1)] + saving, s');
    actions := [Begin(1, job, "other")] + ([CleanerFails(1, error), Lock(1)] + saving);
  }
}
