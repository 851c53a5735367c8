/** The cleanup manager: task identity, the record a failed cleanup leaves behind, and the retry
    driver that works through the records. */
module Cleanup {
  import opened Options
  import opened PersistedState
  import opened StateStore

  /** What a cleanup is about. */
  datatype Job = Job(backend: string, resourceType: string, sandboxID: string)

  // ----- Task identity -----

  function TaskID(j: Job): string {
    j.backend + ":" + j.resourceType + ":" + j.sandboxID
  }

  function JobOf(t: CleanupTask): Job {
    Job(t.runtime, t.resourceType, t.sandboxID)
  }

  predicate Plain(j: Job) {
    ':' !in j.backend && ':' !in j.resourceType
  }

  /** The length of the part before the first colon. */
  function Head(s: string): (n: nat)
    ensures n <= |s| && ':' !in s[..n] && (n < |s| ==> s[n] == ':')
  {
    if s == "" || s[0] == ':' then 0 else
    var n := 1 + Head(s[1..]);
    assert s[..n] == [s[0]] + s[1..][..n - 1];
    n
  }

  function Tail(s: string): string {
    if Head(s) < |s| then s[Head(s) + 1..] else ""
  }

  /** Reading an ID from the left. */
  function ReadID(id: string): Job {
    var rest := Tail(id);
    Job(id[..Head(id)], rest[..Head(rest)], Tail(rest))
  }

  lemma {:induction false} SplitAtColon(a: string, b: string)
    requires ':' !in a
    ensures Head(a + ":" + b) == |a| && Tail(a + ":" + b) == b
  {
    var s := a + ":" + b;
    if a == "" {
      assert s[1..] == b;
    } else {
      SplitAtColon(a[1..], b);
      assert s[1..] == a[1..] + ":" + b;
    }
  }

  lemma {:induction false} HeadBound(s: string, i: nat)
    requires i < |s| && s[i] == ':'
    ensures Head(s) <= i
  {
    if i > 0 && s[0] != ':' {
      HeadBound(s[1..], i - 1);
    }
  }

  /** An ID reads back as its job exactly when neither backend nor resource contains a colon. */
  lemma TaskIDReadsBack(j: Job)
    ensures ReadID(TaskID(j)) == j <==> Plain(j)
  {
    var rest := j.resourceType + ":" + j.sandboxID;
    assert TaskID(j) == j.backend + ":" + rest;
    if Plain(j) {
      SplitAtColon(j.backend, rest);
      SplitAtColon(j.resourceType, j.sandboxID);
      assert TaskID(j)[..|j.backend|] == j.backend;
      assert rest[..|j.resourceType|] == j.resourceType;
    }
  }

  /** So on colon-free names the ID determines the job, and every other job shares its ID with a
      different, colon-free one. */
  lemma TaskIDInjective(a: Job, b: Job)
    requires Plain(a) && Plain(b) && TaskID(a) == TaskID(b)
    ensures a == b
  {
    TaskIDReadsBack(a);
    TaskIDReadsBack(b);
  }

  lemma CutAt(s: string, n: nat)
    requires n < |s| && s[n] == ':'
    ensures s == s[..n] + ":" + s[n + 1..]
  {
    assert s == s[..n] + [s[n]] + s[n + 1..];
  }

  lemma ReadBackID(id: string)
    requires Head(id) < |id| && Head(Tail(id)) < |Tail(id)|
    ensures TaskID(ReadID(id)) == id && Plain(ReadID(id))
  {
    var rest := Tail(id);
    CutAt(id, Head(id));
    CutAt(rest, Head(rest));
    hide Head;
    JoinID(id[..Head(id)], rest[..Head(rest)], Tail(rest));
  }

  lemma JoinID(a: string, b: string, c: string)
    ensures TaskID(Job(a, b, c)) == a + ":" + (b + ":" + c)
  {
  }

  lemma ColonsCollide(j: Job)
    requires !Plain(j)
    ensures exists k :: k != j && Plain(k) && TaskID(k) == TaskID(j)
  {
    hide Head, ReadID, TaskID;
    TaskIDReadsBack(j);
    TwoColons(j);
    ReadBackID(TaskID(j));
  }

  lemma TwoColons(j: Job)
    ensures Head(TaskID(j)) < |TaskID(j)| && Head(Tail(TaskID(j))) < |Tail(TaskID(j))|
  {
    var id := TaskID(j);
    var first, second := |j.backend|, |j.backend| + 1 + |j.resourceType|;
    assert id[first] == ':' && id[second] == ':';
    HeadBound(id, first);
    HeadBound(Tail(id), second - Head(id) - 1);
  }

  // ----- Records by ID -----

  /** The first record with the ID. */
  function Find(tasks: seq<CleanupTask>, id: string): Option<CleanupTask> {
    if tasks == [] then None else
    var earlier := Find(tasks[..|tasks| - 1], id);
    if earlier.Some? then earlier
    else if tasks[|tasks| - 1].id == id then Some(tasks[|tasks| - 1])
    else None
  }

  ghost predicate Unique(tasks: seq<CleanupTask>) {
    forall i, j :: 0 <= i < j < |tasks| ==> tasks[i].id != tasks[j].id
  }

  lemma {:induction false} FindSome(tasks: seq<CleanupTask>, id: string)
    ensures Find(tasks, id).Some? <==> HasTask(tasks, id)
    ensures Find(tasks, id).Some? ==> Find(tasks, id).value in tasks && Find(tasks, id).value.id == id
  {
    if tasks != [] {
      var earlier := tasks[..|tasks| - 1];
      FindSome(earlier, id);
      assert tasks == earlier + [tasks[|tasks| - 1]];
      assert forall i :: 0 <= i < |earlier| ==> tasks[i] == earlier[i];
    }
  }

  lemma {:induction false} FindStays(tasks: seq<CleanupTask>, n: nat, id: string)
    requires n <= |tasks| && Find(tasks[..n], id).Some?
    ensures Find(tasks, id) == Find(tasks[..n], id)
  {
    if n < |tasks| {
      assert tasks[..|tasks| - 1][..n] == tasks[..n];
      FindStays(tasks[..|tasks| - 1], n, id);
    } else {
      assert tasks[..n] == tasks;
    }
  }

  lemma {:induction false} FindReplace(tasks: seq<CleanupTask>, t: CleanupTask, id: string)
    ensures Find(ReplaceTasks(tasks, t), id) ==
            if id == t.id && Find(tasks, id).Some? then Some(t) else Find(tasks, id)
  {
    if tasks != [] {
      assert ReplaceTasks(tasks, t)[..|tasks| - 1] == ReplaceTasks(tasks[..|tasks| - 1], t);
      FindReplace(tasks[..|tasks| - 1], t, id);
    }
  }

  /** Saving a task sets the record of its ID and no other. */
  lemma FindUpsert(tasks: seq<CleanupTask>, t: CleanupTask, id: string)
    ensures Find(UpsertTask(tasks, t), id) == if id == t.id then Some(t) else Find(tasks, id)
  {
    FindSome(tasks, t.id);
    FindReplace(tasks, t, id);
    assert (tasks + [t])[..|tasks|] == tasks;
  }

  lemma {:induction false} FindDrop(tasks: seq<CleanupTask>, gone: string, id: string)
    ensures Find(DropTasks(tasks, gone), id) == if id == gone then None else Find(tasks, id)
  {
    if tasks != [] {
      var earlier, last := tasks[..|tasks| - 1], tasks[|tasks| - 1];
      FindDrop(earlier, gone, id);
      var kept := DropTasks(earlier, gone) + [last];
      assert kept[..|kept| - 1] == DropTasks(earlier, gone);
    }
  }

  lemma UpsertUnique(tasks: seq<CleanupTask>, t: CleanupTask)
    requires Unique(tasks)
    ensures Unique(UpsertTask(tasks, t))
  {
  }

  lemma {:induction false} DropMembers(tasks: seq<CleanupTask>, gone: string)
    ensures forall t :: t in DropTasks(tasks, gone) <==> t in tasks && t.id != gone
  {
    if tasks != [] {
      DropMembers(tasks[..|tasks| - 1], gone);
      assert tasks == tasks[..|tasks| - 1] + [tasks[|tasks| - 1]];
    }
  }

  lemma {:induction false} DropUnique(tasks: seq<CleanupTask>, gone: string)
    requires Unique(tasks)
    ensures Unique(DropTasks(tasks, gone))
  {
    if tasks != [] {
      var earlier, last := tasks[..|tasks| - 1], tasks[|tasks| - 1];
      DropUnique(earlier, gone);
      DropMembers(earlier, gone);
      forall i | 0 <= i < |DropTasks(earlier, gone)|
        ensures DropTasks(earlier, gone)[i].id != last.id
      {
        assert DropTasks(earlier, gone)[i] in earlier;
      }
    }
  }

  // ----- The record of a failed cleanup -----

  const SECOND: Time := 1_000_000_000

  function Pow2(n: nat): nat {
    if n == 0 then 1 else 2 * Pow2(n - 1)
  }

  function Min(a: int, b: int): int {
    if a < b then a else b
  }

  /** time.Second << min(attempts-1, 6); a count below one is ShiftPanics' business. */
  function Delay(attempts: int): Time {
    if attempts < 1 then 0 else SECOND * Pow2(Min(attempts - 1, 6))
  }

  function NextRetry(maxRetries: int, attempts: int, now: Time): Time {
    if attempts < maxRetries then now + Delay(attempts) else 0
  }

  /** Shifting by a negative count panics: the stored record had a negative number of attempts. */
  predicate ShiftPanics(c: Config, tasks: seq<CleanupTask>, job: Job) {
    var stored := Find(tasks, TaskID(job));
    stored.Some? && stored.value.attempts < 0 && stored.value.attempts + 1 < c.maxRetries
  }

  /** The record after one more failure: the stored one if there is one, else the fresh one. */
  function Escalate(maxRetries: int, stored: Option<CleanupTask>, first: CleanupTask, error: string, now: Time): CleanupTask {
    var t := if stored.Some? then stored.value else first;
    Stamp(t.(attempts := t.attempts + 1,
             lastError := error,
             nextRetryAt := NextRetry(maxRetries, t.attempts + 1, now)), now)
  }

  function Fresh(job: Job, reason: string): CleanupTask {
    CleanupTask(TaskID(job), job.backend, job.sandboxID, job.resourceType, reason, 0, "", 0, 0, 0)
  }

  // ----- One Schedule call -----

  datatype CleanerOutcome = Succeeds | ReportsNotFound | Fails(error: string)

  /** The configuration; modules maps each registered backend to whether it has a Cleaner. */
  datatype Config = Config(maxRetries: int, dryRun: bool, modules: map<string, bool>)

  /** The records of a store this manager has written: one per ID, keyed by their own job, with
      names that keep IDs apart. */
  ghost predicate Good(tasks: seq<CleanupTask>) {
    && Unique(tasks)
    && (forall i :: 0 <= i < |tasks| ==> GoodTask(tasks[i]))
  }

  predicate GoodTask(t: CleanupTask) {
    t.id == TaskID(JobOf(t)) && Plain(JobOf(t)) && t.attempts >= 0 && t.createdAt != 0
  }

  datatype Scheduled = Scheduled(tasks: seq<CleanupTask>, called: bool, failed: bool)

  function SaveFailure(c: Config, tasks: seq<CleanupTask>, job: Job, reason: string, error: string, now: Time): seq<CleanupTask> {
    UpsertTask(tasks, Escalate(c.maxRetries, Find(tasks, TaskID(job)), Fresh(job, reason), error, now))
  }

  /** called: the Cleaner ran; failed: the result carries an error, flush errors aside. */
  function ScheduleOn(c: Config, tasks: seq<CleanupTask>, job: Job, reason: string, now: Time, outcome: CleanerOutcome): Scheduled {
    if job.sandboxID == "" || c.dryRun then Scheduled(tasks, false, false)
    else if job.backend !in c.modules then
      Scheduled(SaveFailure(c, tasks, job, reason, "not registered", now), false, true)
    else if !c.modules[job.backend] then Scheduled(tasks, false, false)
    else match outcome
      case Fails(error) => Scheduled(SaveFailure(c, tasks, job, reason, error, now), true, true)
      case _ => Scheduled(DropTasks(tasks, TaskID(job)), true, false)
  }

  /** The branches that record a failure. */
  predicate RecordsFailure(c: Config, job: Job, outcome: CleanerOutcome) {
    && job.sandboxID != "" && !c.dryRun
    && (job.backend !in c.modules || (c.modules[job.backend] && outcome.Fails?))
  }

  function Attempts(tasks: seq<CleanupTask>, id: string): int {
    var t := Find(tasks, id);
    if t.Some? then t.value.attempts else 0
  }

  /** Cleaner calls the driver may still make for the record. */
  function Budget(c: Config, tasks: seq<CleanupTask>, id: string): nat {
    var t := Find(tasks, id);
    if t.None? || t.value.attempts >= c.maxRetries then 0 else c.maxRetries - t.value.attempts
  }

  lemma GoodFind(tasks: seq<CleanupTask>, id: string)
    requires Good(tasks)
    ensures Find(tasks, id).Some? ==> GoodTask(Find(tasks, id).value) && Find(tasks, id).value.id == id
  {
    FindSome(tasks, id);
  }

  lemma FailureKeepsGood(c: Config, tasks: seq<CleanupTask>, job: Job, reason: string, error: string, now: Time)
    requires Good(tasks) && Plain(job) && now != 0
    ensures Good(SaveFailure(c, tasks, job, reason, error, now))
  {
    GoodFind(tasks, TaskID(job));
    var t := Escalate(c.maxRetries, Find(tasks, TaskID(job)), Fresh(job, reason), error, now);
    assert GoodTask(t) && t.id == TaskID(job);
    UpsertUnique(tasks, t);
  }

  /** A failure adds one attempt to the job's record, keeps its creation time and its job, sets
      the next retry by the capped exponential rule, and touches no other record. */
  lemma FailureExact(c: Config, tasks: seq<CleanupTask>, job: Job, reason: string, error: string, now: Time, id: string)
    requires Good(tasks) && Plain(job)
    ensures var before := Find(tasks, id);
            var after := Find(SaveFailure(c, tasks, job, reason, error, now), id);
            && (id != TaskID(job) ==> after == before)
            && (id == TaskID(job) ==>
                  && after.Some? && after.value.attempts == Attempts(tasks, id) + 1 && after.value.attempts >= 1
                  && JobOf(after.value) == job
                  && after.value.createdAt == (if before.Some? then before.value.createdAt else now)
                  && after.value.reason == (if before.Some? then before.value.reason else reason)
                  && after.value.lastError == error && after.value.updatedAt == now
                  && after.value.nextRetryAt ==
                     (if after.value.attempts < c.maxRetries
                      then now + SECOND * Pow2(Min(after.value.attempts - 1, 6)) else 0))
  {
    GoodFind(tasks, TaskID(job));
    var stored := Find(tasks, TaskID(job));
    if stored.Some? {
      TaskIDInjective(JobOf(stored.value), job);
    }
    FindUpsert(tasks, Escalate(c.maxRetries, stored, Fresh(job, reason), error, now), id);
  }

  /** The delays: one second, doubling with each attempt, and 64 seconds from the seventh on. */
  lemma DelayExact(attempts: int)
    requires attempts >= 1
    ensures Delay(1) == 1_000_000_000
    ensures attempts < 7 ==> Delay(attempts + 1) == 2 * Delay(attempts)
    ensures attempts >= 7 ==> Delay(attempts) == 64_000_000_000
  {
    assert Pow2(0) == 1 && Pow2(1) == 2 && Pow2(2) == 4 && Pow2(3) == 8;
    assert Pow2(4) == 16 && Pow2(5) == 32 && Pow2(6) == 64;
  }

  /** What a Schedule comes to: the Cleaner runs exactly for a named sandbox, outside a dry run, on a
      registered backend that has one; it fails exactly when the backend is not registered or the
      Cleaner fails; and every record stays but that of a job whose Cleaner did not fail. */
  lemma ScheduleExact(c: Config, tasks: seq<CleanupTask>, job: Job, reason: string, now: Time, outcome: CleanerOutcome, id: string)
    ensures var s := ScheduleOn(c, tasks, job, reason, now, outcome);
            && (s.called <==> job.sandboxID != "" && !c.dryRun && job.backend in c.modules && c.modules[job.backend])
            && (s.failed <==> RecordsFailure(c, job, outcome))
            && (s.failed <==> job.sandboxID != "" && !c.dryRun
                              && (job.backend !in c.modules || (c.modules[job.backend] && outcome.Fails?)))
            && (!s.called && !s.failed ==> s.tasks == tasks)
            && (s.failed ==> Find(s.tasks, TaskID(job)).Some?)
            && (Find(tasks, id).Some? && Find(s.tasks, id).None? <==>
                  Find(tasks, id).Some? && id == TaskID(job) && s.called && !outcome.Fails?)
  {
    hide UpsertTask, DropTasks, Find;
    FindDrop(tasks, TaskID(job), id);
    FindSome(tasks, TaskID(job));
    var error := if outcome.Fails? then outcome.error else "";
    forall e
      ensures Find(SaveFailure(c, tasks, job, reason, e, now), TaskID(job)).Some?
      ensures Find(tasks, id).Some? ==> Find(SaveFailure(c, tasks, job, reason, e, now), id).Some?
    {
      var t := Escalate(c.maxRetries, Find(tasks, TaskID(job)), Fresh(job, reason), e, now);
      FindUpsert(tasks, t, id);
      FindUpsert(tasks, t, TaskID(job));
    }
  }

  // ----- The retry driver -----

  predicate Due(c: Config, t: CleanupTask, now: Time) {
    t.attempts < c.maxRetries && (t.nextRetryAt == 0 || t.nextRetryAt <= now)
  }

  datatype Pass = Pass(tasks: seq<CleanupTask>, calls: seq<Job>)

  /** The driver's loop over the first n tasks of the list it loaded. */
  ghost function Retry(c: Config, loaded: seq<CleanupTask>, n: nat, now: Time, oracle: nat -> CleanerOutcome): (p: Pass)
    requires n <= |loaded| && Good(loaded) && now != 0
    ensures Good(p.tasks)
  {
    if n == 0 then Pass(loaded, []) else
    var p := Retry(c, loaded, n - 1, now, oracle);
    var t := loaded[n - 1];
    if !Due(c, t, now) then p else
    var s := ScheduleOn(c, p.tasks, JobOf(t), "retry", now, oracle(n - 1));
    assert Good(s.tasks) by {
      ScheduleKeepsGood(c, p.tasks, JobOf(t), "retry", now, oracle(n - 1));
    }
    Pass(s.tasks, if s.called then p.calls + [JobOf(t)] else p.calls)
  }

  /** The i-th record of the list is due and its Schedule returns an error. */
  ghost predicate RetryFails(c: Config, loaded: seq<CleanupTask>, i: nat, now: Time, oracle: nat -> CleanerOutcome, flushOk: bool)
    requires i < |loaded| && Good(loaded) && now != 0
  {
    var s := ScheduleOn(c, Retry(c, loaded, i, now, oracle).tasks, JobOf(loaded[i]), "retry", now, oracle(i));
    Due(c, loaded[i], now) && (s.failed || (s.called && !flushOk))
  }

  lemma ScheduleKeepsGood(c: Config, tasks: seq<CleanupTask>, job: Job, reason: string, now: Time, outcome: CleanerOutcome)
    requires Good(tasks) && Plain(job) && now != 0
    ensures Good(ScheduleOn(c, tasks, job, reason, now, outcome).tasks)
  {
    DropUnique(tasks, TaskID(job));
    DropMembers(tasks, TaskID(job));
    if outcome.Fails? {
      FailureKeepsGood(c, tasks, job, reason, outcome.error, now);
    }
    FailureKeepsGood(c, tasks, job, reason, "not registered", now);
    var dropped := DropTasks(tasks, TaskID(job));
    forall i | 0 <= i < |dropped|
      ensures GoodTask(dropped[i])
    {
      assert dropped[i] in tasks;
    }
  }

  function CountCalls(calls: seq<Job>, job: Job): nat {
    if calls == [] then 0 else CountCalls(calls[..|calls| - 1], job) + if calls[|calls| - 1] == job then 1 else 0
  }

  lemma ScheduleSpares(c: Config, tasks: seq<CleanupTask>, job: Job, reason: string, now: Time, outcome: CleanerOutcome, id: string)
    requires Good(tasks) && Plain(job) && id != TaskID(job)
    ensures Find(ScheduleOn(c, tasks, job, reason, now, outcome).tasks, id) == Find(tasks, id)
  {
    FindDrop(tasks, TaskID(job), id);
    if outcome.Fails? {
      FailureExact(c, tasks, job, reason, outcome.error, now, id);
    }
    FailureExact(c, tasks, job, reason, "not registered", now, id);
  }

  /** A Cleaner call uses up one unit of the record's budget; nothing raises the budget. */
  lemma ScheduleSpendsBudget(c: Config, tasks: seq<CleanupTask>, job: Job, reason: string, now: Time, outcome: CleanerOutcome)
    requires Good(tasks) && Plain(job) && Find(tasks, TaskID(job)).Some? && Attempts(tasks, TaskID(job)) < c.maxRetries
    ensures var s := ScheduleOn(c, tasks, job, reason, now, outcome);
            Budget(c, s.tasks, TaskID(job)) + (if s.called then 1 else 0) <= Budget(c, tasks, TaskID(job))
  {
    var id := TaskID(job);
    GoodFind(tasks, id);
    FindDrop(tasks, id, id);
    if outcome.Fails? {
      FailureExact(c, tasks, job, reason, outcome.error, now, id);
    }
    FailureExact(c, tasks, job, reason, "not registered", now, id);
  }

  lemma {:induction false} FindIndex(tasks: seq<CleanupTask>, i: nat)
    requires Unique(tasks) && i < |tasks|
    ensures Find(tasks, tasks[i].id) == Some(tasks[i])
  {
    FindSome(tasks, tasks[i].id);
    assert HasTask(tasks, tasks[i].id);
    var t := Find(tasks, tasks[i].id).value;
    var j :| 0 <= j < |tasks| && tasks[j] == t;
  }

  /** What the loop has not reached is untouched, and what it has done stays within budget. */
  lemma {:induction false} RetryWithinBudget(c: Config, loaded: seq<CleanupTask>, n: nat, now: Time, oracle: nat -> CleanerOutcome, job: Job)
    requires n <= |loaded| && Good(loaded) && now != 0 && Plain(job)
    ensures var p := Retry(c, loaded, n, now, oracle);
            && CountCalls(p.calls, job) + Budget(c, p.tasks, TaskID(job)) <= Budget(c, loaded, TaskID(job))
            && (forall i :: n <= i < |loaded| ==> Find(p.tasks, loaded[i].id) == Some(loaded[i]))
            && CountCalls(p.calls, job) <= 1
            && ((forall i :: 0 <= i < n ==> JobOf(loaded[i]) != job) ==> CountCalls(p.calls, job) == 0)
    decreases n
  {
    if n == 0 {
      forall i | 0 <= i < |loaded|
        ensures Find(loaded, loaded[i].id) == Some(loaded[i])
      {
        FindIndex(loaded, i);
      }
    } else {
      RetryWithinBudget(c, loaded, n - 1, now, oracle, job);
      var p, t := Retry(c, loaded, n - 1, now, oracle), loaded[n - 1];
      if Due(c, t, now) {
        RetryStep(c, loaded, n, now, oracle, p, job);
      }
    }
  }

  lemma RetryStep(c: Config, loaded: seq<CleanupTask>, n: nat, now: Time, oracle: nat -> CleanerOutcome, p: Pass, job: Job)
    requires 0 < n <= |loaded| && Good(loaded) && now != 0 && Plain(job) && Due(c, loaded[n - 1], now)
    requires p == Retry(c, loaded, n - 1, now, oracle)
    requires CountCalls(p.calls, job) + Budget(c, p.tasks, TaskID(job)) <= Budget(c, loaded, TaskID(job))
    requires forall i :: n - 1 <= i < |loaded| ==> Find(p.tasks, loaded[i].id) == Some(loaded[i])
    requires CountCalls(p.calls, job) <= 1
    requires (forall i :: 0 <= i < n - 1 ==> JobOf(loaded[i]) != job) ==> CountCalls(p.calls, job) == 0
    ensures var q := Retry(c, loaded, n, now, oracle);
            && CountCalls(q.calls, job) + Budget(c, q.tasks, TaskID(job)) <= Budget(c, loaded, TaskID(job))
            && (forall i :: n <= i < |loaded| ==> Find(q.tasks, loaded[i].id) == Some(loaded[i]))
            && CountCalls(q.calls, job) <= 1
            && ((forall i :: 0 <= i < n ==> JobOf(loaded[i]) != job) ==> CountCalls(q.calls, job) == 0)
  {
    var t := loaded[n - 1];
    var q := Retry(c, loaded, n, now, oracle);
    hide Retry, ScheduleOn, Find, Good;
    DriverScheduled(c, loaded, n, now, oracle, p, q);
    CountOne(p.calls, JobOf(t), job);
    forall i | n <= i < |loaded|
      ensures Find(q.tasks, loaded[i].id) == Some(loaded[i])
    {
      SpareLater(c, loaded, n, now, oracle, p, i);
    }
    if JobOf(t) == job {
      SpendHere(c, loaded, n, now, oracle, p);
      NoneBefore(loaded, n, job);
    } else {
      SpareJob(c, loaded, n, now, oracle, p, job);
    }
  }

  lemma CountOne(calls: seq<Job>, job: Job, counted: Job)
    ensures CountCalls(calls + [job], counted) == CountCalls(calls, counted) + if job == counted then 1 else 0
  {
    assert (calls + [job])[..|calls|] == calls;
  }

  lemma DriverScheduled(c: Config, loaded: seq<CleanupTask>, n: nat, now: Time, oracle: nat -> CleanerOutcome, p: Pass, q: Pass)
    requires 0 < n <= |loaded| && Good(loaded) && now != 0 && Due(c, loaded[n - 1], now)
    requires p == Retry(c, loaded, n - 1, now, oracle) && q == Retry(c, loaded, n, now, oracle)
    ensures Good(p.tasks) && GoodTask(loaded[n - 1])
    ensures var s := ScheduleOn(c, p.tasks, JobOf(loaded[n - 1]), "retry", now, oracle(n - 1));
            q == Pass(s.tasks, if s.called then p.calls + [JobOf(loaded[n - 1])] else p.calls)
  {
  }

  lemma SpareLater(c: Config, loaded: seq<CleanupTask>, n: nat, now: Time, oracle: nat -> CleanerOutcome, p: Pass, i: nat)
    requires 0 < n <= i < |loaded| && Good(loaded) && Good(p.tasks)
    ensures Find(ScheduleOn(c, p.tasks, JobOf(loaded[n - 1]), "retry", now, oracle(n - 1)).tasks, loaded[i].id)
            == Find(p.tasks, loaded[i].id)
  {
    ScheduleSpares(c, p.tasks, JobOf(loaded[n - 1]), "retry", now, oracle(n - 1), loaded[i].id);
  }

  lemma SpareJob(c: Config, loaded: seq<CleanupTask>, n: nat, now: Time, oracle: nat -> CleanerOutcome, p: Pass, job: Job)
    requires 0 < n <= |loaded| && Good(loaded) && Good(p.tasks) && Plain(job) && JobOf(loaded[n - 1]) != job
    ensures Budget(c, ScheduleOn(c, p.tasks, JobOf(loaded[n - 1]), "retry", now, oracle(n - 1)).tasks, TaskID(job))
            == Budget(c, p.tasks, TaskID(job))
  {
    var other := JobOf(loaded[n - 1]);
    if TaskID(other) == TaskID(job) {
      TaskIDInjective(other, job);
    }
    ScheduleSpares(c, p.tasks, other, "retry", now, oracle(n - 1), TaskID(job));
  }

  lemma SpendHere(c: Config, loaded: seq<CleanupTask>, n: nat, now: Time, oracle: nat -> CleanerOutcome, p: Pass)
    requires 0 < n <= |loaded| && Good(loaded) && Good(p.tasks) && Due(c, loaded[n - 1], now)
    requires Find(p.tasks, loaded[n - 1].id) == Some(loaded[n - 1])
    ensures var job := JobOf(loaded[n - 1]);
            var s := ScheduleOn(c, p.tasks, job, "retry", now, oracle(n - 1));
            Budget(c, s.tasks, TaskID(job)) + (if s.called then 1 else 0) <= Budget(c, p.tasks, TaskID(job))
  {
    ScheduleSpendsBudget(c, p.tasks, JobOf(loaded[n - 1]), "retry", now, oracle(n - 1));
  }

  lemma NoneBefore(loaded: seq<CleanupTask>, n: nat, job: Job)
    requires 0 < n <= |loaded| && Good(loaded) && JobOf(loaded[n - 1]) == job
    ensures forall i :: 0 <= i < n - 1 ==> JobOf(loaded[i]) != job
  {
    forall i | 0 <= i < n - 1
      ensures JobOf(loaded[i]) != job
    {
      assert loaded[i].id != loaded[n - 1].id;
    }
  }

  // ----- Many passes -----

  datatype Tick = Tick(now: Time, oracle: nat -> CleanerOutcome)

  ghost function Drive(c: Config, tasks: seq<CleanupTask>, ticks: seq<Tick>): (p: Pass)
    requires Good(tasks) && forall i :: 0 <= i < |ticks| ==> ticks[i].now != 0
    ensures Good(p.tasks)
  {
    if ticks == [] then Pass(tasks, []) else
    var p := Drive(c, tasks, ticks[..|ticks| - 1]);
    var tick := ticks[|ticks| - 1];
    var q := Retry(c, p.tasks, |p.tasks|, tick.now, tick.oracle);
    Pass(q.tasks, p.calls + q.calls)
  }

  lemma {:induction false} CountJoin(a: seq<Job>, b: seq<Job>, job: Job)
    ensures CountCalls(a + b, job) == CountCalls(a, job) + CountCalls(b, job)
    decreases |b|
  {
    if b == [] {
      assert a + b == a;
    } else {
      CountJoin(a, b[..|b| - 1], job);
      assert (a + b)[..|a + b| - 1] == a + b[..|b| - 1];
    }
  }

  /** However often the driver runs and whatever the Cleaner answers, successes included, it calls
      the Cleaner of a job at most MaxRetries - Attempts times. */
  lemma {:induction false} DriverTerminates(c: Config, tasks: seq<CleanupTask>, ticks: seq<Tick>, job: Job)
    requires Good(tasks) && Plain(job) && forall i :: 0 <= i < |ticks| ==> ticks[i].now != 0
    ensures var p := Drive(c, tasks, ticks);
            CountCalls(p.calls, job) + Budget(c, p.tasks, TaskID(job)) <= Budget(c, tasks, TaskID(job))
    decreases |ticks|
  {
    if ticks != [] {
      var tick := ticks[|ticks| - 1];
      DriverTerminates(c, tasks, ticks[..|ticks| - 1], job);
      var p := Drive(c, tasks, ticks[..|ticks| - 1]);
      RetryWithinBudget(c, p.tasks, |p.tasks|, tick.now, tick.oracle, job);
      CountJoin(p.calls, Retry(c, p.tasks, |p.tasks|, tick.now, tick.oracle).calls, job);
    }
  }

  /** The driver never calls a Cleaner before the record's retry time or at the retry limit. */
  lemma {:induction false} CallsWereDue(c: Config, loaded: seq<CleanupTask>, n: nat, now: Time, oracle: nat -> CleanerOutcome, job: Job)
    requires n <= |loaded| && Good(loaded) && now != 0
    requires job in Retry(c, loaded, n, now, oracle).calls
    ensures exists i :: 0 <= i < n && JobOf(loaded[i]) == job && loaded[i].attempts < c.maxRetries
                        && (loaded[i].nextRetryAt == 0 || loaded[i].nextRetryAt <= now)
    decreases n
  {
    var t := loaded[n - 1];
    var p := Retry(c, loaded, n - 1, now, oracle);
    if job in p.calls {
      CallsWereDue(c, loaded, n - 1, now, oracle, job);
    } else {
      assert JobOf(t) == job && Due(c, t, now);
    }
  }

  /** And it does call: one pass calls the Cleaner of every record it loaded that is below the limit
      and whose time has come, if its backend has one. */
  lemma {:induction false} DueIsCalled(c: Config, loaded: seq<CleanupTask>, n: nat, now: Time, oracle: nat -> CleanerOutcome, i: nat)
    requires i < n <= |loaded| && Good(loaded) && now != 0 && !c.dryRun
    requires loaded[i].attempts < c.maxRetries && (loaded[i].nextRetryAt == 0 || loaded[i].nextRetryAt <= now)
    requires loaded[i].sandboxID != "" && loaded[i].runtime in c.modules && c.modules[loaded[i].runtime]
    ensures JobOf(loaded[i]) in Retry(c, loaded, n, now, oracle).calls
    decreases n
  {
    hide Find, UpsertTask, DropTasks, Good;
    if i < n - 1 {
      DueIsCalled(c, loaded, n - 1, now, oracle, i);
    }
  }

  // ----- The manager object, one call at a time -----

  class CleanupManager {
    const cfg: Config
    const store: JSONStateStore
    var calls: seq<Job>               // Cleaner calls made, a trace

    constructor (cfg: Config, store: JSONStateStore)
      ensures this.cfg == cfg && this.store == store && calls == []
    {
      this.cfg := cfg;
      this.store := store;
      calls := [];
    }

    ghost predicate Valid()
      reads this, store
    {
      Good(store.state.cleanupTasks)
    }

    /** The stored record of the ID, or the task itself. */
    method LoadExisting(task: CleanupTask) returns (out: CleanupTask)
      ensures var found := Find(store.state.cleanupTasks, task.id); out == if found.Some? then found.value else task
    {
      var existing := store.state.cleanupTasks;
      assert existing[..0] == [];
      for i := 0 to |existing|
        invariant Find(existing[..i], task.id) == None
      {
        assert existing[..i + 1][..i] == existing[..i];
        if existing[i].id == task.id {
          FindStays(existing, i + 1, task.id);
          return existing[i];
        }
      }
      assert existing[..|existing|] == existing;
      out := task;
    }

    method SaveRetryTask(job: Job, reason: string, error: string, now: Time, flushOk: bool) returns (outcome: Outcome)
      requires now != 0
      modifies store
      ensures outcome.Panicked? <==> ShiftPanics(cfg, old(store.state.cleanupTasks), job)
      ensures outcome.Panicked? ==> store.state == old(store.state)
      ensures !outcome.Panicked? ==>
                && store.state == old(store.state).(cleanupTasks :=
                     SaveFailure(cfg, old(store.state.cleanupTasks), job, reason, error, now))
                && outcome == if flushOk then Ok else Err
    {
      hide Find, UpsertTask;
      FindSome(store.state.cleanupTasks, TaskID(job));
      var task := LoadExisting(Fresh(job, reason));
      task := task.(attempts := task.attempts + 1, lastError := error);
      if task.createdAt == 0 {
        task := task.(createdAt := now);
      }
      if task.attempts < cfg.maxRetries {
        if Min(task.attempts - 1, 6) < 0 {
          return Panicked;
        }
        task := task.(nextRetryAt := now + Delay(task.attempts));
      } else {
        task := task.(nextRetryAt := 0);
      }
      var err := store.SaveCleanupTask(task, now, flushOk);
      outcome := if err then Err else Ok;
    }

    /** A task leaves the records only through a Cleaner that succeeded or found nothing. */
    method Schedule(job: Job, reason: string, now: Time, cleaner: CleanerOutcome, flushOk: bool) returns (outcome: Outcome)
      requires now != 0
      modifies this, store
      ensures outcome.Panicked? <==>
                RecordsFailure(cfg, job, cleaner) && ShiftPanics(cfg, old(store.state.cleanupTasks), job)
      ensures var s := ScheduleOn(cfg, old(store.state.cleanupTasks), job, reason, now, cleaner);
              && calls == (if s.called then old(calls) + [job] else old(calls))
              && (outcome.Panicked? ==> store.state == old(store.state))
              && (!outcome.Panicked? ==>
                    && store.state == old(store.state).(cleanupTasks := s.tasks)
                    && (outcome == Err <==> s.failed || (s.called && !flushOk)))
    {
      if job.sandboxID == "" || cfg.dryRun {
        return Ok;
      }
      if job.backend !in cfg.modules {
        var saved := SaveRetryTask(job, reason, "not registered", now, flushOk);
        return if saved.Panicked? then Panicked else Err;
      }
      if !cfg.modules[job.backend] {
        return Ok;
      }
      calls := calls + [job];
      if cleaner.Fails? {
        var saved := SaveRetryTask(job, reason, cleaner.error, now, flushOk);
        return if saved.Panicked? then Panicked else Err;
      }
      var err := store.DeleteCleanupTask(TaskID(job), flushOk);
      outcome := if err then Err else Ok;
    }

    /** One pass of the driver; oracle(i) is what the Cleaner of the i-th loaded task answers. */
    method RetryPending(now: Time, oracle: nat -> CleanerOutcome, flushOk: nat -> bool) returns (err: bool)
      requires Valid() && now != 0
      modifies this, store
      ensures var p := Retry(cfg, old(store.state.cleanupTasks), |old(store.state.cleanupTasks)|, now, oracle);
              && store.state == old(store.state).(cleanupTasks := p.tasks)
              && calls == old(calls) + p.calls
      ensures Valid()
      ensures var loaded := old(store.state.cleanupTasks);
              err <==> exists i :: 0 <= i < |loaded| && RetryFails(cfg, loaded, i, now, oracle, flushOk(i))
    {
      hide Find, ScheduleOn, Unique;
      var tasks := store.state.cleanupTasks;
      err := false;
      for i := 0 to |tasks|
        invariant var p := Retry(cfg, tasks, i, now, oracle);
                  && store.state == old(store.state).(cleanupTasks := p.tasks)
                  && calls == old(calls) + p.calls
        invariant err <==> exists j :: 0 <= j < i && RetryFails(cfg, tasks, j, now, oracle, flushOk(j))
      {
        if tasks[i].attempts >= cfg.maxRetries || (tasks[i].nextRetryAt != 0 && tasks[i].nextRetryAt > now) {
          assert !RetryFails(cfg, tasks, i, now, oracle, flushOk(i));
          continue;
        }
        GoodFind(store.state.cleanupTasks, TaskID(JobOf(tasks[i])));
        var outcome := Schedule(JobOf(tasks[i]), "retry", now, oracle(i), flushOk(i));
        assert outcome == Err <==> RetryFails(cfg, tasks, i, now, oracle, flushOk(i));
        err := err || outcome == Err;
      }
    }
  }
}
