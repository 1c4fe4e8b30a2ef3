/**
  The dispatch queue: any number of dispatcher processes lease tasks from one table,
  fire them and record what went wrong, and may die at any point.
 */
module Dispatch {
  import opened Wrappers

  const MAX_ATTEMPTS: nat := 5
  const LEASE_SECONDS: int := 300

  type Id = nat

  /** How a task came to be complete; history, beside the timestamp the table keeps. */
  datatype Ending = Applied | Retired | Closed | Unsupported

  /** One row of `dispatch_tasks`. `applied` counts, as history, how often its action was committed. */
  datatype Task = Task(
    due: int,
    priority: int,
    handled: bool,
    attempts: nat,
    claimedAt: Option<int>,
    completed: Option<Ending>,
    lastError: Option<string>,
    applied: nat)

  /** One process: the rest of its claimed batch, and the failure of its head if that is still to be recorded. */
  datatype Process = Process(batch: seq<Id>, failing: Option<string>)

  datatype Queue = Queue(tasks: map<Id, Task>, used: set<Id>, processes: map<nat, Process>, now: int)

  datatype Step =
    | Enqueue(id: Id, due: int, priority: int, handled: bool)
    | Rearm(id: Id, due: int, priority: int)
    | Close(id: Id)
    | Delete(id: Id)
    | Claim(p: nat, batch: seq<Id>, limit: int, skipped: set<Id>)
    | FireReturns(p: nat)
    | FireRaises(p: nat, committed: bool, error: string)
    | RecordFailure(p: nat, recorded: bool)
    | Crash(p: nat)
    | Tick(seconds: nat)

  predicate Open(task: Task) {
    task.completed.None?
  }

  predicate Claimable(task: Task, now: int) {
    && Open(task)
    && task.due <= now
    && (task.claimedAt.None? || task.claimedAt.value < now - LEASE_SECONDS)
    && task.attempts < MAX_ATTEMPTS
  }

  // ---- the four functions in the database ----

  /** `claim_dispatch_batch`, on one row */
  function Leased(task: Task, now: int): Task {
    task.(claimedAt := Some(now), attempts := task.attempts + 1)
  }

  /** `fire_dispatch_task`: the action and its completion commit together, and only on an open task. */
  function Fired(task: Task): Task {
    if !Open(task) then task
    else if task.handled then
      task.(completed := Some(Applied), lastError := None, applied := task.applied + 1)
    else
      task.(completed := Some(Unsupported), lastError := Some("No handler for kind"))
  }

  /** `fail_dispatch_task`: note the error, give the lease back, and retire the row on its last attempt. */
  function Failed(task: Task, error: string): Task {
    task.(lastError := Some(if |error| > 500 then error[..500] else error),
          claimedAt := None,
          completed := if task.attempts >= MAX_ATTEMPTS && Open(task) then Some(Retired) else task.completed)
  }

  /** `enqueue_dispatch_task` on a row that is still open */
  function Rearmed(task: Task, due: int, priority: int): Task {
    task.(due := due, priority := priority, claimedAt := None, attempts := 0, lastError := None)
  }

  /** `order by priority desc, due_at` */
  predicate Before(a: Task, b: Task) {
    a.priority > b.priority || (a.priority == b.priority && a.due <= b.due)
  }

  /** A batch the claim may return while other transactions hold locks on `skipped`. */
  ghost predicate ClaimReturns(q: Queue, batch: seq<Id>, limit: int, skipped: set<Id>) {
    && |batch| <= (if limit < 1 then 1 else limit)
    && (forall i, j :: 0 <= i < j < |batch| ==> batch[i] != batch[j])
    && (forall id :: id in batch ==> id in q.tasks && id !in skipped && Claimable(q.tasks[id], q.now))
    && forall id :: id in q.tasks && id !in batch && id !in skipped && Claimable(q.tasks[id], q.now) ==>
         && |batch| == (if limit < 1 then 1 else limit)
         && forall other :: other in batch ==> Before(q.tasks[other], q.tasks[id])
  }

  // ---- the system ----

  function ProcessOf(q: Queue, p: nat): Process {
    if p in q.processes then q.processes[p] else Process([], None)
  }

  ghost predicate Enabled(q: Queue, step: Step) {
    match step
    case Enqueue(id, _, _, _) => id !in q.used
    case Rearm(id, _, _) => id in q.tasks && Open(q.tasks[id])
    case Close(id) => id in q.tasks && Open(q.tasks[id])
    case Delete(id) => id in q.tasks
    case Claim(p, batch, limit, skipped) => ProcessOf(q, p).batch == [] && ClaimReturns(q, batch, limit, skipped)
    case FireReturns(p) => ProcessOf(q, p).batch != [] && ProcessOf(q, p).failing.None?
    case FireRaises(p, _, _) => ProcessOf(q, p).batch != [] && ProcessOf(q, p).failing.None?
    case RecordFailure(p, _) => ProcessOf(q, p).batch != [] && ProcessOf(q, p).failing.Some?
    case Crash(_) => true
    case Tick(_) => true
  }

  function Update(q: Queue, id: Id, task: Task): Queue {
    if id in q.tasks then q.(tasks := q.tasks[id := task]) else q
  }

  function SetProcess(q: Queue, p: nat, process: Process): Queue {
    q.(processes := q.processes[p := process])
  }

  function FireOn(q: Queue, id: Id): Queue {
    if id in q.tasks then Update(q, id, Fired(q.tasks[id])) else q
  }

  function FailOn(q: Queue, id: Id, error: string): Queue {
    if id in q.tasks then Update(q, id, Failed(q.tasks[id], error)) else q
  }

  ghost function Next(q: Queue, step: Step): Queue
    requires Enabled(q, step)
  {
    match step
    case Enqueue(id, due, priority, handled) =>
      q.(tasks := q.tasks[id := Task(due, priority, handled, 0, None, None, None, 0)], used := q.used + {id})
    case Rearm(id, due, priority) => Update(q, id, Rearmed(q.tasks[id], due, priority))
    case Close(id) => Update(q, id, q.tasks[id].(completed := Some(Closed)))
    case Delete(id) => q.(tasks := q.tasks - {id})
    case Claim(p, batch, _, _) =>
      var leased := q.(tasks := map id | id in q.tasks :: if id in batch then Leased(q.tasks[id], q.now) else q.tasks[id]);
      SetProcess(leased, p, Process(batch, None))
    case FireReturns(p) =>
      var batch := ProcessOf(q, p).batch;
      SetProcess(FireOn(q, batch[0]), p, Process(batch[1..], None))
    case FireRaises(p, committed, error) =>
      var batch := ProcessOf(q, p).batch;
      SetProcess(if committed then FireOn(q, batch[0]) else q, p, Process(batch, Some(error)))
    case RecordFailure(p, recorded) =>
      var batch := ProcessOf(q, p).batch;
      var error := ProcessOf(q, p).failing.value;
      SetProcess(if recorded then FailOn(q, batch[0], error) else q, p, Process(batch[1..], None))
    case Crash(p) => SetProcess(q, p, Process([], None))
    case Tick(seconds) => q.(now := q.now + seconds)
  }

  const INIT := Queue(map[], {}, map[], 0)

  /** Committed exactly when complete by its action; retired or open only within the attempts allowed. */
  predicate Counted(task: Task) {
    && task.applied == (if task.completed == Some(Applied) then 1 else 0)
    && (task.completed == Some(Retired) ==> task.attempts >= MAX_ATTEMPTS)
    && (Open(task) ==> task.attempts <= MAX_ATTEMPTS)
  }

  ghost predicate TasksOk(q: Queue) {
    q.tasks.Keys <= q.used && forall id :: id in q.tasks ==> Counted(q.tasks[id])
  }

  ghost predicate ProcessOk(process: Process, used: set<Id>) {
    && (process.failing.Some? ==> process.batch != [])
    && (forall i, j :: 0 <= i < j < |process.batch| ==> process.batch[i] != process.batch[j])
    && (forall id :: id in process.batch ==> id in used)
  }

  ghost predicate Inv(q: Queue) {
    TasksOk(q) && forall p :: p in q.processes ==> ProcessOk(q.processes[p], q.used)
  }

  lemma StepKeepsTasks(q: Queue, step: Step)
    requires TasksOk(q) && Enabled(q, step)
    ensures TasksOk(Next(q, step))
  {
  }

  lemma StepKeepsProcess(q: Queue, step: Step, p: nat)
    requires Inv(q) && Enabled(q, step) && p in Next(q, step).processes
    ensures ProcessOk(Next(q, step).processes[p], Next(q, step).used)
  {
    assert p in q.processes ==> ProcessOk(q.processes[p], q.used);
  }

  lemma StepKeepsInv(q: Queue, step: Step)
    requires Inv(q) && Enabled(q, step)
    ensures Inv(Next(q, step))
  {
    StepKeepsTasks(q, step);
    forall p | p in Next(q, step).processes ensures ProcessOk(Next(q, step).processes[p], Next(q, step).used) {
      StepKeepsProcess(q, step, p);
    }
  }

  ghost predicate CanRun(q: Queue, steps: seq<Step>)
    decreases |steps|
  {
    steps != [] ==> Enabled(q, steps[0]) && CanRun(Next(q, steps[0]), steps[1..])
  }

  ghost function Run(q: Queue, steps: seq<Step>): Queue
    requires CanRun(q, steps)
    decreases |steps|
  {
    if steps == [] then q else Run(Next(q, steps[0]), steps[1..])
  }

  ghost predicate Reachable(q: Queue) {
    exists steps: seq<Step> :: CanRun(INIT, steps) && Run(INIT, steps) == q
  }

  lemma {:induction false} RunKeepsInv(q: Queue, steps: seq<Step>)
    requires Inv(q) && CanRun(q, steps)
    ensures Inv(Run(q, steps))
    decreases |steps|
  {
    if steps != [] {
      StepKeepsInv(q, steps[0]);
      RunKeepsInv(Next(q, steps[0]), steps[1..]);
    }
  }

  lemma ReachableInv(q: Queue)
    requires Reachable(q)
    ensures Inv(q)
  {
    var steps: seq<Step> :| CanRun(INIT, steps) && Run(INIT, steps) == q;
    RunKeepsInv(INIT, steps);
  }
}
