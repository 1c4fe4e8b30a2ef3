/** What a claim hands out, and how far apart two leases of one task lie. */
module DispatchLeases {
  import opened Wrappers
  import opened Dispatch
  import opened DispatchTheorems

  // ---- one claim ----

  /** A claim hands out only open tasks that are due, not leased within five minutes, and tried fewer than five times. */
  lemma ClaimedAreDue(q: Queue, p: nat, batch: seq<Id>, limit: int, skipped: set<Id>, id: Id)
    requires Enabled(q, Claim(p, batch, limit, skipped)) && id in batch
    ensures id in q.tasks && q.tasks[id].completed.None? && q.tasks[id].due <= q.now && q.tasks[id].attempts < 5
    ensures q.tasks[id].claimedAt.Some? ==> q.now - q.tasks[id].claimedAt.value > 300
    ensures id !in skipped
    ensures var next := Next(q, Claim(p, batch, limit, skipped));
            id in next.tasks && next.tasks[id] == q.tasks[id].(claimedAt := Some(q.now), attempts := q.tasks[id].attempts + 1)
  {
  }

  /**
    And it leaves none behind but for want of room: a task that is open, due, free, tried
    fewer than five times and locked by nobody is in the batch, unless the batch is full of
    tasks of a higher priority, or of the same and due no later.
   */
  lemma NoneLeftBehind(q: Queue, p: nat, batch: seq<Id>, limit: int, skipped: set<Id>, id: Id)
    requires Enabled(q, Claim(p, batch, limit, skipped))
    requires id in q.tasks && q.tasks[id].completed.None? && q.tasks[id].due <= q.now && q.tasks[id].attempts < 5
    requires q.tasks[id].claimedAt.None? || q.now - q.tasks[id].claimedAt.value > 300
    requires id !in skipped
    ensures id in batch ||
            (&& |batch| == (if limit < 1 then 1 else limit)
             && forall other :: other in batch ==>
                  || q.tasks[other].priority > q.tasks[id].priority
                  || (q.tasks[other].priority == q.tasks[id].priority && q.tasks[other].due <= q.tasks[id].due))
    ensures |batch| <= (if limit < 1 then 1 else limit)
  {
  }

  // ---- two claims ----

  /** The lease on `id` is given back: its failure is recorded, or somebody re-arms it. */
  predicate GivesBack(q: Queue, step: Step, id: Id) {
    match step
    case RecordFailure(p, recorded) => recorded && ProcessOf(q, p).batch != [] && ProcessOf(q, p).batch[0] == id
    case Rearm(other, _, _) => other == id
    case _ => false
  }

  /** No step of the run gives it back. */
  ghost predicate Kept(q: Queue, steps: seq<Step>, id: Id)
    requires CanRun(q, steps)
    decreases |steps|
  {
    steps != [] ==> !GivesBack(q, steps[0], id) && Kept(Next(q, steps[0]), steps[1..], id)
  }

  /** The task is gone for good, or has been leased at `since` or later. */
  ghost predicate LeasedSince(q: Queue, id: Id, since: int) {
    && id in q.used
    && since <= q.now
    && (id in q.tasks ==> q.tasks[id].claimedAt.Some? && q.tasks[id].claimedAt.value >= since)
  }

  lemma StepKeepsLease(q: Queue, step: Step, id: Id, since: int)
    requires Enabled(q, step) && LeasedSince(q, id, since) && !GivesBack(q, step, id)
    ensures LeasedSince(Next(q, step), id, since)
  {
  }

  lemma {:induction false} RunKeepsLease(q: Queue, steps: seq<Step>, id: Id, since: int)
    requires CanRun(q, steps) && LeasedSince(q, id, since) && Kept(q, steps, id)
    ensures LeasedSince(Run(q, steps), id, since)
    decreases |steps|
  {
    if steps != [] {
      StepKeepsLease(q, steps[0], id, since);
      RunKeepsLease(Next(q, steps[0]), steps[1..], id, since);
    }
  }

  /**
    Over every run: two claims of one task lie more than five minutes apart, unless its
    failure was recorded or it was re-armed in between.
   */
  lemma ClaimsLieApart(q: Queue, first: Step, steps: seq<Step>, second: Step, id: Id)
    requires Reachable(q) && Enabled(q, first) && first.Claim? && id in first.batch
    requires CanRun(Next(q, first), steps) && Kept(Next(q, first), steps, id)
    requires Enabled(Run(Next(q, first), steps), second) && second.Claim? && id in second.batch
    ensures Run(Next(q, first), steps).now - q.now > 300
  {
    ReachableInv(q);
    RunKeepsLease(Next(q, first), steps, id, q.now);
  }

  // ---- whole runs ----

  lemma {:induction false} CanRunPrefix(q: Queue, steps: seq<Step>, i: nat)
    requires CanRun(q, steps) && i <= |steps|
    ensures CanRun(q, steps[..i])
    ensures CanRun(Run(q, steps[..i]), steps[i..]) && Run(Run(q, steps[..i]), steps[i..]) == Run(q, steps)
    decreases i
  {
    if i > 0 {
      CanRunPrefix(Next(q, steps[0]), steps[1..], i - 1);
      assert steps[..i][1..] == steps[1..][..i - 1] && steps[i..] == steps[1..][i - 1..];
    }
  }

  /** The queue after the first `i` steps of a run from the empty table. */
  ghost function At(steps: seq<Step>, i: nat): Queue
    requires CanRun(INIT, steps) && i <= |steps|
  {
    CanRunPrefix(INIT, steps, i);
    Run(INIT, steps[..i])
  }

  ghost predicate Hands(steps: seq<Step>, i: nat, id: Id) {
    i < |steps| && steps[i].Claim? && id in steps[i].batch
  }

  lemma AtNext(steps: seq<Step>, i: nat)
    requires CanRun(INIT, steps) && i < |steps|
    ensures Enabled(At(steps, i), steps[i]) && At(steps, i + 1) == Next(At(steps, i), steps[i])
    ensures Reachable(At(steps, i))
  {
    CanRunPrefix(INIT, steps, i);
    CanRunPrefix(INIT, steps, i + 1);
    assert steps[i..][0] == steps[i];
    RunSnoc(INIT, steps[..i], steps[i]);
    assert steps[..i] + [steps[i]] == steps[..i + 1];
  }

  /** Nothing between positions `i` and `j` gives the task back. */
  ghost predicate KeptBetween(steps: seq<Step>, i: nat, j: nat, id: Id)
    requires CanRun(INIT, steps) && i <= j <= |steps|
  {
    forall m :: i <= m < j ==> !GivesBack(At(steps, m), steps[m], id)
  }

  lemma {:induction false} LeaseLasts(steps: seq<Step>, i: nat, j: nat, id: Id)
    requires CanRun(INIT, steps) && Hands(steps, i, id) && i < j <= |steps|
    requires KeptBetween(steps, i + 1, j, id)
    ensures LeasedSince(At(steps, j), id, At(steps, i).now)
    decreases j
  {
    AtNext(steps, j - 1);
    if j == i + 1 {
      ReachableInv(At(steps, i));
    } else {
      LeaseLasts(steps, i, j - 1, id);
      StepKeepsLease(At(steps, j - 1), steps[j - 1], id, At(steps, i).now);
    }
  }

  lemma {:induction false} TimeGoesOn(steps: seq<Step>, i: nat, j: nat)
    requires CanRun(INIT, steps) && i <= j <= |steps|
    ensures At(steps, i).now <= At(steps, j).now
    decreases j
  {
    if i < j {
      AtNext(steps, j - 1);
      TimeGoesOn(steps, i, j - 1);
    }
  }

  /**
    At every moment of every run at most one process was handed a task in the last five
    minutes, unless its lease was given back: of two claims of it within them, the
    earlier one's failure was recorded, or the task was re-armed, in between.
   */
  lemma OneLeaseAtATime(steps: seq<Step>, i: nat, j: nat, n: nat, id: Id)
    requires CanRun(INIT, steps) && i < j < n <= |steps|
    requires Hands(steps, i, id) && Hands(steps, j, id)
    requires At(steps, n).now - At(steps, i).now <= 300
    ensures exists m :: i < m < j && GivesBack(At(steps, m), steps[m], id)
  {
    if forall m :: i < m < j ==> !GivesBack(At(steps, m), steps[m], id) {
      LeaseLasts(steps, i, j, id);
      AtNext(steps, j);
      TimeGoesOn(steps, j, n);
      assert false;
    }
  }

  // ---- coming back to the queue ----

  /** An unfilled batch that nobody's lock keeps from `id`. */
  ghost predicate ClaimsFreely(q: Queue, step: Step, id: Id) {
    step.Claim? && Enabled(q, step) && |step.batch| < step.limit && id !in step.skipped
  }

  /** A new task is fired at its own time: an unfilled claim takes it once it is due, and none before. */
  lemma EnqueuedIsClaimedWhenDue(q: Queue, id: Id, due: int, priority: int, handled: bool, seconds: nat, claim: Step)
    requires Enabled(q, Enqueue(id, due, priority, handled))
    requires var later := Next(Next(q, Enqueue(id, due, priority, handled)), Tick(seconds)); ClaimsFreely(later, claim, id)
    ensures id in claim.batch <==> due <= q.now + seconds
  {
    var later := Next(Next(q, Enqueue(id, due, priority, handled)), Tick(seconds));
    if due <= later.now {
      NoneLeftBehind(later, claim.p, claim.batch, claim.limit, claim.skipped, id);
    }
  }

  /** Re-arming starts a task over, lost or not: its new time and priority count, with five attempts before it. */
  lemma RearmedIsClaimedWhenDue(q: Queue, id: Id, due: int, priority: int, seconds: nat, claim: Step)
    requires Enabled(q, Rearm(id, due, priority))
    requires var later := Next(Next(q, Rearm(id, due, priority)), Tick(seconds)); ClaimsFreely(later, claim, id)
    ensures var task := Next(q, Rearm(id, due, priority)).tasks[id];
            && task.due == due && task.priority == priority && task.attempts == 0
            && task.claimedAt.None? && task.lastError.None? && task.completed.None?
            && task.handled == q.tasks[id].handled && task.applied == q.tasks[id].applied
    ensures id in claim.batch <==> due <= q.now + seconds
  {
    var later := Next(Next(q, Rearm(id, due, priority)), Tick(seconds));
    if due <= later.now {
      NoneLeftBehind(later, claim.p, claim.batch, claim.limit, claim.skipped, id);
    }
  }

  /**
    A recorded failure keeps the first five hundred characters of its error and gives the lease
    back: the task's next attempt does not wait for the lease to run out.
   */
  lemma FailedIsClaimedAtOnce(q: Queue, p: nat, claim: Step)
    requires Enabled(q, RecordFailure(p, true)) && ProcessOf(q, p).batch[0] in q.tasks
    requires var task := q.tasks[ProcessOf(q, p).batch[0]]; task.completed.None? && task.due <= q.now && task.attempts < 5
    requires ClaimsFreely(Next(q, RecordFailure(p, true)), claim, ProcessOf(q, p).batch[0])
    ensures var id, error := ProcessOf(q, p).batch[0], ProcessOf(q, p).failing.value;
            var task := Next(q, RecordFailure(p, true)).tasks[id];
            && id in claim.batch
            && task.lastError.Some? && task.lastError.value <= error
            && |task.lastError.value| == (if |error| < 500 then |error| else 500)
            && task.attempts == q.tasks[id].attempts
  {
    var next := Next(q, RecordFailure(p, true));
    NoneLeftBehind(next, claim.p, claim.batch, claim.limit, claim.skipped, ProcessOf(q, p).batch[0]);
  }

  // ---- complete for good ----

  ghost predicate CompleteAs(q: Queue, id: Id, ending: Ending, applied: nat) {
    id in q.used && (id in q.tasks ==> q.tasks[id].completed == Some(ending) && q.tasks[id].applied == applied)
  }

  lemma StepKeepsComplete(q: Queue, step: Step, id: Id, ending: Ending, applied: nat)
    requires Enabled(q, step) && CompleteAs(q, id, ending, applied)
    ensures CompleteAs(Next(q, step), id, ending, applied)
    ensures step.Claim? ==> id !in step.batch
  {
  }

  /** A closed task, like any complete one, is never leased, fired or completed otherwise again, over any run. */
  lemma {:induction false} ClosedForGood(q: Queue, steps: seq<Step>, id: Id)
    requires Reachable(q) && Enabled(q, Close(id)) && CanRun(Next(q, Close(id)), steps)
    ensures var after := Run(Next(q, Close(id)), steps);
            id in after.tasks ==> after.tasks[id].completed == Some(Closed) && after.tasks[id].applied == 0
    ensures forall i :: 0 <= i < |steps| && steps[i].Claim? ==> id !in steps[i].batch
  {
    ReachableInv(q);
    CompleteOver(Next(q, Close(id)), steps, id, Closed, 0);
  }

  lemma {:induction false} CompleteOver(q: Queue, steps: seq<Step>, id: Id, ending: Ending, applied: nat)
    requires CanRun(q, steps) && CompleteAs(q, id, ending, applied)
    ensures CompleteAs(Run(q, steps), id, ending, applied)
    ensures forall i :: 0 <= i < |steps| && steps[i].Claim? ==> id !in steps[i].batch
    decreases |steps|
  {
    if steps != [] {
      StepKeepsComplete(q, steps[0], id, ending, applied);
      CompleteOver(Next(q, steps[0]), steps[1..], id, ending, applied);
      forall i | 0 <= i < |steps| && steps[i].Claim? ensures id !in steps[i].batch {
        assert i > 0 ==> steps[i] == steps[1..][i - 1];
      }
    }
  }
}
