/** What the lease protocol promises, and the one way it loses a task. */
module DispatchTheorems {
  import opened Wrappers
  import opened Dispatch

  // ---- reaching states ----

  lemma {:induction false} RunSnoc(q: Queue, steps: seq<Step>, step: Step)
    requires CanRun(q, steps) && Enabled(Run(q, steps), step)
    ensures CanRun(q, steps + [step]) && Run(q, steps + [step]) == Next(Run(q, steps), step)
    decreases |steps|
  {
    if steps == [] {
      assert ([] + [step])[1..] == [];
    } else {
      RunSnoc(Next(q, steps[0]), steps[1..], step);
      assert (steps + [step])[1..] == steps[1..] + [step];
    }
  }

  lemma ReachableNext(q: Queue, step: Step)
    requires Reachable(q) && Enabled(q, step)
    ensures Reachable(Next(q, step))
  {
    var steps: seq<Step> :| CanRun(INIT, steps) && Run(INIT, steps) == q;
    RunSnoc(INIT, steps, step);
    assert CanRun(INIT, steps + [step]);
  }

  // ---- at most once ----

  /**
    Whatever crashes, expires or fires twice, no task's action is committed twice, and
    it has been committed exactly when the task is complete by it.
   */
  lemma AppliedAtMostOnce(q: Queue, id: Id)
    requires Reachable(q) && id in q.tasks
    ensures q.tasks[id].applied <= 1
    ensures q.tasks[id].applied == 1 <==> q.tasks[id].completed == Some(Applied)
  {
    ReachableInv(q);
  }

  /** A task fired again after it was applied changes nothing at all, even if the second firing reports an error. */
  lemma SecondFiringIsIdle(q: Queue, p: nat, committed: bool, error: string)
    requires Reachable(q) && Enabled(q, FireReturns(p))
    requires var id := ProcessOf(q, p).batch[0]; id in q.tasks ==> q.tasks[id].completed == Some(Applied)
    ensures Next(q, FireReturns(p)).tasks == q.tasks
    ensures Next(q, FireRaises(p, committed, error)).tasks == q.tasks
    ensures var raised := Next(q, FireRaises(p, committed, error));
            var id := ProcessOf(q, p).batch[0];
            var after := Next(raised, RecordFailure(p, true));
            id in q.tasks ==> id in after.tasks && after.tasks[id].completed == Some(Applied)
                              && after.tasks[id].applied == q.tasks[id].applied
  {
    var id := ProcessOf(q, p).batch[0];
    if id in q.tasks {
      assert q.tasks[id := q.tasks[id]] == q.tasks;
    }
  }

  // ---- what becomes of a task ----

  ghost predicate Holds(q: Queue, p: nat, id: Id) {
    id in ProcessOf(q, p).batch
  }

  ghost predicate Held(q: Queue, id: Id) {
    exists p :: Holds(q, p, id)
  }

  /** Open, out of attempts, and in nobody's hands: no claim will ever return it again. */
  ghost predicate Stranded(q: Queue, id: Id) {
    id in q.tasks && Open(q.tasks[id]) && q.tasks[id].attempts >= MAX_ATTEMPTS && !Held(q, id)
  }

  ghost predicate OnlyHolder(q: Queue, p: nat, id: Id) {
    Holds(q, p, id) && forall other :: other != p ==> !Holds(q, other, id)
  }

  /** The last holder of a task on its fifth lease lets go without a word. */
  ghost predicate LetsGo(q: Queue, step: Step, id: Id) {
    && id in q.tasks && Open(q.tasks[id]) && q.tasks[id].attempts >= MAX_ATTEMPTS
    && match step
       case Crash(p) => OnlyHolder(q, p, id)
       case RecordFailure(p, recorded) => !recorded && OnlyHolder(q, p, id) && ProcessOf(q, p).batch[0] == id
       case _ => false
  }

  lemma HoldersAfter(q: Queue, step: Step, id: Id, p: nat)
    requires Inv(q) && Enabled(q, step)
    ensures var batch := ProcessOf(q, p).batch;
            Holds(Next(q, step), p, id) <==>
              (match step
               case Claim(r, taken, _, _) => if r == p then id in taken else Holds(q, p, id)
               case FireReturns(r) => if r == p then Holds(q, p, id) && id != batch[0] else Holds(q, p, id)
               case RecordFailure(r, _) => if r == p then Holds(q, p, id) && id != batch[0] else Holds(q, p, id)
               case Crash(r) => r != p && Holds(q, p, id)
               case _ => Holds(q, p, id))
  {
    var batch := ProcessOf(q, p).batch;
    if batch != [] {
      assert forall i, j :: 0 <= i < j < |batch| ==> batch[i] != batch[j];
      assert id in batch <==> id == batch[0] || id in batch[1..];
    }
  }

  lemma StrandedOnlyByLettingGo(q: Queue, step: Step, id: Id)
    requires Inv(q) && Enabled(q, step) && id in q.tasks && !Stranded(q, id) && Stranded(Next(q, step), id)
    ensures LetsGo(q, step, id)
  {
    var next := Next(q, step);
    forall p ensures !Holds(next, p, id) {
      assert !Held(next, id);
    }
    if Open(q.tasks[id]) && q.tasks[id].attempts >= MAX_ATTEMPTS {
      var p :| Holds(q, p, id);
      HoldersAfter(q, step, id, p);
      forall other | other != p && Holds(q, other, id) ensures false {
        HoldersAfter(q, step, id, other);
      }
    } else if step.Claim? {
      HoldersAfter(q, step, id, step.p);
    }
  }

  lemma LettingGoStrands(q: Queue, step: Step, id: Id)
    requires Inv(q) && Enabled(q, step) && LetsGo(q, step, id)
    ensures Stranded(Next(q, step), id)
  {
    forall p ensures !Holds(Next(q, step), p, id) {
      HoldersAfter(q, step, id, p);
    }
  }

  /**
    A task is lost by exactly one kind of step: the last process holding it on its
    fifth lease dies, or fails to record its failure.
   */
  lemma LostExactly(q: Queue, step: Step, id: Id)
    requires Reachable(q) && Enabled(q, step) && id in q.tasks && !Stranded(q, id)
    ensures Stranded(Next(q, step), id) <==> LetsGo(q, step, id)
  {
    ReachableInv(q);
    if Stranded(Next(q, step), id) {
      StrandedOnlyByLettingGo(q, step, id);
    }
    if LetsGo(q, step, id) {
      LettingGoStrands(q, step, id);
    }
  }

  /** Once lost it stays lost, unfired and unretired, until somebody outside re-arms, closes or deletes it. */
  lemma LostForGood(q: Queue, step: Step, id: Id)
    requires Inv(q) && Enabled(q, step) && Stranded(q, id)
    requires !(step.Rearm? && step.id == id) && !(step.Close? && step.id == id) && !(step.Delete? && step.id == id)
    ensures Stranded(Next(q, step), id)
    ensures Next(q, step).tasks[id].applied == q.tasks[id].applied
  {
    forall p ensures !Holds(Next(q, step), p, id) {
      assert !Holds(q, p, id);
      HoldersAfter(q, step, id, p);
    }
    if step.FireReturns? || step.FireRaises? || step.RecordFailure? {
      assert !Holds(q, step.p, id);
      assert ProcessOf(q, step.p).batch[0] in ProcessOf(q, step.p).batch;
    }
  }

  /** The first moment an open task is due and its lease has run out. */
  function Again(task: Task): int {
    var over := if task.claimedAt.Some? then task.claimedAt.value + LEASE_SECONDS + 1 else task.due;
    if over < task.due then task.due else over
  }

  /** Every task that is not lost is complete, in some process' hands, or claimable again from a known moment on. */
  lemma NothingElseIsLost(q: Queue, id: Id, now: int)
    requires Reachable(q) && id in q.tasks && !Stranded(q, id) && now >= Again(q.tasks[id])
    ensures !Open(q.tasks[id]) || Held(q, id) || Claimable(q.tasks[id], now)
  {
  }

  /** A task retires exactly when a failure is recorded on its fifth lease or later. */
  lemma RetiresExactly(q: Queue, step: Step, id: Id)
    requires Inv(q) && Enabled(q, step) && id in q.tasks && Open(q.tasks[id])
    ensures (id in Next(q, step).tasks && Next(q, step).tasks[id].completed == Some(Retired))
            <==> (&& step.RecordFailure? && step.recorded && ProcessOf(q, step.p).batch[0] == id
                  && q.tasks[id].attempts >= MAX_ATTEMPTS)
  {
  }

  // ---- two runs ----

  /** One task, leased `n` times by a process that died each time, and its last lease run out. */
  function Abandoned(n: nat): Queue {
    var task := Task(0, 0, true, n, if n == 0 then None else Some(301 * (n - 1)), None, None, 0);
    Queue(map[0 := task], {0}, if n == 0 then map[] else map[0 := Process([], None)], 301 * n)
  }

  /** The same, with the next lease just taken by process 0, which holds `batch` of it. */
  function Leasing(n: nat, batch: seq<Id>): Queue {
    Queue(map[0 := Task(0, 0, true, n + 1, Some(301 * n), None, None, 0)], {0},
          map[0 := Process(batch, None)], 301 * n)
  }

  lemma ClaimsTheOnlyTask(n: nat)
    requires n < MAX_ATTEMPTS
    ensures Enabled(Abandoned(n), Claim(0, [0], 20, {}))
    ensures Next(Abandoned(n), Claim(0, [0], 20, {})) == Leasing(n, [0])
  {
    var q := Abandoned(n);
    var next := Next(q, Claim(0, [0], 20, {}));
    assert next.tasks.Keys == {0};
    assert next.tasks == Leasing(n, [0]).tasks;
    assert q.processes[0 := Process([0], None)] == map[0 := Process([0], None)];
  }

  lemma CrashesAndExpires(n: nat)
    ensures Next(Leasing(n, [0]), Crash(0)) == Leasing(n, [])
    ensures Next(Leasing(n, []), Tick(301)) == Abandoned(n + 1)
  {
    assert Leasing(n, [0]).processes[0 := Process([], None)] == map[0 := Process([], None)];
  }

  lemma {:induction false} AbandonedIsReachable(n: nat)
    requires n <= MAX_ATTEMPTS
    ensures Reachable(Abandoned(n))
  {
    if n == 0 {
      var steps: seq<Step> := [];
      assert CanRun(INIT, steps) && Run(INIT, steps) == INIT;
      ReachableNext(INIT, Enqueue(0, 0, 0, true));
      assert INIT.tasks[0 := Task(0, 0, true, 0, None, None, None, 0)] == Abandoned(0).tasks;
    } else {
      AbandonedIsReachable(n - 1);
      ClaimsTheOnlyTask(n - 1);
      CrashesAndExpires(n - 1);
      ReachableNext(Abandoned(n - 1), Claim(0, [0], 20, {}));
      ReachableNext(Leasing(n - 1, [0]), Crash(0));
      ReachableNext(Leasing(n - 1, []), Tick(301));
    }
  }

  /** Five leases cut short by crashes lose a task of which no failure was ever recorded. */
  lemma FiveCrashesLoseATask()
    ensures Reachable(Abandoned(5)) && Stranded(Abandoned(5), 0)
    ensures Abandoned(5).tasks[0].lastError.None? && Abandoned(5).tasks[0].applied == 0
  {
    AbandonedIsReachable(5);
  }

  /** And one recorded failure is enough to retire a task, when four leases were cut short before it. */
  lemma OneFailureRetires() returns (q: Queue)
    ensures Reachable(q) && 0 in q.tasks && q.tasks[0].completed == Some(Retired)
  {
    var q0 := Abandoned(4);
    AbandonedIsReachable(4);
    ClaimsTheOnlyTask(4);
    var q1 := Next(q0, Claim(0, [0], 20, {}));
    var q2 := Next(q1, FireRaises(0, false, "timeout"));
    q := Next(q2, RecordFailure(0, true));
    ReachableNext(q0, Claim(0, [0], 20, {}));
    ReachableNext(q1, FireRaises(0, false, "timeout"));
    ReachableNext(q2, RecordFailure(0, true));
  }
}
