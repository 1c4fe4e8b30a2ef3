/** One tick of one dispatcher process: every row of a claimed batch is fired, whatever its neighbours do. */
module Dispatcher {
  import opened Wrappers
  import opened Dispatch

  /**
    How one firing goes, as seen from the process: it returns, or it raises, with or
    without its transaction having committed, and the failure is then recorded or not.
   */
  datatype Outcome = Returns | Raises(committed: bool, error: string, recorded: bool)

  type Tasks = map<Id, Task>

  /** What one firing and its record do to the task itself. */
  function Settled(task: Task, outcome: Outcome): Task {
    match outcome
    case Returns => Fired(task)
    case Raises(committed, error, recorded) =>
      var fired := if committed then Fired(task) else task;
      if recorded then Failed(fired, error) else fired
  }

  function SettleRow(tasks: Tasks, id: Id, outcome: Outcome): Tasks {
    if id in tasks then tasks[id := Settled(tasks[id], outcome)] else tasks
  }

  function SettleAll(tasks: Tasks, rows: seq<Id>, outcomes: seq<Outcome>): Tasks
    requires |rows| == |outcomes|
  {
    if rows == [] then tasks
    else
      var last := |rows| - 1;
      SettleRow(SettleAll(tasks, rows[..last], outcomes[..last]), rows[last], outcomes[last])
  }

  /**
    A batch of distinct rows is as many independent firings: each task ends as its own
    outcome alone decides, and tasks outside the batch do not move.
   */
  lemma {:induction false} RowsAreIndependent(tasks: Tasks, rows: seq<Id>, outcomes: seq<Outcome>)
    requires |rows| == |outcomes|
    requires forall i, j :: 0 <= i < j < |rows| ==> rows[i] != rows[j]
    ensures SettleAll(tasks, rows, outcomes).Keys == tasks.Keys
    ensures forall i :: 0 <= i < |rows| && rows[i] in tasks ==>
              SettleAll(tasks, rows, outcomes)[rows[i]] == Settled(tasks[rows[i]], outcomes[i])
    ensures forall id :: id in tasks && id !in rows ==> SettleAll(tasks, rows, outcomes)[id] == tasks[id]
  {
    if rows != [] {
      var last := |rows| - 1;
      RowsAreIndependent(tasks, rows[..last], outcomes[..last]);
      assert forall i :: 0 <= i < last ==> rows[..last][i] == rows[i] && outcomes[..last][i] == outcomes[i];
    }
  }

  class Dispatcher {
    var tasks: Tasks
    ghost var fired: seq<Id>

    /** `_fire`: run one task and record the outcome either way; it never raises. */
    method Fire(id: Id, outcome: Outcome)
      modifies this
      ensures tasks == SettleRow(old(tasks), id, outcome)
      ensures fired == old(fired) + [id]
    {
      fired := fired + [id];
      if id in tasks && (outcome.Returns? || outcome.committed) {
        tasks := tasks[id := Fired(tasks[id])];
      }
      if outcome.Raises? && outcome.recorded && id in tasks {
        tasks := tasks[id := Failed(tasks[id], outcome.error)];
      }
      assert id in old(tasks) ==> old(tasks)[id := old(tasks)[id]] == old(tasks);
    }

    /** The loop of `_run` over one claimed batch. */
    method RunBatch(rows: seq<Id>, outcomes: seq<Outcome>)
      requires |rows| == |outcomes|
      modifies this
      ensures tasks == SettleAll(old(tasks), rows, outcomes)
      ensures fired == old(fired) + rows
    {
      var i := 0;
      while i < |rows|
        invariant i <= |rows|
        invariant tasks == SettleAll(old(tasks), rows[..i], outcomes[..i])
        invariant fired == old(fired) + rows[..i]
      {
        assert rows[..i + 1][..i] == rows[..i] && outcomes[..i + 1][..i] == outcomes[..i];
        Fire(rows[i], outcomes[i]);
        i := i + 1;
      }
      assert rows[..i] == rows && outcomes[..i] == outcomes;
    }
  }

  // ---- the same batch in the step system ----

  function RowSteps(p: nat, outcome: Outcome): seq<Step> {
    match outcome
    case Returns => [FireReturns(p)]
    case Raises(committed, error, recorded) => [FireRaises(p, committed, error), RecordFailure(p, recorded)]
  }

  function BatchSteps(p: nat, outcomes: seq<Outcome>): seq<Step> {
    if outcomes == [] then [] else RowSteps(p, outcomes[0]) + BatchSteps(p, outcomes[1..])
  }

  /** The queue once the head of `p`'s batch has been settled. */
  function HeadSettled(q: Queue, p: nat, outcome: Outcome): Queue
    requires ProcessOf(q, p).batch != []
  {
    var batch := ProcessOf(q, p).batch;
    SetProcess(q.(tasks := SettleRow(q.tasks, batch[0], outcome)), p, Process(batch[1..], None))
  }

  lemma ReturnsNext(q: Queue, p: nat)
    requires ProcessOf(q, p).batch != [] && ProcessOf(q, p).failing.None?
    ensures Next(q, FireReturns(p)) == HeadSettled(q, p, Returns)
  {
  }

  lemma RaisesNext(q: Queue, p: nat, committed: bool, error: string, recorded: bool)
    requires ProcessOf(q, p).batch != [] && ProcessOf(q, p).failing.None?
    ensures var mid := Next(q, FireRaises(p, committed, error));
            Enabled(mid, RecordFailure(p, recorded))
            && Next(mid, RecordFailure(p, recorded)) == HeadSettled(q, p, Raises(committed, error, recorded))
  {
    var batch := ProcessOf(q, p).batch;
    var mid := Next(q, FireRaises(p, committed, error));
    var after := Next(mid, RecordFailure(p, recorded));
    assert ProcessOf(mid, p) == Process(batch, Some(error));
    assert after.processes == q.processes[p := Process(batch[1..], None)];
    var id := batch[0];
    if id in q.tasks {
      var fired := if committed then Fired(q.tasks[id]) else q.tasks[id];
      assert q.tasks[id := q.tasks[id]] == q.tasks;
      assert mid.tasks == q.tasks[id := fired];
      assert after.tasks == q.tasks[id := if recorded then Failed(fired, error) else fired];
    }
  }

  /** One row's steps take the head off the batch and settle its task. */
  lemma RowRun(q: Queue, p: nat, outcome: Outcome, rest: seq<Step>)
    requires ProcessOf(q, p).batch != [] && ProcessOf(q, p).failing.None?
    requires CanRun(HeadSettled(q, p, outcome), rest)
    ensures CanRun(q, RowSteps(p, outcome) + rest)
    ensures Run(q, RowSteps(p, outcome) + rest) == Run(HeadSettled(q, p, outcome), rest)
  {
    match outcome
    case Returns =>
      ReturnsNext(q, p);
      assert ([FireReturns(p)] + rest)[1..] == rest;
    case Raises(committed, error, recorded) =>
      RaisesNext(q, p, committed, error, recorded);
      var tail := [RecordFailure(p, recorded)] + rest;
      assert tail[1..] == rest;
      assert (RowSteps(p, outcome) + rest)[1..] == tail;
      var mid := Next(q, FireRaises(p, committed, error));
      assert CanRun(mid, tail) && Run(mid, tail) == Run(HeadSettled(q, p, outcome), rest);
  }

  lemma {:induction false} SettleFirst(tasks: Tasks, rows: seq<Id>, outcomes: seq<Outcome>)
    requires |rows| == |outcomes| && rows != []
    ensures SettleAll(tasks, rows, outcomes)
            == SettleAll(SettleRow(tasks, rows[0], outcomes[0]), rows[1..], outcomes[1..])
  {
    var last := |rows| - 1;
    if last > 0 {
      SettleFirst(tasks, rows[..last], outcomes[..last]);
      assert rows[..last][1..] == rows[1..][..last - 1] && outcomes[..last][1..] == outcomes[1..][..last - 1];
    } else {
      assert rows[..0] == [] && rows[1..] == [];
    }
  }

  /**
    A process left to itself gets through its whole batch: its steps are enabled one
    after another whatever each firing does, and they leave the table as `RunBatch` does.
   */
  lemma {:induction false} BatchRun(q: Queue, p: nat, outcomes: seq<Outcome>)
    requires |ProcessOf(q, p).batch| == |outcomes| && ProcessOf(q, p).failing.None?
    ensures CanRun(q, BatchSteps(p, outcomes))
    ensures Run(q, BatchSteps(p, outcomes)).tasks == SettleAll(q.tasks, ProcessOf(q, p).batch, outcomes)
    ensures ProcessOf(Run(q, BatchSteps(p, outcomes)), p) == Process([], None)
    decreases |outcomes|
  {
    if outcomes != [] {
      var next := HeadSettled(q, p, outcomes[0]);
      BatchRun(next, p, outcomes[1..]);
      RowRun(q, p, outcomes[0], BatchSteps(p, outcomes[1..]));
      SettleFirst(q.tasks, ProcessOf(q, p).batch, outcomes);
    }
  }
}
