/**
  The outbox table and the four queries the hub reads it with. `log` is every row
  ever committed, in id order; the prune job has deleted the first `pruned` of them.
 */
module Outbox {
  import opened Wrappers
  import opened Audience

  const BACKFILL_LIMIT: nat := 100

  datatype Outbox = Outbox(log: seq<Row>, pruned: nat)

  /** The row filters of the source, as values so that one selection function serves all. */
  datatype Query =
    | After(id: int)
    | Heard(who: Identity)
    | Replayable(who: Identity, id: int)

  predicate Admits(q: Query, row: Row) {
    match q
    case After(id) => row.id > id
    case Heard(who) => row.community == who.community && Accepts(who, row)
    case Replayable(who, id) => row.community == who.community && row.id > id && Narrow(who, row)
  }

  lemma HeardIsAddressed(who: Identity, row: Row)
    ensures Admits(Heard(who), row) <==> Addressed(row, who)
  {
    if Addressed(row, who) && row.audience == Some("role") {
      var i :| 0 <= i < |row.roles.value| && Lower(row.roles.value[i]) == who.role;
    }
  }

  function Select(q: Query, rows: seq<Row>): (r: seq<Row>)
    ensures |r| <= |rows|
    ensures forall x :: x in r <==> x in rows && Admits(q, x)
  {
    if rows == [] then []
    else (if Admits(q, rows[0]) then [rows[0]] else []) + Select(q, rows[1..])
  }

  function Take<T>(n: nat, xs: seq<T>): (r: seq<T>)
    ensures r <= xs && |r| == if |xs| < n then |xs| else n
  {
    if |xs| <= n then xs else xs[..n]
  }

  ghost predicate Ascending(rows: seq<Row>) {
    forall i, j :: 0 <= i < j < |rows| ==> rows[i].id < rows[j].id
  }

  ghost predicate ValidOutbox(box: Outbox) {
    && Ascending(box.log)
    && box.pruned <= |box.log|
    && forall i :: 0 <= i < |box.log| ==> box.log[i].id > 0
  }

  function Retained(box: Outbox): seq<Row>
    requires box.pruned <= |box.log|
  {
    box.log[box.pruned..]
  }

  /** `order by id limit n` over `id > after`, every community. */
  function ReadEventsSince(box: Outbox, after: int, limit: nat): seq<Row>
    requires box.pruned <= |box.log|
  {
    Take(limit, Select(After(after), Retained(box)))
  }

  /** The reconnect backfill's read: narrowed in Postgres, then capped. */
  function ReadEvents(box: Outbox, who: Identity, after: int): seq<Row>
    requires box.pruned <= |box.log|
  {
    Take(BACKFILL_LIMIT, Select(Replayable(who, after), Retained(box)))
  }

  function LatestEventId(box: Outbox): nat
    requires box.pruned <= |box.log|
  {
    if Retained(box) == [] then 0 else box.log[|box.log| - 1].id
  }

  function OldestEventId(box: Outbox): nat
    requires box.pruned <= |box.log|
  {
    if Retained(box) == [] then 0 else box.log[box.pruned].id
  }

  /** How many rows of an ascending log have an id of at most `id`. */
  function CountUpTo(log: seq<Row>, id: int): (n: nat)
    requires Ascending(log)
    ensures n <= |log|
    ensures forall i :: 0 <= i < |log| ==> (i < n <==> log[i].id <= id)
  {
    if log == [] then 0
    else if log[|log| - 1].id <= id then |log|
    else CountUpTo(log[..|log| - 1], id)
  }

  // ---- selection ----

  lemma {:induction false} SelectConcat(q: Query, xs: seq<Row>, ys: seq<Row>)
    ensures Select(q, xs + ys) == Select(q, xs) + Select(q, ys)
  {
    if xs == [] {
      assert xs + ys == ys;
    } else {
      assert (xs + ys)[1..] == xs[1..] + ys;
      SelectConcat(q, xs[1..], ys);
    }
  }

  lemma {:induction false} SelectAscending(q: Query, rows: seq<Row>)
    requires Ascending(rows)
    ensures Ascending(Select(q, rows))
  {
    if rows != [] {
      var rest := Select(q, rows[1..]);
      SelectAscending(q, rows[1..]);
      forall j | 0 <= j < |rest| ensures rows[0].id < rest[j].id {
        assert rest[j] in rows[1..];
      }
    }
  }

  lemma {:induction false} SelectAll(q: Query, rows: seq<Row>)
    requires forall i :: 0 <= i < |rows| ==> Admits(q, rows[i])
    ensures Select(q, rows) == rows
  {
    if rows != [] {
      SelectAll(q, rows[1..]);
    }
  }

  lemma {:induction false} SelectNone(q: Query, rows: seq<Row>)
    requires forall i :: 0 <= i < |rows| ==> !Admits(q, rows[i])
    ensures Select(q, rows) == []
  {
    if rows != [] {
      SelectNone(q, rows[1..]);
    }
  }

  lemma AscendingSlice(rows: seq<Row>, i: nat, j: nat)
    requires Ascending(rows) && i <= j <= |rows|
    ensures Ascending(rows[i..j])
  {
    forall x, y | 0 <= x < y < |rows[i..j]| ensures rows[i..j][x].id < rows[i..j][y].id {
      assert rows[i..j][x] == rows[i + x] && rows[i..j][y] == rows[i + y];
    }
  }

  /** What a poll selects before its limit: the log from the first retained row past `after`. */
  lemma PollSelectsASuffix(box: Outbox, after: int, from: nat)
    requires ValidOutbox(box)
    requires box.pruned <= from <= |box.log|
    requires forall i :: box.pruned <= i < |box.log| ==> (from <= i <==> box.log[i].id > after)
    ensures Select(After(after), Retained(box)) == box.log[from..]
  {
    var before, past := box.log[box.pruned..from], box.log[from..];
    assert Retained(box) == before + past;
    assert forall i :: 0 <= i < |before| ==> before[i] == box.log[box.pruned + i];
    assert forall i :: 0 <= i < |past| ==> past[i] == box.log[from + i];
    OnlyTheLatter(After(after), before, past);
  }

  lemma OnlyTheLatter(q: Query, before: seq<Row>, past: seq<Row>)
    requires forall i :: 0 <= i < |before| ==> !Admits(q, before[i])
    requires forall i :: 0 <= i < |past| ==> Admits(q, past[i])
    ensures Select(q, before + past) == past
  {
    SelectConcat(q, before, past);
    SelectNone(q, before);
    SelectAll(q, past);
  }

  lemma TakenSlice(log: seq<Row>, from: nat, limit: nat, rows: seq<Row>)
    requires from <= |log| && limit >= 1 && rows == Take(limit, log[from..])
    ensures from + |rows| <= |log| && |rows| <= limit
    ensures rows == log[from..from + |rows|] && (rows == [] <==> from == |log|)
  {
    assert rows == log[from..][..|rows|];
  }

  function Max(a: nat, b: nat): nat {
    if a < b then b else a
  }

  lemma RetainedPast(box: Outbox, after: int)
    requires ValidOutbox(box)
    ensures var from := Max(CountUpTo(box.log, after), box.pruned);
            && box.pruned <= from <= |box.log|
            && forall i :: box.pruned <= i < |box.log| ==> (from <= i <==> box.log[i].id > after)
  {
  }

  lemma SelectedSlice(box: Outbox, after: int, limit: nat, from: nat, rows: seq<Row>)
    requires box.pruned <= |box.log| && from <= |box.log| && limit >= 1
    requires Select(After(after), Retained(box)) == box.log[from..] && rows == ReadEventsSince(box, after, limit)
    ensures from + |rows| <= |box.log| && |rows| <= limit
    ensures rows == box.log[from..from + |rows|] && (rows == [] <==> from == |box.log|)
  {
    TakenSlice(box.log, from, limit, rows);
  }

  lemma PollIsASlice(box: Outbox, after: int, limit: nat, from: nat)
    requires ValidOutbox(box) && limit >= 1 && box.pruned <= from <= |box.log|
    requires forall i :: box.pruned <= i < |box.log| ==> (from <= i <==> box.log[i].id > after)
    ensures var rows := ReadEventsSince(box, after, limit);
            && from + |rows| <= |box.log|
            && rows == box.log[from..from + |rows|]
            && (rows == [] <==> from == |box.log|)
            && |rows| <= limit
  {
    hide Select, Admits, Ascending;
    PollSelectsASuffix(box, after, from);
    SelectedSlice(box, after, limit, from, ReadEventsSince(box, after, limit));
  }

  /**
    A poll past the first `pos` rows returns one contiguous run of the log, from the
    first row at or past `pos` that the prune job has left, and it is not empty
    while such a row exists.
   */
  lemma ReadEventsSinceIsASlice(box: Outbox, after: int, limit: nat)
    requires ValidOutbox(box) && limit >= 1
    ensures var from := Max(CountUpTo(box.log, after), box.pruned);
            var rows := ReadEventsSince(box, after, limit);
            && from + |rows| <= |box.log|
            && rows == box.log[from..from + |rows|]
            && (rows == [] <==> from == |box.log|)
            && |rows| <= limit
  {
    RetainedPast(box, after);
    PollIsASlice(box, after, limit, Max(CountUpTo(box.log, after), box.pruned));
  }

  /** The low-water mark tells a gap exactly: some row past `last` is gone and another is left. */
  lemma OldestTellsTheGap(box: Outbox, last: nat)
    requires ValidOutbox(box)
    requires exists i :: 0 <= i < box.pruned && box.log[i].id > last
    ensures Retained(box) != [] <==> OldestEventId(box) > last + 1
  {
    var i :| 0 <= i < box.pruned && box.log[i].id > last;
    if Retained(box) != [] {
      assert box.log[i].id < box.log[box.pruned].id;
    }
  }
}
