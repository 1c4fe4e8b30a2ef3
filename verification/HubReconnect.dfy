/** What a connection may see, and what a reconnect recovers. */
module HubReconnect {
  import opened Wrappers
  import opened Audience
  import opened Outbox
  import opened Events
  import opened Hub
  import opened HubInvariant
  import opened HubTheorems

  // ---- nothing a connection may not see ----

  ghost predicate Entitled(log: seq<Row>, who: Identity, event: Event) {
    exists i :: 0 <= i < |log| && Admits(Heard(who), log[i]) && EventOf(log[i]) == event
  }

  lemma SelectedIsEntitled(log: seq<Row>, who: Identity, rows: seq<Row>, event: Event)
    requires forall row :: row in rows ==> row in log
    requires event in EventsOf(Select(Heard(who), rows))
    ensures Entitled(log, who, event)
  {
    var picked := Select(Heard(who), rows);
    var i :| 0 <= i < |picked| && EventsOf(picked)[i] == event;
    assert picked[i] in log;
  }

  lemma DispatchedIsLogged(h: Hub)
    requires Inv(h)
    ensures forall row :: row in h.dispatched ==> row in h.box.log
  {
    DrawnFromBefore(h);
    forall row | row in h.dispatched ensures row in h.box.log {
      assert row in h.box.log[..h.pos];
    }
  }

  lemma BackfillIsLogged(log: seq<Row>, who: Identity, last: int, pruned: nat, logged: nat)
    requires pruned <= logged <= |log|
    ensures forall row :: row in BackfillOf(log, who, last, pruned, logged) ==>
              row in log && Admits(Heard(who), row) && row.id > last
  {
    var kept := log[..logged][pruned..];
    forall row | row in BackfillOf(log, who, last, pruned, logged) ensures row in log && row.id > last {
      assert row in Select(Replayable(who, last), kept);
      assert row in log[..logged];
    }
  }

  /** Whatever is on the stream, live or replayed, is a row of this community that `accepts` admits. */
  lemma OnlyEntitledFrames(h: Hub, key: nat, j: nat)
    requires Reachable(h) && key in h.subs && j < |h.subs[key].frames|
    requires h.subs[key].frames[j].Live? || h.subs[key].frames[j].Replayed?
    ensures Entitled(h.box.log, h.subs[key].who, h.subs[key].frames[j].event)
    ensures h.subs[key].frames[j].Replayed? ==> h.subs[key].frames[j].event.id > h.subs[key].last
  {
    ReachableHasInv(h);
    var sub := h.subs[key];
    var frame := sub.frames[j];
    assert SubInv(h, sub);
    if frame.Live? {
      assert frame in sub.frames;
      assert frame.event in LiveOf(sub.frames);
      MultisetMember(frame.event, Given(h, sub), Kept(sub), LostEvents(sub.losses));
      DispatchedIsLogged(h);
      SelectedIsEntitled(h.box.log, sub.who, h.dispatched[sub.joined..], frame.event);
    } else {
      ReplayedIsRead(sub, frame.event);
      var r := sub.read.value;
      var row :| row in r.rows && EventOf(row) == frame.event;
      BackfillIsLogged(h.box.log, sub.who, sub.last, r.pruned, r.logged);
      var i :| 0 <= i < |h.box.log| && h.box.log[i] == row;
    }
  }

  /** Frames yielded or still to be yielded from the backfill. */
  function Shown(sub: Sub): seq<Frame> {
    sub.frames + if sub.place.Replaying? then sub.place.backlog else []
  }

  lemma ReplayedIsRead(sub: Sub, event: Event)
    requires StreamShaped(sub) && Replayed(event) in Shown(sub)
    ensures sub.read.Some? && exists row :: row in sub.read.value.rows && EventOf(row) == event
  {
    var j :| 0 <= j < |Shown(sub)| && Shown(sub)[j] == Replayed(event);
    assert Backlog(sub)[j] == Replayed(event);
    assert |Head(sub)| <= j;
    var row := sub.read.value.rows[j - |Head(sub)|];
    assert row in sub.read.value.rows;
  }

  lemma ReadIsReplayed(sub: Sub, row: Row)
    requires StreamShaped(sub) && sub.read.Some? && row in sub.read.value.rows
    ensures Replayed(EventOf(row)) in Shown(sub)
  {
    var i :| 0 <= i < |sub.read.value.rows| && sub.read.value.rows[i] == row;
    assert Backlog(sub)[|Head(sub)| + i] == Replayed(EventOf(row));
    assert Backlog(sub) <= Shown(sub);
    assert Shown(sub)[|Head(sub)| + i] == Replayed(EventOf(row));
  }

  // ---- the prune horizon ----

  /** Some row past the client's last id was already pruned when the horizon was probed. */
  ghost predicate PrunedPast(h: Hub, sub: Sub)
    requires sub.probe.Some? && sub.probe.value.pruned <= |h.box.log|
  {
    exists i :: 0 <= i < sub.probe.value.pruned && h.box.log[i].id > sub.last
  }

  /** `_backfill` opened with the resync that tells the client to re-read everything. */
  ghost predicate Announced(sub: Sub) {
    Head(sub) != []
  }

  /** An announcement is the first frame, under the client's own last id. */
  lemma AnnouncedIsFirst(sub: Sub)
    requires StreamShaped(sub) && sub.read.Some? && Announced(sub)
    ensures sub.last > 0 && Shown(sub) != []
    ensures Shown(sub)[0] == Resync(ResyncEvent(sub.last, sub.who.role))
  {
    assert Backlog(sub) <= Shown(sub);
    assert Backlog(sub)[0] == Head(sub)[0];
  }

  lemma GapIsAnnounced(h: Hub, sub: Sub)
    requires ValidOutbox(h.box) && sub.last > 0 && sub.probe.Some? && ProbeSeen(h.box, sub.probe.value)
    requires sub.probe.value.ok && sub.probe.value.pruned < sub.probe.value.logged && PrunedPast(h, sub)
    ensures Announced(sub)
  {
    var p := sub.probe.value;
    var i :| 0 <= i < p.pruned && h.box.log[i].id > sub.last;
    assert h.box.log[i].id < h.box.log[p.pruned].id;
  }

  /**
    When the probe answered and rows were left in the table, a pruned row past the
    client's last id makes the first frame a resync carrying that id.
   */
  lemma PrunedGapIsAnnounced(h: Hub, key: nat)
    requires Reachable(h) && key in h.subs
    requires h.subs[key].read.Some? && h.subs[key].probe.Some?
    requires h.subs[key].probe.value.ok && h.subs[key].probe.value.pruned < h.subs[key].probe.value.logged
    ensures h.subs[key].probe.value.pruned <= |h.box.log|
    ensures var sub := h.subs[key];
            PrunedPast(h, sub) ==>
              && sub.last > 0 && Shown(sub) != []
              && Shown(sub)[0] == Resync(ResyncEvent(sub.last, sub.who.role))
  {
    ReachableHasInv(h);
    assert SubInv(h, h.subs[key]);
    GapComesFirst(h, h.subs[key]);
  }

  lemma GapComesFirst(h: Hub, sub: Sub)
    requires ValidOutbox(h.box) && StreamShaped(sub) && sub.read.Some? && sub.probe.Some?
    requires ProbeSeen(h.box, sub.probe.value)
    requires sub.probe.value.ok && sub.probe.value.pruned < sub.probe.value.logged
    ensures PrunedPast(h, sub) ==>
              && sub.last > 0 && Shown(sub) != []
              && Shown(sub)[0] == Resync(ResyncEvent(sub.last, sub.who.role))
  {
    if PrunedPast(h, sub) {
      GapIsAnnounced(h, sub);
      AnnouncedIsFirst(sub);
    }
  }

  // ---- what a reconnect recovers ----

  /** Live, replayed, or lost under a debt that `DropDebt` keeps. */
  ghost predicate Delivered(sub: Sub, event: Event) {
    Replayed(event) in Shown(sub) || InHandOrAhead(sub, event) || LostAndOwed(sub, event)
  }

  /** Row `i` of the log is one this client should have: its own, and past its last id. */
  ghost predicate Due(h: Hub, sub: Sub, i: nat)
    requires i < |h.box.log|
  {
    Admits(Heard(sub.who), h.box.log[i]) && h.box.log[i].id > sub.last
  }

  /** Every due row the poller's cursor has passed has reached the client. */
  ghost predicate Complete(h: Hub, sub: Sub)
    requires h.pos <= |h.box.log|
  {
    forall i :: 0 <= i < h.pos && Due(h, sub, i) ==> Delivered(sub, EventOf(h.box.log[i]))
  }

  lemma SameId(log: seq<Row>, i: nat, row: Row)
    requires Ascending(log) && i < |log| && row in log && row.id == log[i].id
    ensures row == log[i]
  {
    var j :| 0 <= j < |log| && log[j] == row;
    if i < j {
      assert log[i].id < log[j].id;
    }
  }

  lemma DueIsGiven(h: Hub, sub: Sub, i: nat)
    requires Inv(h) && Placed(h, sub) && i < |h.box.log| && Admits(Heard(sub.who), h.box.log[i])
    ensures h.box.log[i] in h.dispatched[sub.joined..] <==> EventOf(h.box.log[i]) in Given(h, sub)
  {
    DispatchedIsLogged(h);
    EventNamesItsRow(h.box.log, h.dispatched[sub.joined..], sub.who, i);
  }

  lemma EventNamesItsRow(log: seq<Row>, sent: seq<Row>, who: Identity, i: nat)
    requires Ascending(log) && (forall row :: row in sent ==> row in log)
    requires i < |log| && Admits(Heard(who), log[i])
    ensures log[i] in sent <==> EventOf(log[i]) in EventsOf(Select(Heard(who), sent))
  {
    hide Admits, Ascending;
    var row := log[i];
    var heard := Select(Heard(who), sent);
    if row in sent {
      var k :| 0 <= k < |heard| && heard[k] == row;
      assert EventsOf(heard)[k] == EventOf(row);
    }
    if EventOf(row) in EventsOf(heard) {
      var k :| 0 <= k < |heard| && EventsOf(heard)[k] == EventOf(row);
      assert heard[k] in sent;
      SameId(log, i, heard[k]);
    }
  }

  /**
    A due row reaches the client in exactly two ways: it was dispatched after the
    client attached, or the backfill read returned it.
   */
  lemma DeliveredExactly(h: Hub, key: nat, i: nat)
    requires Inv(h) && key in h.subs && h.subs[key].read.Some?
    requires i < h.pos && Due(h, h.subs[key], i)
    ensures var sub := h.subs[key];
            && sub.joined <= |h.dispatched|
            && (Delivered(sub, EventOf(h.box.log[i])) <==>
                  h.box.log[i] in h.dispatched[sub.joined..] || h.box.log[i] in sub.read.value.rows)
  {
    var sub := h.subs[key];
    var row := h.box.log[i];
    assert SubInv(h, sub);
    DueIsGiven(h, sub, i);
    MultisetMember(EventOf(row), Given(h, sub), Kept(sub), LostEvents(sub.losses));
    KeptMeaning(sub, EventOf(row));
    LostMeaning(sub, EventOf(row));
    if row in sub.read.value.rows {
      ReadIsReplayed(sub, row);
    }
    if Replayed(EventOf(row)) in Shown(sub) {
      ReplayedIsRead(sub, EventOf(row));
      var other :| other in sub.read.value.rows && EventOf(other) == EventOf(row);
      BackfillIsLogged(h.box.log, sub.who, sub.last, sub.read.value.pruned, sub.read.value.logged);
      SameId(h.box.log, i, other);
    }
  }

  /** A row the query selects is one `accepts` admits, and for canonical identities conversely. */
  lemma ReplayableIsHeard(who: Identity, last: int, row: Row)
    requires WellShaped(row) && RolesFolded(row) && Canonical(who)
    ensures Admits(Replayable(who, last), row) <==> Admits(Heard(who), row) && row.id > last
  {
    NarrowingExactFor(who, row);
  }

  ghost predicate CleanRows(log: seq<Row>) {
    forall i :: 0 <= i < |log| ==> WellShaped(log[i]) && RolesFolded(log[i])
  }

  /** The rows the backfill query selects among `log[from..to]`, before its cap. */
  function Backfillable(log: seq<Row>, who: Identity, last: int, from: nat, to: nat): seq<Row>
    requires from <= to <= |log|
  {
    Select(Replayable(who, last), log[from..to])
  }

  /** The backfill read is the first hundred rows its query selects. */
  lemma BackfillIsFirstHundred(log: seq<Row>, who: Identity, last: int, pruned: nat, logged: nat)
    requires pruned <= logged <= |log| && CleanRows(log) && Canonical(who)
    ensures BackfillOf(log, who, last, pruned, logged)
            == Take(BACKFILL_LIMIT, Backfillable(log, who, last, pruned, logged))
  {
    assert log[..logged][pruned..] == log[pruned..logged];
    var rows := Take(BACKFILL_LIMIT, Backfillable(log, who, last, pruned, logged));
    forall i | 0 <= i < |rows| ensures Admits(Heard(who), rows[i]) {
      assert rows[i] in log[pruned..logged];
      assert rows[i] in log;
      ReplayableIsHeard(who, last, rows[i]);
    }
    SelectAll(Heard(who), rows);
  }

  lemma DistinctPlaces(log: seq<Row>, i: nat, j: nat)
    requires Ascending(log) && i < |log| && j < |log|
    ensures log[i] == log[j] <==> i == j
  {
    assert i < j ==> log[i].id < log[j].id;
    assert j < i ==> log[j].id < log[i].id;
  }

  lemma SliceMember(log: seq<Row>, from: nat, to: nat, i: nat)
    requires Ascending(log) && from <= to <= |log| && i < |log|
    ensures log[i] in log[from..to] <==> from <= i < to
  {
    if log[i] in log[from..to] {
      var k :| 0 <= k < to - from && log[from..to][k] == log[i];
      DistinctPlaces(log, from + k, i);
    }
    if from <= i < to {
      assert log[from..to][i - from] == log[i];
    }
  }

  // ---- the exact condition, row by row ----

  lemma {:induction false} RowsOnce(rows: seq<Row>, row: Row)
    requires Ascending(rows)
    ensures multiset(rows)[row] <= 1
  {
    if rows != [] {
      var n := |rows| - 1;
      assert rows == rows[..n] + [rows[n]];
      RowsOnce(rows[..n], row);
      if row == rows[n] {
        assert forall i :: 0 <= i < n ==> rows[i].id < rows[n].id;
        assert row !in rows[..n];
      }
    }
  }

  /** The live feed brought row `i`: it is past the floor, and no prune overtook it since the attach. */
  ghost predicate FedLive(h: Hub, sub: Sub, i: nat)
    requires sub.missed <= |h.skipped| && i < |h.box.log|
  {
    LiveFloor(h, sub) <= i && h.box.log[i] !in h.skipped[sub.missed..]
  }

  /**
    The backfill brought row `i`: its read answered, the row was committed and not yet
    pruned when it ran, and fewer than a hundred of the client's rows came before it.
   */
  predicate ReadBack(log: seq<Row>, sub: Sub, i: nat) {
    && sub.read.Some? && sub.read.value.ok
    && sub.read.value.pruned <= i < sub.read.value.logged <= |log|
    && |Backfillable(log, sub.who, sub.last, sub.read.value.pruned, i)| < 100
  }

  lemma FedExactly(h: Hub, sub: Sub, i: nat)
    requires Basic(h) && Placed(h, sub) && i < h.pos
    ensures h.box.log[i] in h.dispatched[sub.joined..] <==> FedLive(h, sub, i)
  {
    var log, fl := h.box.log, LiveFloor(h, sub);
    var sent, lost := h.dispatched[sub.joined..], h.skipped[sub.missed..];
    TiledRow(log, fl, h.pos, sent, lost, log[i]);
    SliceMember(log, fl, h.pos, i);
    AscendingSlice(log, fl, h.pos);
    RowsOnce(log[fl..h.pos], log[i]);
    assert log[i] in sent ==> multiset(sent)[log[i]] >= 1;
    assert log[i] in lost ==> multiset(lost)[log[i]] >= 1;
  }

  /** A selected row stands in its selection behind exactly those that precede it in the log. */
  lemma SelectedPlace(q: Query, log: seq<Row>, from: nat, i: nat, to: nat)
    requires from <= i < to <= |log| && Admits(q, log[i])
    ensures var before, all := Select(q, log[from..i]), Select(q, log[from..to]);
            before + [log[i]] <= all
  {
    assert log[from..to] == log[from..i] + ([log[i]] + log[i + 1..to]);
    SelectConcat(q, log[from..i], [log[i]] + log[i + 1..to]);
    SelectConcat(q, [log[i]], log[i + 1..to]);
    assert Select(q, [log[i]]) == [log[i]];
  }

  /** The capped read returns a row exactly when fewer than a hundred selected rows precede it. */
  lemma TakenExactly(log: seq<Row>, who: Identity, last: int, pruned: nat, logged: nat, i: nat)
    requires Ascending(log) && pruned <= logged <= |log| && i < |log| && Admits(Replayable(who, last), log[i])
    ensures log[i] in Take(BACKFILL_LIMIT, Backfillable(log, who, last, pruned, logged))
            <==> pruned <= i < logged && |Backfillable(log, who, last, pruned, i)| < BACKFILL_LIMIT
  {
    var all := Backfillable(log, who, last, pruned, logged);
    var taken := Take(BACKFILL_LIMIT, all);
    SliceMember(log, pruned, logged, i);
    if pruned <= i < logged {
      var before := Backfillable(log, who, last, pruned, i);
      SelectedPlace(Replayable(who, last), log, pruned, i, logged);
      SliceMember(log, pruned, i, i);
      if |before| < BACKFILL_LIMIT {
        assert taken[|before|] == log[i];
      } else {
        assert taken <= before;
      }
    }
  }

  lemma ReadExactly(h: Hub, sub: Sub, i: nat)
    requires Basic(h) && Recovered(h, sub) && sub.read.Some? && CleanRows(h.box.log) && Canonical(sub.who)
    requires i < |h.box.log| && Due(h, sub, i)
    ensures h.box.log[i] in sub.read.value.rows <==> ReadBack(h.box.log, sub, i)
  {
    var r := sub.read.value;
    ReplayableIsHeard(sub.who, sub.last, h.box.log[i]);
    if r.ok {
      BackfillIsFirstHundred(h.box.log, sub.who, sub.last, r.pruned, r.logged);
      TakenExactly(h.box.log, sub.who, sub.last, r.pruned, r.logged, i);
    }
  }

  /**
    For every reconnect in every run, whatever failed or was pruned meanwhile: a due row
    the cursor has passed reaches the client if and only if the live feed or the backfill brought it.
   */
  lemma ReachesExactly(h: Hub, key: nat, i: nat)
    requires Reachable(h) && key in h.subs && h.subs[key].read.Some?
    requires CleanRows(h.box.log) && Canonical(h.subs[key].who)
    requires i < h.pos <= |h.box.log| && Due(h, h.subs[key], i)
    ensures h.subs[key].missed <= |h.skipped|
    ensures var sub := h.subs[key];
            Delivered(sub, EventOf(h.box.log[i])) <==> FedLive(h, sub, i) || ReadBack(h.box.log, sub, i)
  {
    ReachableHasInv(h);
    var sub := h.subs[key];
    assert SubInv(h, sub);
    DeliveredExactly(h, key, i);
    FedExactly(h, sub, i);
    ReadExactly(h, sub, i);
  }

  /** The announcement, in terms of what the probe met. */
  predicate GapSeen(log: seq<Row>, sub: Sub) {
    && sub.probe.Some? && sub.probe.value.ok && sub.last > 0
    && sub.probe.value.pruned < sub.probe.value.logged <= |log|
    && log[sub.probe.value.pruned].id > sub.last + 1
  }

  lemma AnnouncedExactly(h: Hub, sub: Sub)
    requires Basic(h) && Recovered(h, sub) && sub.last > 0
    ensures Announced(sub) <==> GapSeen(h.box.log, sub)
  {
  }

  /** Row `i` is due and neither way brought it. */
  ghost predicate Lost(h: Hub, sub: Sub, i: nat)
    requires sub.missed <= |h.skipped| && i < |h.box.log|
  {
    Due(h, sub, i) && !FedLive(h, sub, i) && !ReadBack(h.box.log, sub, i)
  }

  lemma ReconnectBounds(h: Hub, key: nat)
    requires Reachable(h) && key in h.subs
    ensures Basic(h) && h.pos <= |h.box.log| && h.subs[key].missed <= |h.skipped| && Recovered(h, h.subs[key])
  {
    ReachableHasInv(h);
    assert SubInv(h, h.subs[key]);
  }

  lemma CompleteUnless(h: Hub, sub: Sub)
    requires h.pos <= |h.box.log| && sub.missed <= |h.skipped|
    requires forall i: nat :: i < h.pos && Due(h, sub, i) ==> (Delivered(sub, EventOf(h.box.log[i])) <==> !Lost(h, sub, i))
    ensures Complete(h, sub) <==> forall i: nat :: i < h.pos ==> !Lost(h, sub, i)
  {
    hide Delivered, FedLive, ReadBack, EventOf;
  }

  /** The client has everything due to it exactly when no row is lost. */
  lemma CompleteExactly(h: Hub, key: nat)
    requires Reachable(h) && key in h.subs && h.subs[key].read.Some?
    requires CleanRows(h.box.log) && Canonical(h.subs[key].who)
    ensures h.pos <= |h.box.log| && h.subs[key].missed <= |h.skipped|
    ensures Complete(h, h.subs[key]) <==> forall i: nat :: i < h.pos ==> !Lost(h, h.subs[key], i)
  {
    hide Delivered, Lost, Due, EventOf, Recovered, Complete, Reachable;
    ReconnectBounds(h, key);
    forall i: nat | i < h.pos && Due(h, h.subs[key], i)
      ensures Delivered(h.subs[key], EventOf(h.box.log[i])) <==> !Lost(h, h.subs[key], i)
    {
      LostExactly(h, key, i);
    }
    CompleteUnless(h, h.subs[key]);
  }

  lemma LostExactly(h: Hub, key: nat, i: nat)
    requires Reachable(h) && key in h.subs && h.subs[key].read.Some?
    requires CleanRows(h.box.log) && Canonical(h.subs[key].who)
    requires i < h.pos <= |h.box.log| && Due(h, h.subs[key], i) && h.subs[key].missed <= |h.skipped|
    ensures Delivered(h.subs[key], EventOf(h.box.log[i])) <==> !Lost(h, h.subs[key], i)
  {
    ReachesExactly(h, key, i);
  }

  /**
    A reconnect loses something in silence exactly when the probe saw no gap and some due
    row was neither fed live nor read back.
   */
  lemma SilentLossExactly(h: Hub, key: nat)
    requires Reachable(h) && key in h.subs && h.subs[key].read.Some?
    requires CleanRows(h.box.log) && Canonical(h.subs[key].who)
    ensures h.pos <= |h.box.log| && h.subs[key].missed <= |h.skipped|
    ensures var sub := h.subs[key];
            !Complete(h, sub) && !Announced(sub)
            <==> !GapSeen(h.box.log, sub) && exists i :: 0 <= i < h.pos && Lost(h, sub, i)
  {
    hide Lost, Complete, Reachable, Announced, GapSeen;
    ReconnectBounds(h, key);
    if h.subs[key].last > 0 {
      AnnouncedExactly(h, h.subs[key]);
    } else {
      NothingAnnounced(h, h.subs[key]);
    }
    CompleteExactly(h, key);
  }

  lemma NothingAnnounced(h: Hub, sub: Sub)
    requires sub.last <= 0
    ensures !Announced(sub) && !GapSeen(h.box.log, sub)
  {
  }

  // ---- a reconnect nothing disturbed ----

  /**
    Nothing but the cap stands between the client and its rows: both reads answered
    with no prune between them and rows left in the table, the poller had its mark
    by then, and it has since been overtaken by no prune the probe had not seen.
   */
  ghost predicate Undisturbed(h: Hub, sub: Sub)
    requires sub.missed <= |h.skipped|
  {
    && sub.probe.Some? && sub.read.Some?
    && sub.probe.value.ok && sub.read.value.ok && sub.read.value.seeded
    && sub.probe.value.pruned == sub.read.value.pruned <= |h.box.log|
    && (sub.probe.value.pruned < sub.probe.value.logged || !PrunedPast(h, sub))
    && (forall row :: row in h.skipped[sub.missed..] ==> row in h.box.log[..sub.probe.value.pruned])
  }

  /** A due row is past the prune, unless the gap was announced. */
  lemma DueIsRetained(h: Hub, sub: Sub, i: nat)
    requires Inv(h) && SubInv(h, sub) && Undisturbed(h, sub) && !Announced(sub)
    requires sub.last > 0 && i < |h.box.log| && Due(h, sub, i)
    ensures sub.probe.value.pruned <= i
  {
    if i < sub.probe.value.pruned {
      assert PrunedPast(h, sub);
      GapIsAnnounced(h, sub);
    }
  }

  /** The rows of the log below its floor that the client's backfill would have to return. */
  function Owed(h: Hub, sub: Sub): seq<Row>
    requires sub.read.Some? && sub.read.value.pruned <= LiveFloor(h, sub) <= |h.box.log|
  {
    Backfillable(h.box.log, sub.who, sub.last, sub.read.value.pruned, LiveFloor(h, sub))
  }

  /** Where nothing else disturbs, a due row is lost exactly below the floor and behind a hundred others. */
  lemma LostUndisturbed(h: Hub, sub: Sub, i: nat)
    requires Inv(h) && SubInv(h, sub) && h.cursor.Some? && Undisturbed(h, sub) && !Announced(sub)
    requires sub.last > 0 && i < h.pos && Due(h, sub, i)
    ensures sub.read.value.pruned <= i
    ensures Lost(h, sub, i) <==>
              i < LiveFloor(h, sub) && |Backfillable(h.box.log, sub.who, sub.last, sub.read.value.pruned, i)| >= 100
  {
    var log := h.box.log;
    DueIsRetained(h, sub, i);
    SliceMember(log, 0, sub.probe.value.pruned, i);
    assert log[..sub.probe.value.pruned] == log[0..sub.probe.value.pruned];
  }

  lemma {:induction false} BeforeGrows(log: seq<Row>, who: Identity, last: int, from: nat, i: nat, to: nat)
    requires from <= i < to <= |log| && Admits(Replayable(who, last), log[i])
    ensures |Backfillable(log, who, last, from, i)| < |Backfillable(log, who, last, from, to)|
  {
    SelectedPlace(Replayable(who, last), log, from, i, to);
  }

  /** The row behind exactly `n` others of a selection. */
  lemma {:induction false} RowBehind(q: Query, log: seq<Row>, from: nat, upTo: nat, n: nat) returns (i: nat)
    requires from <= upTo <= |log| && n < |Select(q, log[from..upTo])|
    ensures from <= i < upTo && Admits(q, log[i]) && |Select(q, log[from..i])| == n
    decreases upTo
  {
    assert log[from..upTo] != [];
    var m := upTo - 1;
    assert log[from..upTo] == log[from..m] + [log[m]];
    SelectConcat(q, log[from..m], [log[m]]);
    assert [log[m]][1..] == [];
    if |Select(q, log[from..m])| > n {
      i := RowBehind(q, log, from, m, n);
    } else {
      i := m;
    }
  }

  /**
    A reconnect nothing disturbed is whole exactly when its gap was announced or at
    most a hundred of the client's own rows lay between its last id and the point
    where the live feed takes over.
   */
  lemma ReconnectIsWhole(h: Hub, key: nat)
    requires Reachable(h) && key in h.subs && h.cursor.Some? && h.subs[key].last > 0
    requires h.subs[key].missed <= |h.skipped| && Undisturbed(h, h.subs[key])
    requires CleanRows(h.box.log) && Canonical(h.subs[key].who)
    ensures h.pos <= |h.box.log| && LiveFloor(h, h.subs[key]) <= |h.box.log|
    ensures var sub := h.subs[key];
            Announced(sub) || (Complete(h, sub) <==>
              (sub.read.value.pruned <= LiveFloor(h, sub) ==> |Owed(h, sub)| <= 100))
  {
    ReachableHasInv(h);
    var sub := h.subs[key];
    assert SubInv(h, sub);
    if !Announced(sub) {
      CompleteExactly(h, key);
      if sub.read.value.pruned <= LiveFloor(h, sub) && |Owed(h, sub)| > 100 {
        TooManyOwed(h, sub);
      } else {
        FewOwed(h, sub);
      }
    }
  }

  lemma TooManyOwed(h: Hub, sub: Sub)
    requires Inv(h) && SubInv(h, sub) && h.cursor.Some? && Undisturbed(h, sub) && !Announced(sub) && sub.last > 0
    requires CleanRows(h.box.log) && Canonical(sub.who)
    requires sub.read.value.pruned <= LiveFloor(h, sub) && |Owed(h, sub)| > 100
    ensures exists i :: 0 <= i < h.pos && Lost(h, sub, i)
  {
    var i := RowBehind(Replayable(sub.who, sub.last), h.box.log, sub.read.value.pruned, LiveFloor(h, sub), 100);
    ReplayableIsHeard(sub.who, sub.last, h.box.log[i]);
    LostUndisturbed(h, sub, i);
  }

  lemma FewOwed(h: Hub, sub: Sub)
    requires Inv(h) && SubInv(h, sub) && h.cursor.Some? && Undisturbed(h, sub) && !Announced(sub) && sub.last > 0
    requires CleanRows(h.box.log) && Canonical(sub.who)
    requires sub.read.value.pruned <= LiveFloor(h, sub) ==> |Owed(h, sub)| <= 100
    ensures forall i: nat :: i < h.pos ==> !Lost(h, sub, i)
  {
    forall i: nat | i < h.pos && Due(h, sub, i) ensures !Lost(h, sub, i) {
      LostUndisturbed(h, sub, i);
      ReplayableIsHeard(sub.who, sub.last, h.box.log[i]);
      if i < LiveFloor(h, sub) {
        BeforeGrows(h.box.log, sub.who, sub.last, sub.read.value.pruned, i, LiveFloor(h, sub));
      }
    }
  }
}
