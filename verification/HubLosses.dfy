/** A run for each way in which a reconnect loses a row in silence, besides the cap on the backfill. */
module HubLosses {
  import opened Wrappers
  import opened Audience
  import opened Outbox
  import opened Events
  import opened Hub
  import opened HubInvariant
  import opened HubTheorems
  import opened HubReconnect

  function Note(id: nat): Row {
    Row(id, "c", "note", Null, Some(COMMUNITY), None, None)
  }

  function Client(): Identity {
    Identity("c", seq(36, _ => '0'), "resident")
  }

  /** A client that last saw row 1 attaches to a process that has not read the table yet. */
  lemma AttachedClient(box: Outbox) returns (h: Hub)
    requires ValidOutbox(box)
    ensures Reachable(h) && Basic(h)
    ensures h == Init(box, 500).(subs := map[0 := NewSub(Init(box, 500), Client(), 1)])
  {
    ReachableStart(box, 500);
    ReachableNext(Init(box, 500), Attach(0, Client(), 1));
    h := Next(Init(box, 500), Attach(0, Client(), 1));
  }

  lemma Seed(h: Hub, mark: nat, seen: nat) returns (seeded: Hub)
    requires Reachable(h) && Basic(h) && h.poller.Idle? && h.cursor.None? && 0 in h.subs
    requires mark == LatestEventId(h.box) && seen == CountUpTo(h.box.log, mark)
    ensures Reachable(seeded) && Basic(seeded)
    ensures seeded == h.(cursor := Some(mark), start := seen, pos := seen)
  {
    ReachableNext(h, SeedRead);
    ReachableNext(Next(h, SeedRead), SeedStore);
    seeded := Next(Next(h, SeedRead), SeedStore);
  }

  lemma Consumes(h: Hub, move: Move) returns (next: Hub)
    requires Reachable(h) && Basic(h) && 0 in h.subs && CanMove(h.subs[0], move)
    ensures Reachable(next) && Basic(next)
    ensures next == h.(subs := h.subs[0 := Moved(h, h.subs[0], move)])
  {
    ReachableNext(h, Consume(0, move));
    next := Next(h, Consume(0, move));
  }

  lemma Commits(h: Hub, id: nat) returns (next: Hub)
    requires Reachable(h) && Basic(h) && Enabled(h, Commit(Note(id)))
    ensures Reachable(next) && Basic(next)
    ensures next == h.(box := h.box.(log := h.box.log + [Note(id)]))
  {
    hide Reachable, Basic;
    ReachableNext(h, Commit(Note(id)));
    next := Next(h, Commit(Note(id)));
  }

  lemma Prunes(h: Hub, upTo: nat) returns (next: Hub)
    requires Reachable(h) && Basic(h) && Enabled(h, Prune(upTo))
    ensures Reachable(next) && Basic(next)
    ensures next == h.(box := h.box.(pruned := upTo))
  {
    hide Reachable, Basic;
    ReachableNext(h, Prune(upTo));
    next := Next(h, Prune(upTo));
  }

  lemma NotesAreClean(log: seq<Row>)
    requires forall i :: 0 <= i < |log| ==> log[i] == Note(log[i].id)
    ensures CleanRows(log) && Canonical(Client())
  {
  }

  /** Silent loss, in the words of `SilentLossExactly`. */
  ghost predicate LosesInSilence(h: Hub) {
    && Reachable(h) && 0 in h.subs && h.cursor.Some? && h.pos <= |h.box.log|
    && !Complete(h, h.subs[0]) && !Announced(h.subs[0])
  }

  lemma LostInSilence(h: Hub, i: nat)
    requires Reachable(h) && 0 in h.subs && h.cursor.Some? && h.subs[0].read.Some? && h.subs[0].who == Client()
    requires forall i :: 0 <= i < |h.box.log| ==> h.box.log[i] == Note(h.box.log[i].id)
    requires i < h.pos <= |h.box.log| && h.subs[0].missed <= |h.skipped|
    requires !GapSeen(h.box.log, h.subs[0]) && Lost(h, h.subs[0], i)
    ensures LosesInSilence(h)
  {
    NotesAreClean(h.box.log);
    SilentLossExactly(h, 0);
  }

  lemma TwoNotes()
    ensures var log := [Note(1), Note(2)]; Ascending(log) && CountUpTo(log, 2) == 2
    ensures ValidOutbox(Outbox([Note(1), Note(2)], 0)) && LatestEventId(Outbox([Note(1), Note(2)], 0)) == 2
  {
  }

  /** Two rows, the client has the first, and the cursor is past both. */
  lemma SeededClient() returns (h: Hub)
    ensures Reachable(h) && Basic(h) && h.box == Outbox([Note(1), Note(2)], 0) && h.subs.Keys == {0}
    ensures h.cursor.Some? && h.start == h.pos == 2 && h.skipped == []
    ensures h.subs[0] == NewSub(Init(h.box, 500), Client(), 1)
  {
    TwoNotes();
    var h1 := AttachedClient(Outbox([Note(1), Note(2)], 0));
    h := Seed(h1, 2, 2);
  }

  /**
    A prune that lands between the horizon probe and the backfill read takes rows the
    probe had promised: the client is neither given them nor told.
   */
  lemma PruneBetweenProbeAndRead() returns (h: Hub)
    ensures LosesInSilence(h)
    ensures h.subs[0].probe.Some? && h.subs[0].probe.value.ok && h.subs[0].read.Some? && h.subs[0].read.value.ok
  {
    hide Reachable, Basic, LosesInSilence;
    var h3 := SeededClient();
    var h4 := Consumes(h3, ProbeMark(true));
    var h5 := Prunes(h4, 2);
    h := Consumes(h5, ReadBackfill(true));
    LostInSilence(h, 1);
  }

  /** A prune that empties the table before the probe leaves nothing to tell the gap by. */
  lemma EmptiedOutbox() returns (h: Hub)
    ensures LosesInSilence(h)
    ensures h.subs[0].probe.Some? && h.subs[0].probe.value.ok && h.subs[0].read.Some? && h.subs[0].read.value.ok
    ensures h.subs[0].probe.value.pruned == h.subs[0].read.value.pruned
  {
    hide Reachable, Basic, LosesInSilence;
    var h3 := SeededClient();
    var h4 := Prunes(h3, 2);
    var h5 := Consumes(h4, ProbeMark(true));
    h := Consumes(h5, ReadBackfill(true));
    LostInSilence(h, 1);
  }

  /** A backfill read that fails is no reason to tell the client anything. */
  lemma FailedRead() returns (h: Hub)
    ensures LosesInSilence(h) && h.box.pruned == 0
    ensures h.subs[0].probe.Some? && h.subs[0].probe.value.ok && h.subs[0].read.Some? && !h.subs[0].read.value.ok
  {
    hide Reachable, Basic, LosesInSilence;
    var h3 := SeededClient();
    var h4 := Consumes(h3, ProbeMark(true));
    h := Consumes(h4, ReadBackfill(false));
    LostInSilence(h, 1);
  }

  /** The same client over three rows, of which a prune has left the last. */
  lemma SeededOverGap() returns (h: Hub)
    ensures Reachable(h) && Basic(h) && h.box == Outbox([Note(1), Note(2), Note(3)], 2) && h.subs.Keys == {0}
    ensures h.cursor.Some? && h.start == h.pos == 2 && h.skipped == []
    ensures h.subs[0] == Sub(Client(), 1, Mail([], false), [], Probing, 0, 0, 0, [], None, None)
  {
    hide Reachable, Basic;
    var h3 := SeededClient();
    var h4 := Commits(h3, 3);
    assert h4.box.log == [Note(1), Note(2), Note(3)];
    h := Prunes(h4, 2);
  }

  /** A probe that fails over a gap keeps it to itself. */
  lemma FailedProbe() returns (h: Hub)
    ensures LosesInSilence(h)
    ensures h.subs[0].probe.Some? && !h.subs[0].probe.value.ok && h.subs[0].read.Some? && h.subs[0].read.value.ok
    ensures h.subs[0].probe.value.pruned == h.subs[0].read.value.pruned < h.subs[0].probe.value.logged
  {
    hide Reachable, Basic, LosesInSilence;
    var h4 := SeededOverGap();
    var h5 := Consumes(h4, ProbeMark(false));
    h := Consumes(h5, ReadBackfill(true));
    assert h.box.log[1] == Note(2) && h.subs[0].read.value.pruned == 2 && h.subs[0].missed == 0;
    LostInSilence(h, 1);
  }

  /** With the cursor still unseeded, the client's backfill finds nothing past row 1. */
  lemma ReadEmpty() returns (h: Hub)
    ensures Reachable(h) && Basic(h) && h.box == Outbox([Note(1)], 0) && h.subs.Keys == {0}
    ensures h.poller.Idle? && h.cursor.None? && h.batch == 500 && h.dispatched == [] && h.skipped == []
    ensures var sub := h.subs[0];
            && sub.probe == Some(Probe(true, 1, 0, 1)) && sub.read == Some(Read(true, [], 0, 1, false))
            && sub.who == Client() && sub.last == 1 && sub.floor == sub.missed == 0
  {
    var h1 := AttachedClient(Outbox([Note(1)], 0));
    var h2 := Consumes(h1, ProbeMark(true));
    h := Consumes(h2, ReadBackfill(true));
    assert h.subs[0].read.value.rows == [];
  }

  /**
    A mark taken only after the backfill read skips whatever was committed between
    the two: it is below the live feed and past the replay.
   */
  lemma SeedAfterRead() returns (h: Hub)
    ensures LosesInSilence(h) && h.box.pruned == 0
    ensures h.subs[0].probe.Some? && h.subs[0].probe.value.ok && h.subs[0].read.Some? && h.subs[0].read.value.ok
  {
    hide Reachable, Basic, LosesInSilence;
    TwoNotes();
    var h3 := ReadEmpty();
    var h4 := Commits(h3, 2);
    assert h4.box == Outbox([Note(1), Note(2)], 0);
    h := Seed(h4, 2, 2);
    LostInSilence(h, 1);
  }

  lemma OneNote()
    ensures ValidOutbox(Outbox([Note(1)], 0)) && LatestEventId(Outbox([Note(1)], 0)) == 1 && CountUpTo([Note(1)], 1) == 1
  {
  }

  /** The client is live, and three rows are committed of which a prune has taken the first two. */
  lemma PrunedAhead() returns (h: Hub)
    ensures Reachable(h) && Basic(h) && h.box == Outbox([Note(1), Note(2), Note(3)], 2)
    ensures h.poller.Idle? && h.cursor == Some(1) && h.start == h.pos == 1 && h.batch == 500
    ensures h.dispatched == [] && h.skipped == [] && h.subs.Keys == {0}
    ensures var sub := h.subs[0];
            && sub.probe == Some(Probe(true, 1, 0, 1)) && sub.read == Some(Read(true, [], 0, 1, false))
            && sub.who == Client() && sub.last == 1 && sub.floor == sub.missed == 0
  {
    OneNote();
    var h2 := ReadEmpty();
    var h3 := Seed(h2, 1, 1);
    var h4 := Commits(h3, 2);
    assert h4.box.log == [Note(1), Note(2)];
    var h5 := Commits(h4, 3);
    assert h5.box.log == [Note(1), Note(2), Note(3)];
    h := Prunes(h5, 2);
  }

  /** The next poll, past row 1, finds row 3 alone. */
  lemma PolledPast() returns (h: Hub)
    ensures Reachable(h) && Basic(h) && h.box == Outbox([Note(1), Note(2), Note(3)], 2)
    ensures h.poller == Fetched([Note(3)], 2) && h.cursor == Some(1) && h.start == h.pos == 1
    ensures h.skipped == [] && h.subs.Keys == {0}
    ensures var sub := h.subs[0];
            && sub.probe == Some(Probe(true, 1, 0, 1)) && sub.read == Some(Read(true, [], 0, 1, false))
            && sub.who == Client() && sub.last == 1 && sub.floor == sub.missed == 0
  {
    hide Reachable, ReadEventsSince;
    var h5 := PrunedAhead();
    ReadEventsSinceIsASlice(h5.box, 1, 500);
    ReachableNext(h5, FetchRead);
    h := Next(h5, FetchRead);
  }

  /** Its dispatch leaves row 2 behind. */
  lemma Overtaken() returns (h: Hub)
    ensures Reachable(h) && h.box == Outbox([Note(1), Note(2), Note(3)], 2) && h.subs.Keys == {0}
    ensures h.cursor.Some? && h.start == 1 && h.pos == 3 && h.skipped == [Note(2)]
    ensures var sub := h.subs[0];
            && sub.probe == Some(Probe(true, 1, 0, 1)) && sub.read == Some(Read(true, [], 0, 1, false))
            && sub.who == Client() && sub.last == 1 && sub.floor == sub.missed == 0
  {
    hide Reachable, Select, PutAll, EventsOf, LossesOf, CountUpTo, ValidOutbox;
    var h6 := PolledPast();
    ReachableNext(h6, Dispatch);
    h := Next(h6, Dispatch);
    assert h.skipped == h6.box.log[1..2] == [Note(2)];
  }

  /** A prune that overtakes the poller takes live rows, and nobody announces it. */
  lemma PruneOvertakesThePoller() returns (h: Hub)
    ensures LosesInSilence(h)
    ensures h.subs[0].probe.Some? && h.subs[0].probe.value.ok && h.subs[0].read.Some? && h.subs[0].read.value.ok
    ensures h.subs[0].read.value.pruned == 0 && h.start == 1 && h.skipped == [Note(2)]
  {
    hide Reachable, Basic, LosesInSilence;
    h := Overtaken();
    assert h.box.log[1] == Note(2) && Note(2) in [Note(2)][0..];
    LostInSilence(h, 1);
  }
}
