/** What every step of the hub keeps, and so what holds in every reachable state. */
module HubInvariant {
  import opened Wrappers
  import opened Audience
  import opened Outbox
  import opened Events
  import opened Hub

  // ---- the poller ----

  /** `log[from..to]` was split between `sent` and `lost`, nothing twice and nothing else. */
  ghost predicate Tiles(log: seq<Row>, from: nat, to: nat, sent: seq<Row>, lost: seq<Row>) {
    from <= to <= |log| && multiset(log[from..to]) == multiset(sent) + multiset(lost)
  }

  ghost predicate PollerExact(h: Hub)
    requires Basic(h)
  {
    && Tiles(h.box.log, h.start, h.pos, h.dispatched, h.skipped)
    && Ascending(h.dispatched)
    && Ascending(h.skipped)
    && (forall row :: row in h.skipped ==> row in h.box.log[..h.box.pruned])
  }

  // ---- one connection ----

  function Given(h: Hub, sub: Sub): seq<Event>
    requires sub.joined <= |h.dispatched|
  {
    EventsOf(Select(Heard(sub.who), h.dispatched[sub.joined..]))
  }

  function Hand(place: Place): seq<Event> {
    if place.Holding? then [place.event] else []
  }

  /** The live events this connection still has or has delivered, oldest first. */
  function Kept(sub: Sub): seq<Event> {
    LiveOf(sub.frames) + Hand(sub.place) + sub.mail.queue
  }

  function LostEvents(losses: seq<Loss>): (r: seq<Event>)
    ensures |r| == |losses|
    ensures forall i :: 0 <= i < |r| ==> r[i] == losses[i].event
  {
    seq(|losses|, i requires 0 <= i < |losses| => losses[i].event)
  }

  /** Every event pushed at this connection was kept or lost, once, each in order. */
  ghost predicate Accounted(sub: Sub, given: seq<Event>) {
    && multiset(given) == multiset(Kept(sub)) + multiset(LostEvents(sub.losses))
    && AscendingIds(Kept(sub))
    && AscendingIds(LostEvents(sub.losses))
  }

  ghost predicate Repaid(frames: seq<Frame>, at: nat) {
    exists j :: at <= j < |frames| && frames[j].Resync?
  }

  /** The debt: a lost event is still owed a resync, or one was yielded after it was lost. */
  ghost predicate DebtKept(sub: Sub) {
    && |sub.mail.queue| <= QUEUE_MAXSIZE
    && (sub.mail.dropped && !sub.place.Holding? && !sub.place.Yielded? ==> sub.mail.queue != [])
    && (forall loss :: loss in sub.losses ==>
          loss.at <= |sub.frames| && (sub.mail.dropped || Repaid(sub.frames, loss.at)))
  }

  /** What has been yielded: the backlog first, whole and in order, then only live frames. */
  ghost predicate StreamShaped(sub: Sub) {
    match sub.place
    case Probing => sub.frames == [] && sub.last > 0 && sub.probe.None? && sub.read.None?
    case Reading => sub.frames == [] && sub.last > 0 && sub.probe.Some? && sub.read.None?
    case Replaying(backlog) =>
      && sub.last > 0 && sub.probe.Some? && sub.read.Some?
      && sub.frames + backlog == Backlog(sub)
    case _ =>
      && (if sub.last > 0 then sub.probe.Some? && sub.read.Some? else sub.probe.None? && sub.read.None?)
      && Backlog(sub) <= sub.frames
      && forall j :: |Backlog(sub)| <= j < |sub.frames| ==> !sub.frames[j].Replayed?
  }

  function LiveFloor(h: Hub, sub: Sub): nat {
    Max(sub.floor, h.start)
  }

  /** Since it attached, the log past its floor was dispatched or overtaken by the prune job. */
  ghost predicate Placed(h: Hub, sub: Sub)
    requires Basic(h)
  {
    && sub.joined <= |h.dispatched|
    && sub.missed <= |h.skipped|
    && sub.floor <= h.pos
    && Tiles(h.box.log, LiveFloor(h, sub), h.pos, h.dispatched[sub.joined..], h.skipped[sub.missed..])
  }

  function BackfillOf(log: seq<Row>, who: Identity, last: int, pruned: nat, logged: nat): seq<Row>
    requires pruned <= logged <= |log|
  {
    Select(Heard(who), ReadEvents(Outbox(log[..logged], pruned), who, last))
  }

  ghost predicate ProbeSeen(box: Outbox, p: Probe) {
    && p.pruned <= p.logged <= |box.log|
    && p.pruned <= box.pruned
    && p.oldest == if p.ok && p.pruned < p.logged then box.log[p.pruned].id else 0
  }

  ghost predicate ReadSeen(box: Outbox, who: Identity, last: int, p: Probe, r: Read) {
    && p.pruned <= r.pruned <= r.logged <= |box.log|
    && p.logged <= r.logged
    && r.pruned <= box.pruned
    && r.rows == if r.ok then BackfillOf(box.log, who, last, r.pruned, r.logged) else []
  }

  /** The poller's mark was taken while the log still had at most `logged` rows. */
  ghost predicate SeededBy(h: Hub, sub: Sub, logged: nat)
    requires Basic(h)
  {
    if h.cursor.Some? then LiveFloor(h, sub) <= logged
    else h.poller.Seeding? && CountUpTo(h.box.log, h.poller.mark) <= logged
  }

  /** What the probe and the read saw, restated against the log as it is now. */
  ghost predicate Recovered(h: Hub, sub: Sub)
    requires Basic(h)
  {
    && (sub.probe.Some? ==> ProbeSeen(h.box, sub.probe.value))
    && (sub.read.Some? ==>
          && sub.probe.Some?
          && ReadSeen(h.box, sub.who, sub.last, sub.probe.value, sub.read.value)
          && (sub.read.value.seeded ==> SeededBy(h, sub, sub.read.value.logged)))
  }

  ghost predicate SubInv(h: Hub, sub: Sub)
    requires Basic(h)
  {
    && DebtKept(sub)
    && StreamShaped(sub)
    && Placed(h, sub)
    && Accounted(sub, Given(h, sub))
    && Recovered(h, sub)
  }

  ghost predicate Inv(h: Hub) {
    && Basic(h)
    && PollerExact(h)
    && forall key :: key in h.subs ==> SubInv(h, h.subs[key])
  }

  // ---- a connection's own moves ----

  lemma BacklogIsNotLive(sub: Sub)
    ensures forall j :: 0 <= j < |Backlog(sub)| ==> !Backlog(sub)[j].Live?
  {
  }

  lemma NextInBacklog(sub: Sub)
    requires sub.place.Replaying? && sub.place.backlog != []
    requires sub.frames + sub.place.backlog == Backlog(sub)
    ensures !sub.place.backlog[0].Live?
  {
    BacklogIsNotLive(sub);
    assert Backlog(sub)[|sub.frames|] == sub.place.backlog[0];
  }

  lemma HeadInHand(live: seq<Event>, queue: seq<Event>)
    requires queue != []
    ensures live + [] + queue == live + [queue[0]] + queue[1..]
  {
  }

  lemma FromHand(live: seq<Event>, event: Event, queue: seq<Event>)
    ensures live + [event] + queue == (live + [event]) + [] + queue
  {
  }

  lemma ReplayKeepsKept(h: Hub, sub: Sub)
    requires Basic(h) && CanMove(sub, ReplayOne) && sub.frames + sub.place.backlog == Backlog(sub)
    ensures Kept(Moved(h, sub, ReplayOne)) == Kept(sub)
  {
    if sub.place.backlog != [] {
      NextInBacklog(sub);
      LiveOfAppend(sub.frames, sub.place.backlog[0]);
    }
  }

  lemma YieldKeepsKept(h: Hub, sub: Sub)
    requires Basic(h) && CanMove(sub, Yield)
    ensures Kept(Moved(h, sub, Yield)) == Kept(sub)
  {
    LiveOfAppend(sub.frames, Live(sub.place.event));
    FromHand(LiveOf(sub.frames), sub.place.event, sub.mail.queue);
  }

  lemma SettleKeepsKept(h: Hub, sub: Sub)
    requires Basic(h) && CanMove(sub, Settle)
    ensures Kept(Moved(h, sub, Settle)) == Kept(sub)
  {
    LiveOfAppend(sub.frames, Resync(ResyncEvent(sub.place.event.id, sub.who.role)));
  }

  lemma MoveKeepsKept(h: Hub, sub: Sub, move: Move)
    requires Basic(h) && CanMove(sub, move)
    requires sub.place.Replaying? ==> sub.frames + sub.place.backlog == Backlog(sub)
    ensures Kept(Moved(h, sub, move)) == Kept(sub)
  {
    match move
    case ProbeMark(_) =>
    case ReadBackfill(_) =>
    case ReplayOne => ReplayKeepsKept(h, sub);
    case Beat => LiveOfAppend(sub.frames, Keepalive);
    case Get => HeadInHand(LiveOf(sub.frames), sub.mail.queue);
    case Yield => YieldKeepsKept(h, sub);
    case Settle => SettleKeepsKept(h, sub);
  }

  lemma RepaidMonotone(frames: seq<Frame>, frame: Frame, at: nat)
    requires Repaid(frames, at) || (at <= |frames| && frame.Resync?)
    ensures Repaid(frames + [frame], at)
  {
    var longer := frames + [frame];
    if Repaid(frames, at) {
      var j :| at <= j < |frames| && frames[j].Resync?;
      assert longer[j].Resync?;
    } else {
      assert longer[|frames|].Resync?;
    }
  }

  lemma MoveKeepsDebt(h: Hub, sub: Sub, move: Move)
    requires Basic(h) && CanMove(sub, move) && DebtKept(sub)
    ensures DebtKept(Moved(h, sub, move))
  {
    var next := Moved(h, sub, move);
    if |next.frames| > |sub.frames| {
      var frame := next.frames[|sub.frames|];
      assert next.frames == sub.frames + [frame];
      forall loss | loss in sub.losses && (Repaid(sub.frames, loss.at) || frame.Resync?)
        ensures Repaid(next.frames, loss.at)
      {
        RepaidMonotone(sub.frames, frame, loss.at);
      }
    }
  }

  lemma FrameKeepsStream(sub: Sub, next: Sub, frame: Frame)
    requires StreamShaped(sub) && !sub.place.Probing? && !sub.place.Reading? && !sub.place.Replaying?
    requires next == sub.(frames := sub.frames + [frame], place := next.place, mail := next.mail)
    requires !next.place.Probing? && !next.place.Reading? && !next.place.Replaying?
    requires !frame.Replayed?
    ensures StreamShaped(next)
  {
    assert Backlog(next) == Backlog(sub);
  }

  lemma ReplayKeepsStream(sub: Sub, next: Sub)
    requires StreamShaped(sub) && sub.place.Replaying?
    requires next == (if sub.place.backlog == [] then sub.(place := Waiting)
                      else sub.(frames := sub.frames + [sub.place.backlog[0]],
                                place := Replaying(sub.place.backlog[1..])))
    ensures StreamShaped(next)
  {
    assert Backlog(next) == Backlog(sub);
    if sub.place.backlog == [] {
      assert sub.frames + [] == sub.frames;
    } else {
      assert next.frames + next.place.backlog == sub.frames + sub.place.backlog;
    }
  }

  lemma MoveKeepsStream(h: Hub, sub: Sub, move: Move)
    requires Basic(h) && CanMove(sub, move) && StreamShaped(sub)
    ensures StreamShaped(Moved(h, sub, move))
  {
    var next := Moved(h, sub, move);
    match move
    case ProbeMark(_) =>
    case ReadBackfill(_) => assert next.frames + next.place.backlog == Backlog(next);
    case ReplayOne => ReplayKeepsStream(sub, next);
    case Beat => FrameKeepsStream(sub, next, Keepalive);
    case Get => assert Backlog(next) == Backlog(sub);
    case Yield => FrameKeepsStream(sub, next, Live(sub.place.event));
    case Settle =>
      if |next.frames| > |sub.frames| {
        FrameKeepsStream(sub, next, Resync(ResyncEvent(sub.place.event.id, sub.who.role)));
      } else {
        assert Backlog(next) == Backlog(sub);
      }
  }

  lemma ReadIsBackfill(h: Hub, sub: Sub, ok: bool)
    requires Basic(h)
    ensures ReadOf(h, sub, ok).rows
            == if ok then BackfillOf(h.box.log, sub.who, sub.last, h.box.pruned, |h.box.log|) else []
  {
    assert h.box.log[..|h.box.log|] == h.box.log;
    assert h.box == Outbox(h.box.log, h.box.pruned);
  }

  lemma ReadKeepsRecovery(h: Hub, sub: Sub, ok: bool)
    requires Basic(h) && sub.place.Reading? && sub.probe.Some?
    requires Placed(h, sub) && ProbeSeen(h.box, sub.probe.value)
    ensures Recovered(h, Moved(h, sub, ReadBackfill(ok)))
  {
    ReadIsBackfill(h, sub, ok);
    var next := Moved(h, sub, ReadBackfill(ok));
    assert next.read.value == ReadOf(h, sub, ok);
    assert LiveFloor(h, next) == LiveFloor(h, sub) <= h.pos;
    assert ReadSeen(h.box, next.who, next.last, next.probe.value, next.read.value);
  }

  lemma MoveKeepsRecovery(h: Hub, sub: Sub, move: Move)
    requires Basic(h) && CanMove(sub, move) && StreamShaped(sub) && Placed(h, sub) && Recovered(h, sub)
    ensures Recovered(h, Moved(h, sub, move))
  {
    var next := Moved(h, sub, move);
    match move
    case ProbeMark(ok) => assert ProbeSeen(h.box, ProbeOf(h.box, ok));
    case ReadBackfill(ok) => ReadKeepsRecovery(h, sub, ok);
    case _ => assert next.probe == sub.probe && next.read == sub.read && LiveFloor(h, next) == LiveFloor(h, sub);
  }

  lemma MoveKeepsSub(h: Hub, sub: Sub, move: Move)
    requires Basic(h) && SubInv(h, sub) && CanMove(sub, move)
    ensures SubInv(h, Moved(h, sub, move))
  {
    MoveKeepsDebt(h, sub, move);
    MoveKeepsStream(h, sub, move);
    MoveKeepsRecovery(h, sub, move);
    MoveKeepsAccounts(h, sub, move);
  }

  lemma MovedFields(h: Hub, sub: Sub, move: Move)
    requires Basic(h) && CanMove(sub, move)
    ensures var next := Moved(h, sub, move);
            && next.who == sub.who && next.losses == sub.losses
            && next.joined == sub.joined && next.missed == sub.missed && next.floor == sub.floor
  {
  }

  lemma MoveKeepsAccounts(h: Hub, sub: Sub, move: Move)
    requires Basic(h) && CanMove(sub, move) && StreamShaped(sub) && Placed(h, sub) && Accounted(sub, Given(h, sub))
    ensures Placed(h, Moved(h, sub, move))
    ensures Accounted(Moved(h, sub, move), Given(h, Moved(h, sub, move)))
  {
    MoveKeepsKept(h, sub, move);
    MovedFields(h, sub, move);
    SameAccounts(h, sub, Moved(h, sub, move));
  }

  /** A move changes none of what the accounts and the placing are kept in. */
  lemma SameAccounts(h: Hub, sub: Sub, next: Sub)
    requires Basic(h) && Placed(h, sub) && Accounted(sub, Given(h, sub))
    requires next.who == sub.who && next.losses == sub.losses && Kept(next) == Kept(sub)
    requires next.joined == sub.joined && next.missed == sub.missed && next.floor == sub.floor
    ensures Placed(h, next) && Accounted(next, Given(h, next))
  {
  }

  // ---- the table and the seed ----

  predicate TableStep(step: Step) {
    step.Commit? || step.Prune? || step.SeedRead? || step.SeedStore? || step.PollFails? || step.FetchRead?
  }

  lemma TableStepKeepsPlaced(h: Hub, step: Step, sub: Sub)
    requires Basic(h) && Enabled(h, step) && Basic(Next(h, step)) && TableStep(step)
    requires Placed(h, sub)
    ensures Placed(Next(h, step), sub)
  {
    if step.SeedStore? {
      SeedKeepsPlaced(h, sub);
    } else {
      SamePlaced(h, Next(h, step), sub);
    }
  }

  lemma SeedKeepsPlaced(h: Hub, sub: Sub)
    requires Basic(h) && Enabled(h, SeedStore) && Basic(Next(h, SeedStore)) && Placed(h, sub)
    ensures Placed(Next(h, SeedStore), sub)
  {
    var next := Next(h, SeedStore);
    assert next.box.log[next.pos..next.pos] == [];
  }

  lemma SamePlaced(h: Hub, next: Hub, sub: Sub)
    requires Basic(h) && Basic(next) && Placed(h, sub) && h.box.log <= next.box.log
    requires next.start == h.start && next.pos == h.pos && next.dispatched == h.dispatched && next.skipped == h.skipped
    ensures Placed(next, sub)
  {
    assert next.box.log[LiveFloor(h, sub)..h.pos] == h.box.log[LiveFloor(h, sub)..h.pos];
  }

  lemma TableStepKeepsSeeded(h: Hub, step: Step, sub: Sub, logged: nat)
    requires Basic(h) && Enabled(h, step) && Basic(Next(h, step)) && TableStep(step)
    requires sub.floor <= h.pos && SeededBy(h, sub, logged)
    ensures SeededBy(Next(h, step), sub, logged)
  {
    if step.Commit? && h.poller.Seeding? {
      CountAfterCommit(h.box.log, step.row, h.poller.mark);
    }
  }

  lemma LongerBoxKeepsSeen(box: Outbox, longer: Outbox, sub: Sub)
    requires box.log <= longer.log && box.pruned <= longer.pruned
    requires sub.probe.Some? ==> ProbeSeen(box, sub.probe.value)
    requires sub.read.Some? ==> sub.probe.Some? && ReadSeen(box, sub.who, sub.last, sub.probe.value, sub.read.value)
    ensures sub.probe.Some? ==> ProbeSeen(longer, sub.probe.value)
    ensures sub.read.Some? ==> ReadSeen(longer, sub.who, sub.last, sub.probe.value, sub.read.value)
  {
    if sub.read.Some? {
      assert longer.log[..sub.read.value.logged] == box.log[..sub.read.value.logged];
    }
  }

  lemma TableStepKeepsSub(h: Hub, step: Step, sub: Sub)
    requires Basic(h) && Enabled(h, step) && Basic(Next(h, step)) && TableStep(step) && SubInv(h, sub)
    ensures SubInv(Next(h, step), sub)
  {
    var next := Next(h, step);
    assert h.box.log <= next.box.log && h.box.pruned <= next.box.pruned;
    TableStepKeepsPlaced(h, step, sub);
    LongerBoxKeepsSeen(h.box, next.box, sub);
    if sub.read.Some? && sub.read.value.seeded {
      TableStepKeepsSeeded(h, step, sub, sub.read.value.logged);
    }
    assert next.dispatched == h.dispatched;
  }

  // ---- a dispatched batch ----

  lemma TilesGrow(log: seq<Row>, start: nat, pos: nat, from: nat, to: nat, sent: seq<Row>, lost: seq<Row>)
    requires Tiles(log, start, pos, sent, lost) && pos <= from <= to <= |log|
    ensures Tiles(log, start, to, sent + log[from..to], lost + log[pos..from])
  {
    assert log[start..to] == log[start..pos] + log[pos..from] + log[from..to];
  }

  lemma TiledRow(log: seq<Row>, start: nat, pos: nat, sent: seq<Row>, lost: seq<Row>, row: Row)
    requires Tiles(log, start, pos, sent, lost)
    ensures row in log[start..pos] <==> row in sent || row in lost
  {
    assert row in log[start..pos] <==> row in multiset(log[start..pos]);
    assert row in sent <==> row in multiset(sent);
    assert row in lost <==> row in multiset(lost);
  }

  /** Rows past `pos` may follow what was drawn from before it. */
  lemma LaterRowsAscend(log: seq<Row>, pos: nat, from: nat, to: nat, drawn: seq<Row>)
    requires Ascending(log) && pos <= from <= to <= |log|
    requires Ascending(drawn) && forall row :: row in drawn ==> row in log[..pos]
    ensures Ascending(drawn + log[from..to])
  {
    var longer := drawn + log[from..to];
    AscendingSlice(log, from, to);
    forall i, j | 0 <= i < |drawn| <= j < |longer| ensures longer[i].id < longer[j].id {
      assert longer[i] in log[..pos];
      assert longer[j] == log[from + j - |drawn|];
    }
    forall i, j | |drawn| <= i < j < |longer| ensures longer[i].id < longer[j].id {
      assert longer[i] == log[from..to][i - |drawn|] && longer[j] == log[from..to][j - |drawn|];
    }
  }

  lemma DrawnFromBefore(h: Hub)
    requires Basic(h) && PollerExact(h)
    ensures forall row :: row in h.dispatched || row in h.skipped ==> row in h.box.log[..h.pos]
  {
    forall row | row in h.dispatched || row in h.skipped ensures row in h.box.log[..h.pos] {
      TiledRow(h.box.log, h.start, h.pos, h.dispatched, h.skipped, row);
      assert h.box.log[h.start..h.pos] == h.box.log[..h.pos][h.start..];
    }
  }

  /** The fields a dispatch of `log[from..to]` leaves behind. */
  ghost predicate Advanced(h: Hub, next: Hub, from: nat, to: nat)
    requires Basic(h)
  {
    && h.pos <= from <= to <= |h.box.log| && (h.pos < from ==> from <= h.box.pruned)
    && next.box == h.box && next.start == h.start && next.pos == to
    && next.dispatched == h.dispatched + h.box.log[from..to]
    && next.skipped == h.skipped + h.box.log[h.pos..from]
  }

  lemma DispatchAdvances(h: Hub)
    requires Basic(h) && h.poller.Fetched?
    ensures Basic(Dispatched(h)) && Advanced(h, Dispatched(h), h.poller.from, h.poller.from + |h.poller.rows|)
  {
    DispatchKeepsBasic(h);
  }

  lemma AdvancedKeepsExact(h: Hub, next: Hub, from: nat, to: nat)
    requires Basic(h) && PollerExact(h) && Basic(next) && Advanced(h, next, from, to)
    ensures PollerExact(next)
  {
    var log := h.box.log;
    TilesGrow(log, h.start, h.pos, from, to, h.dispatched, h.skipped);
    DrawnFromBefore(h);
    LaterRowsAscend(log, h.pos, from, to, h.dispatched);
    LaterRowsAscend(log, h.pos, h.pos, from, h.skipped);
    SkippedWerePruned(log, h.pos, from, h.box.pruned);
    ExactlyDispatched(h, next, log[from..to], log[h.pos..from]);
  }

  lemma DispatchKeepsExact(h: Hub)
    requires Basic(h) && PollerExact(h) && h.poller.Fetched?
    ensures Basic(Dispatched(h)) && PollerExact(Dispatched(h))
  {
    DispatchAdvances(h);
    AdvancedKeepsExact(h, Dispatched(h), h.poller.from, h.poller.from + |h.poller.rows|);
  }

  lemma SkippedWerePruned(log: seq<Row>, pos: nat, from: nat, pruned: nat)
    requires pos <= from <= |log| && pruned <= |log| && (pos < from ==> from <= pruned)
    ensures forall row :: row in log[pos..from] ==> row in log[..pruned]
  {
    if pos < from {
      assert log[pos..from] == log[..from][pos..];
      assert log[..from] <= log[..pruned];
    }
  }

  lemma ExactlyDispatched(h: Hub, next: Hub, sent: seq<Row>, lost: seq<Row>)
    requires Basic(h) && PollerExact(h) && Basic(next) && next.box == h.box && next.start == h.start
    requires next.dispatched == h.dispatched + sent && next.skipped == h.skipped + lost
    requires Tiles(h.box.log, h.start, next.pos, h.dispatched + sent, h.skipped + lost)
    requires Ascending(h.dispatched + sent) && Ascending(h.skipped + lost)
    requires forall row :: row in lost ==> row in h.box.log[..h.box.pruned]
    ensures PollerExact(next)
  {
  }

  lemma AscendingPrefix(events: seq<Event>, more: seq<Event>)
    requires AscendingIds(events + more)
    ensures AscendingIds(events) && AscendingIds(more)
    ensures forall x, y :: x in events && y in more ==> x.id < y.id
  {
    var all := events + more;
    assert forall i :: 0 <= i < |events| ==> all[i] == events[i];
    assert forall i :: 0 <= i < |more| ==> all[|events| + i] == more[i];
  }

  lemma AscendingJoin(xs: seq<Event>, ys: seq<Event>)
    requires AscendingIds(xs) && AscendingIds(ys)
    requires forall x, y :: x in xs && y in ys ==> x.id < y.id
    ensures AscendingIds(xs + ys)
  {
  }

  lemma MultisetMember(event: Event, given: seq<Event>, kept: seq<Event>, lost: seq<Event>)
    requires multiset(given) == multiset(kept) + multiset(lost)
    ensures event in given <==> event in kept || event in lost
  {
    assert event in given <==> event in multiset(given);
    assert event in kept <==> event in multiset(kept);
    assert event in lost <==> event in multiset(lost);
  }

  /** The heart of the drop rule: what fits is kept, what does not is lost, and nothing else changes. */
  lemma SplitKeepsAccounts(given: seq<Event>, kept: seq<Event>, lost: seq<Event>, events: seq<Event>, n: nat)
    requires multiset(given) == multiset(kept) + multiset(lost)
    requires AscendingIds(given + events) && AscendingIds(kept) && AscendingIds(lost)
    requires n <= |events|
    ensures multiset(given + events) == multiset(kept + events[..n]) + multiset(lost + events[n..])
    ensures AscendingIds(kept + events[..n]) && AscendingIds(lost + events[n..])
  {
    assert events == events[..n] + events[n..];
    AscendingPrefix(given, events);
    AscendingPrefix(events[..n], events[n..]);
    forall x | x in kept || x in lost ensures x in given {
      MultisetMember(x, given, kept, lost);
    }
    AscendingJoin(kept, events[..n]);
    AscendingJoin(lost, events[n..]);
  }

  lemma EventsOfConcat(xs: seq<Row>, ys: seq<Row>)
    ensures EventsOf(xs + ys) == EventsOf(xs) + EventsOf(ys)
  {
  }

  lemma GivenGrows(h: Hub, sub: Sub)
    requires Basic(h) && PollerExact(h) && h.poller.Fetched? && sub.joined <= |h.dispatched|
    ensures var events := EventsOf(Select(Heard(sub.who), h.poller.rows));
            Given(Dispatched(h), sub) == Given(h, sub) + events && AscendingIds(Given(h, sub) + events)
  {
    var before, rows := h.dispatched[sub.joined..], h.poller.rows;
    var after := (h.dispatched + rows)[sub.joined..];
    assert after == before + rows;
    SelectConcat(Heard(sub.who), before, rows);
    EventsOfConcat(Select(Heard(sub.who), before), Select(Heard(sub.who), rows));
    DispatchKeepsExact(h);
    AscendingSlice(h.dispatched + rows, sub.joined, |h.dispatched + rows|);
    assert Ascending(after) by { assert after == (h.dispatched + rows)[sub.joined..|h.dispatched + rows|]; }
    SelectAscending(Heard(sub.who), after);
  }

  lemma ReceiveMeaning(sub: Sub, rows: seq<Row>)
    ensures var events := EventsOf(Select(Heard(sub.who), rows));
            var n := Fitting(sub.mail, events);
            var next := Receive(sub, rows);
            && Kept(next) == Kept(sub) + events[..n]
            && LostEvents(next.losses) == LostEvents(sub.losses) + events[n..]
            && next.mail.dropped == (sub.mail.dropped || n < |events|)
            && next.mail.queue == sub.mail.queue + events[..n]
  {
    hide PutAll, Select, LiveOf, EventsOf;
    var events := EventsOf(Select(Heard(sub.who), rows));
    PutAllMeaning(sub.mail, events);
    LostEventsConcat(sub.losses, events[Fitting(sub.mail, events)..], |sub.frames|);
  }

  lemma LostEventsConcat(losses: seq<Loss>, events: seq<Event>, at: nat)
    ensures LostEvents(losses + LossesOf(events, at)) == LostEvents(losses) + events
  {
  }

  lemma DispatchKeepsDebt(sub: Sub, rows: seq<Row>)
    requires DebtKept(sub)
    ensures DebtKept(Receive(sub, rows))
  {
    ReceiveMeaning(sub, rows);
  }

  lemma DispatchKeepsAccounts(h: Hub, sub: Sub)
    requires Basic(h) && PollerExact(h) && h.poller.Fetched? && sub.joined <= |h.dispatched|
    requires Accounted(sub, Given(h, sub))
    ensures Accounted(Receive(sub, h.poller.rows), Given(Dispatched(h), Receive(sub, h.poller.rows)))
  {
    var rows := h.poller.rows;
    var events := EventsOf(Select(Heard(sub.who), rows));
    var next := Receive(sub, rows);
    GivenGrows(h, sub);
    ReceiveMeaning(sub, rows);
    SplitKeepsAccounts(Given(h, sub), Kept(sub), LostEvents(sub.losses), events, Fitting(sub.mail, events));
    assert Given(Dispatched(h), next) == Given(Dispatched(h), sub);
  }

  lemma AdvancedKeepsPlaced(h: Hub, next: Hub, from: nat, to: nat, sub: Sub, received: Sub)
    requires Basic(h) && Basic(next) && Advanced(h, next, from, to) && Placed(h, sub)
    requires received.joined == sub.joined && received.missed == sub.missed && received.floor == sub.floor
    ensures Placed(next, received)
  {
    var log := h.box.log;
    TilesGrow(log, LiveFloor(h, sub), h.pos, from, to, h.dispatched[sub.joined..], h.skipped[sub.missed..]);
    DroppedSum(h.dispatched, log[from..to], sub.joined);
    DroppedSum(h.skipped, log[h.pos..from], sub.missed);
  }

  lemma DispatchKeepsPlaced(h: Hub, sub: Sub)
    requires Basic(h) && h.poller.Fetched? && Basic(Dispatched(h)) && Placed(h, sub)
    ensures Placed(Dispatched(h), Receive(sub, h.poller.rows))
  {
    DispatchAdvances(h);
    AdvancedKeepsPlaced(h, Dispatched(h), h.poller.from, h.poller.from + |h.poller.rows|, sub, Receive(sub, h.poller.rows));
  }

  lemma DroppedSum(rows: seq<Row>, more: seq<Row>, k: nat)
    requires k <= |rows|
    ensures (rows + more)[k..] == rows[k..] + more
  {
  }

  lemma DispatchKeepsSub(h: Hub, sub: Sub)
    requires Basic(h) && PollerExact(h) && h.poller.Fetched? && SubInv(h, sub) && Basic(Dispatched(h))
    ensures SubInv(Dispatched(h), Receive(sub, h.poller.rows))
  {
    hide Receive, Dispatched, Given, StreamShaped, Recovered, Accounted, DebtKept;
    DispatchKeepsDebt(sub, h.poller.rows);
    DispatchKeepsAccounts(h, sub);
    DispatchKeepsPlaced(h, sub);
    ReceiveKeepsStream(sub, h.poller.rows);
    DispatchKeepsRecovered(h, sub);
  }

  lemma ReceiveKeepsStream(sub: Sub, rows: seq<Row>)
    requires StreamShaped(sub)
    ensures StreamShaped(Receive(sub, rows))
  {
    hide PutAll, EventsOf, Select, LossesOf, Fitting, StreamShaped;
    SameStreamKeepsShape(sub, Receive(sub, rows));
  }

  lemma SameStreamKeepsShape(sub: Sub, next: Sub)
    requires StreamShaped(sub) && next == sub.(mail := next.mail, losses := next.losses)
    ensures StreamShaped(next)
  {
    hide ReplayFrames;
    assert Backlog(next) == Backlog(sub);
  }

  lemma DispatchKeepsRecovered(h: Hub, sub: Sub)
    requires Basic(h) && h.poller.Fetched? && Basic(Dispatched(h)) && Recovered(h, sub)
    ensures Recovered(Dispatched(h), Receive(sub, h.poller.rows))
  {
    LongerBoxKeepsSeen(h.box, Dispatched(h).box, sub);
  }

  // ---- every step, every run ----

  lemma AttachGivesSub(h: Hub, who: Identity, last: int)
    requires Basic(h)
    ensures SubInv(h, NewSub(h, who, last))
  {
    var sub := NewSub(h, who, last);
    assert h.dispatched[|h.dispatched|..] == [] && h.skipped[|h.skipped|..] == [];
    assert h.box.log[h.pos..h.pos] == [];
    assert Select(Heard(who), []) == [];
    assert Kept(sub) == [];
    assert Given(h, sub) == [];
    assert Accounted(sub, Given(h, sub));
  }

  lemma TableStepKeepsExact(h: Hub, step: Step)
    requires Basic(h) && Enabled(h, step) && Basic(Next(h, step)) && TableStep(step) && PollerExact(h)
    ensures PollerExact(Next(h, step))
  {
    hide Ascending, ValidOutbox, CountUpTo, ReadEventsSince, Reached;
    var next := Next(h, step);
    if step.SeedStore? {
      assert next.box.log[next.pos..next.pos] == [];
    } else {
      LongerBoxKeepsExact(h, next);
    }
  }

  lemma LongerBoxKeepsExact(h: Hub, next: Hub)
    requires Basic(h) && PollerExact(h) && Basic(next) && h.box.log <= next.box.log && h.box.pruned <= next.box.pruned
    requires next.start == h.start && next.pos == h.pos && next.dispatched == h.dispatched && next.skipped == h.skipped
    ensures PollerExact(next)
  {
    hide Ascending, CountUpTo, Reached;
    assert h.box.log[..h.box.pruned] == next.box.log[..next.box.pruned][..h.box.pruned];
    assert next.box.log[h.start..h.pos] == h.box.log[h.start..h.pos];
  }

  lemma TableStepKeepsInv(h: Hub, step: Step)
    requires Inv(h) && Enabled(h, step) && TableStep(step)
    ensures Inv(Next(h, step))
  {
    var next := Next(h, step);
    StepKeepsBasic(h, step);
    TableStepKeepsExact(h, step);
    forall key | key in next.subs ensures SubInv(next, next.subs[key]) {
      TableStepKeepsSub(h, step, h.subs[key]);
    }
  }

  lemma DispatchKeepsInv(h: Hub)
    requires Inv(h) && h.poller.Fetched?
    ensures Inv(Next(h, Dispatch))
  {
    var next := Next(h, Dispatch);
    DispatchKeepsExact(h);
    forall key | key in next.subs ensures SubInv(next, next.subs[key]) {
      DispatchKeepsSub(h, h.subs[key]);
    }
  }

  /** What the invariant reads of the system, apart from the connections. */
  predicate SameTable(h: Hub, other: Hub) {
    other == h.(subs := other.subs)
  }

  lemma SameTableKeepsExact(h: Hub, other: Hub)
    requires Basic(h) && PollerExact(h) && SameTable(h, other)
    ensures Basic(other) && PollerExact(other)
  {
  }

  lemma SameTableKeepsSub(h: Hub, other: Hub, sub: Sub)
    requires Basic(h) && SameTable(h, other) && Basic(other) && SubInv(h, sub)
    ensures SubInv(other, sub)
  {
    assert Given(other, sub) == Given(h, sub);
  }

  ghost predicate AllSubs(h: Hub, subs: map<nat, Sub>)
    requires Basic(h)
  {
    forall key :: key in subs ==> SubInv(h, subs[key])
  }

  lemma SubsetOfSubs(h: Hub, subs: map<nat, Sub>, fewer: map<nat, Sub>)
    requires Basic(h) && AllSubs(h, subs)
    requires fewer.Keys <= subs.Keys && forall key :: key in fewer ==> fewer[key] == subs[key]
    ensures AllSubs(h, fewer)
  {
    forall key | key in fewer ensures SubInv(h, fewer[key]) {
      assert SubInv(h, subs[key]);
    }
  }

  lemma PutSub(h: Hub, subs: map<nat, Sub>, key: nat, sub: Sub)
    requires Basic(h) && AllSubs(h, subs) && SubInv(h, sub)
    ensures AllSubs(h, subs[key := sub])
  {
    var next := subs[key := sub];
    forall k | k in next ensures SubInv(h, next[k]) {
      assert k != key ==> SubInv(h, subs[k]);
    }
  }

  lemma SameTableKeepsInv(h: Hub, other: Hub)
    requires Basic(h) && PollerExact(h) && AllSubs(h, other.subs) && SameTable(h, other)
    ensures Inv(other)
  {
    SameTableKeepsExact(h, other);
    forall key | key in other.subs ensures SubInv(other, other.subs[key]) {
      SameTableKeepsSub(h, other, other.subs[key]);
    }
  }

  lemma AttachKeepsInv(h: Hub, key: nat, who: Identity, last: int)
    requires Inv(h) && key !in h.subs
    ensures Inv(Next(h, Attach(key, who, last)))
  {
    AttachGivesSub(h, who, last);
    PutSub(h, h.subs, key, NewSub(h, who, last));
    SameTableKeepsInv(h, Next(h, Attach(key, who, last)));
  }

  lemma DetachKeepsInv(h: Hub, key: nat)
    requires Inv(h) && key in h.subs
    ensures Inv(Next(h, Detach(key)))
  {
    SubsetOfSubs(h, h.subs, h.subs - {key});
    SameTableKeepsInv(h, Next(h, Detach(key)));
  }

  lemma ConsumeKeepsInv(h: Hub, key: nat, move: Move)
    requires Inv(h) && key in h.subs && CanMove(h.subs[key], move)
    ensures Inv(Next(h, Consume(key, move)))
  {
    assert SubInv(h, h.subs[key]);
    MoveKeepsSub(h, h.subs[key], move);
    PutSub(h, h.subs, key, Moved(h, h.subs[key], move));
    SameTableKeepsInv(h, Next(h, Consume(key, move)));
  }

  /** The invariant survives every step of every actor. */
  lemma StepKeepsInv(h: Hub, step: Step)
    requires Inv(h) && Enabled(h, step)
    ensures Inv(Next(h, step))
  {
    match step
    case Dispatch => DispatchKeepsInv(h);
    case Attach(key, who, last) => AttachKeepsInv(h, key, who, last);
    case Detach(key) => DetachKeepsInv(h, key);
    case Consume(key, move) => ConsumeKeepsInv(h, key, move);
    case _ => TableStepKeepsInv(h, step);
  }

  /** A run: every step enabled where it is taken. */
  ghost predicate CanRun(h: Hub, steps: seq<Step>)
    requires Basic(h)
    decreases |steps|
  {
    steps != [] ==>
      Enabled(h, steps[0]) && (StepKeepsBasic(h, steps[0]); CanRun(Next(h, steps[0]), steps[1..]))
  }

  ghost function Run(h: Hub, steps: seq<Step>): Hub
    requires Basic(h) && CanRun(h, steps)
    decreases |steps|
  {
    if steps == [] then h
    else
      StepKeepsBasic(h, steps[0]);
      Run(Next(h, steps[0]), steps[1..])
  }

  lemma {:induction false} RunKeepsInv(h: Hub, steps: seq<Step>)
    requires Inv(h) && CanRun(h, steps)
    ensures Inv(Run(h, steps))
    decreases |steps|
  {
    if steps != [] {
      StepKeepsInv(h, steps[0]);
      RunKeepsInv(Next(h, steps[0]), steps[1..]);
    }
  }

  lemma InitInv(box: Outbox, batch: nat)
    requires ValidOutbox(box) && batch >= 1
    ensures Inv(Init(box, batch))
  {
    assert box.log[0..0] == [];
  }

  /** Every reachable state, from any table and for any batch size, satisfies the invariant. */
  lemma ReachableInv(box: Outbox, batch: nat, steps: seq<Step>)
    requires ValidOutbox(box) && batch >= 1
    requires CanRun(Init(box, batch), steps)
    ensures Inv(Run(Init(box, batch), steps))
  {
    InitInv(box, batch);
    RunKeepsInv(Init(box, batch), steps);
  }
}
