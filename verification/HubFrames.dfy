/** What a connection is sent, in terms of the table's own columns. */
module HubFrames {
  import opened Wrappers
  import opened Audience
  import opened Outbox
  import opened Events
  import opened Hub
  import opened HubInvariant
  import opened HubTheorems
  import opened HubReconnect

  /**
    In every run, each event frame of a stream, live or replayed, carries a row of the
    table addressed to this connection: its id, its topic and its payload.
   */
  lemma FramesAreRows(h: Hub, key: nat, j: nat)
    requires Reachable(h) && key in h.subs && j < |h.subs[key].frames|
    requires h.subs[key].frames[j].Live? || h.subs[key].frames[j].Replayed?
    ensures exists row :: row in h.box.log && Addressed(row, h.subs[key].who) && Carries(h.subs[key].frames[j].event, row)
  {
    OnlyEntitledFrames(h, key, j);
    var sub := h.subs[key];
    var i :| 0 <= i < |h.box.log| && Admits(Heard(sub.who), h.box.log[i]) && EventOf(h.box.log[i]) == sub.frames[j].event;
    HeardIsAddressed(sub.who, h.box.log[i]);
    assert h.box.log[i] in h.box.log;
  }

  /**
    And the other way round: a row addressed to a reconnecting client, past its last id
    and behind the cursor, is delivered under its own topic and payload exactly when the live
    feed or the backfill brought it.
   */
  lemma AddressedRowsReach(h: Hub, key: nat, i: nat)
    requires Reachable(h) && key in h.subs && h.subs[key].read.Some?
    requires CleanRows(h.box.log) && Canonical(h.subs[key].who)
    requires i < h.pos <= |h.box.log| && h.box.log[i].id > h.subs[key].last && Addressed(h.box.log[i], h.subs[key].who)
    ensures h.subs[key].missed <= |h.skipped|
    ensures exists event :: Carries(event, h.box.log[i])
              && (Delivered(h.subs[key], event) <==> FedLive(h, h.subs[key], i) || ReadBack(h.box.log, h.subs[key], i))
  {
    HeardIsAddressed(h.subs[key].who, h.box.log[i]);
    ReachesExactly(h, key, i);
    assert Carries(EventOf(h.box.log[i]), h.box.log[i]);
  }

  // ---- when nothing is due ----

  /**
    The poller reads only while somebody is connected, a keepalive goes out only with nothing
    queued, and a connection that has gone is sent nothing more.
   */
  lemma IdleMeansIdle(h: Hub, step: Step)
    requires Reachable(h) && Basic(h) && Enabled(h, step)
    ensures step.SeedRead? || step.FetchRead? ==> h.subs.Keys != {}
    ensures step.Consume? && step.move.Beat? ==> h.subs[step.key].mail.queue == []
    ensures step.Detach? ==> Next(h, step).subs == h.subs - {step.key}
  {
    assert h.subs.Keys == {} <==> h.subs == map[];
  }

  // ---- resyncs ----

  /** The standing instruction to read everything again, under the name the role listens to. */
  predicate TellsToReread(event: Event, role: string) {
    && event.topic == (if role in ["admin", "manager"] then "dashboard.refresh" else "stream.resync")
    && event.payload == Dict([("resync", Bool(true))])
  }

  /** A resync opens the stream under the client's own last id, or follows a live event under that event's id. */
  predicate NoticeAt(frames: seq<Frame>, j: nat, who: Identity, last: int)
    requires j < |frames|
  {
    frames[j].Resync? ==>
      && TellsToReread(frames[j].event, who.role)
      && if j == 0 then frames[j].event.id == last
         else frames[j - 1].Live? && frames[j - 1].event.id == frames[j].event.id
  }

  ghost predicate AllNotices(frames: seq<Frame>, who: Identity, last: int) {
    forall j :: 0 <= j < |frames| ==> NoticeAt(frames, j, who, last)
  }

  ghost predicate Noticed(sub: Sub) {
    && AllNotices(sub.frames, sub.who, sub.last)
    && (sub.place.Yielded? ==> sub.frames != [] && sub.frames[|sub.frames| - 1] == Live(sub.place.event))
  }

  lemma FrameKeepsNotices(frames: seq<Frame>, frame: Frame, who: Identity, last: int)
    requires AllNotices(frames, who, last) && NoticeAt(frames + [frame], |frames|, who, last)
    ensures AllNotices(frames + [frame], who, last)
  {
    forall j | 0 <= j < |frames| + 1 ensures NoticeAt(frames + [frame], j, who, last) {
      assert j < |frames| ==> NoticeAt(frames, j, who, last);
    }
  }

  lemma ReplayKeepsNoticed(h: Hub, sub: Sub)
    requires Basic(h) && CanMove(sub, ReplayOne) && StreamShaped(sub) && Noticed(sub)
    ensures Noticed(Moved(h, sub, ReplayOne))
  {
    if sub.place.backlog != [] {
      var n := |sub.frames|;
      assert Backlog(sub)[n] == sub.place.backlog[0];
      assert n > 0 ==> !Backlog(sub)[n].Resync?;
      FrameKeepsNotices(sub.frames, sub.place.backlog[0], sub.who, sub.last);
    }
  }

  lemma MoveKeepsNoticed(h: Hub, sub: Sub, move: Move)
    requires Basic(h) && CanMove(sub, move) && StreamShaped(sub) && Noticed(sub)
    ensures Noticed(Moved(h, sub, move))
  {
    hide AllNotices;
    match move
    case ReplayOne => ReplayKeepsNoticed(h, sub);
    case Settle =>
      FrameKeepsNotices(sub.frames, Resync(ResyncEvent(sub.place.event.id, sub.who.role)), sub.who, sub.last);
    case Beat => FrameKeepsNotices(sub.frames, Keepalive, sub.who, sub.last);
    case Yield => FrameKeepsNotices(sub.frames, Live(sub.place.event), sub.who, sub.last);
    case _ =>
  }

  lemma SameFramesKeepNoticed(sub: Sub, next: Sub)
    requires Noticed(sub) && next.frames == sub.frames && next.who == sub.who && next.last == sub.last
    requires !next.place.Yielded? || next.place == sub.place
    ensures Noticed(next)
  {
  }

  lemma StepKeepsNoticed(h: Hub, step: Step)
    requires Inv(h) && Enabled(h, step) && forall key :: key in h.subs ==> Noticed(h.subs[key])
    ensures forall key :: key in Next(h, step).subs ==> Noticed(Next(h, step).subs[key])
  {
    hide Noticed, SubInv;
    var next := Next(h, step);
    forall key | key in next.subs ensures Noticed(next.subs[key]) {
      if step.Consume? && step.key == key {
        HasShape(h, key);
        MoveKeepsNoticed(h, h.subs[key], step.move);
      } else if step.Attach? && step.key == key {
        NewIsNoticed(h, step.who, step.last);
      } else {
        OtherSubIsStill(h, step, key);
        SameFramesKeepNoticed(h.subs[key], next.subs[key]);
      }
    }
  }

  lemma OtherSubIsStill(h: Hub, step: Step, key: nat)
    requires Basic(h) && Enabled(h, step) && key in Next(h, step).subs
    requires !(step.Consume? && step.key == key) && !(step.Attach? && step.key == key)
    ensures key in h.subs
    ensures var sub, next := h.subs[key], Next(h, step).subs[key];
            next.frames == sub.frames && next.who == sub.who && next.last == sub.last && next.place == sub.place
  {
    hide Moved, CanMove, Select, PutAll, EventsOf, LossesOf, ValidOutbox, CountUpTo;
  }

  lemma HasShape(h: Hub, key: nat)
    requires Inv(h) && key in h.subs
    ensures StreamShaped(h.subs[key])
  {
    assert SubInv(h, h.subs[key]);
  }

  lemma NewIsNoticed(h: Hub, who: Identity, last: int)
    ensures Noticed(NewSub(h, who, last))
  {
  }

  lemma {:induction false} RunKeepsNoticed(h: Hub, steps: seq<Step>)
    requires Inv(h) && CanRun(h, steps) && forall key :: key in h.subs ==> Noticed(h.subs[key])
    ensures forall key :: key in Run(h, steps).subs ==> Noticed(Run(h, steps).subs[key])
    decreases |steps|
  {
    hide Noticed;
    if steps != [] {
      StepKeepsNoticed(h, steps[0]);
      StepKeepsInv(h, steps[0]);
      RunKeepsNoticed(Next(h, steps[0]), steps[1..]);
    }
  }

  /** Whatever else a stream carries tells its client to read everything again, at one of two places. */
  lemma ResyncsAreNotices(h: Hub, key: nat, j: nat)
    requires Reachable(h) && key in h.subs && j < |h.subs[key].frames| && h.subs[key].frames[j].Resync?
    ensures var sub := h.subs[key];
            && sub.frames[j].event.topic
               == (if sub.who.role in ["admin", "manager"] then "dashboard.refresh" else "stream.resync")
            && sub.frames[j].event.payload == Dict([("resync", Bool(true))])
            && if j == 0 then sub.frames[j].event.id == sub.last
               else sub.frames[j - 1].Live? && sub.frames[j - 1].event.id == sub.frames[j].event.id
  {
    var box: Outbox, batch: nat, steps: seq<Step> :|
      ValidOutbox(box) && batch >= 1 && CanRun(Init(box, batch), steps) && Run(Init(box, batch), steps) == h;
    ReachableInv(box, batch, []);
    RunKeepsNoticed(Init(box, batch), steps);
    assert NoticeAt(h.subs[key].frames, j, h.subs[key].who, h.subs[key].last);
  }
}
