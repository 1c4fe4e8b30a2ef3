/** The promises of the hub, over every run of every interleaving. */
module HubTheorems {
  import opened Wrappers
  import opened Audience
  import opened Outbox
  import opened Events
  import opened Hub
  import opened HubInvariant

  ghost predicate Reachable(h: Hub) {
    exists box: Outbox, batch: nat, steps: seq<Step> ::
      ValidOutbox(box) && batch >= 1 && CanRun(Init(box, batch), steps) && Run(Init(box, batch), steps) == h
  }

  lemma ReachableHasInv(h: Hub)
    requires Reachable(h)
    ensures Inv(h)
  {
    var box: Outbox, batch: nat, steps: seq<Step> :|
      ValidOutbox(box) && batch >= 1 && CanRun(Init(box, batch), steps) && Run(Init(box, batch), steps) == h;
    ReachableInv(box, batch, steps);
  }

  lemma {:induction false} RunSnoc(h: Hub, steps: seq<Step>, step: Step)
    requires Basic(h) && CanRun(h, steps)
    ensures Basic(Run(h, steps))
    ensures Enabled(Run(h, steps), step) ==>
              CanRun(h, steps + [step]) && Run(h, steps + [step]) == Next(Run(h, steps), step)
    decreases |steps|
  {
    if steps == [] {
      StepKeepsBasicIfEnabled(h, step);
      assert ([] + [step])[1..] == [];
    } else {
      StepKeepsBasic(h, steps[0]);
      RunSnoc(Next(h, steps[0]), steps[1..], step);
      assert (steps + [step])[1..] == steps[1..] + [step];
    }
  }

  lemma StepKeepsBasicIfEnabled(h: Hub, step: Step)
    requires Basic(h)
    ensures Enabled(h, step) ==> Basic(Next(h, step))
  {
    if Enabled(h, step) {
      StepKeepsBasic(h, step);
    }
  }

  lemma ReachableStart(box: Outbox, batch: nat)
    requires ValidOutbox(box) && batch >= 1
    ensures Reachable(Init(box, batch))
  {
    var steps: seq<Step> := [];
    assert CanRun(Init(box, batch), steps) && Run(Init(box, batch), steps) == Init(box, batch);
  }

  lemma ReachableNext(h: Hub, step: Step)
    requires Reachable(h) && Basic(h) && Enabled(h, step)
    ensures Reachable(Next(h, step)) && Basic(Next(h, step))
  {
    var box: Outbox, batch: nat, steps: seq<Step> :|
      ValidOutbox(box) && batch >= 1 && CanRun(Init(box, batch), steps) && Run(Init(box, batch), steps) == h;
    RunSnoc(Init(box, batch), steps, step);
    StepKeepsBasic(h, step);
    assert CanRun(Init(box, batch), steps + [step]);
  }

  // ---- the drop debt ----

  ghost predicate InHandOrAhead(sub: Sub, event: Event) {
    Live(event) in sub.frames || sub.place == Holding(event) || event in sub.mail.queue
  }

  ghost predicate LostAndOwed(sub: Sub, event: Event) {
    exists loss :: loss in sub.losses && loss.event == event && (sub.mail.dropped || Repaid(sub.frames, loss.at))
  }

  lemma KeptMeaning(sub: Sub, event: Event)
    ensures event in Kept(sub) <==> InHandOrAhead(sub, event)
  {
  }

  lemma LostMeaning(sub: Sub, event: Event)
    requires DebtKept(sub)
    ensures event in LostEvents(sub.losses) <==> LostAndOwed(sub, event)
  {
    if event in LostEvents(sub.losses) {
      var i :| 0 <= i < |sub.losses| && LostEvents(sub.losses)[i] == event;
      assert sub.losses[i] in sub.losses;
    }
    if LostAndOwed(sub, event) {
      var loss :| loss in sub.losses && loss.event == event;
      var i :| 0 <= i < |sub.losses| && sub.losses[i] == loss;
      assert LostEvents(sub.losses)[i] == event;
    }
  }

  /**
    Under any interleaving, each row dispatched to a connection that accepts it is
    queued, in hand or framed, or it was dropped and a resync is owed or was yielded
    after the drop; nothing else ever reaches the connection, nothing reaches it
    twice, and a connection blocked on its queue with a debt has something queued.
   */
  lemma DropDebt(h: Hub, key: nat, event: Event)
    requires Reachable(h) && key in h.subs
    ensures var sub := h.subs[key];
            && sub.joined <= |h.dispatched|
            && (event in Given(h, sub) <==> InHandOrAhead(sub, event) || LostAndOwed(sub, event))
            && !(InHandOrAhead(sub, event) && LostAndOwed(sub, event))
            && AscendingIds(Kept(sub))
            && |sub.mail.queue| <= 64
            && (sub.place.Waiting? && sub.mail.dropped ==> sub.mail.queue != [])
  {
    ReachableHasInv(h);
    var sub := h.subs[key];
    assert SubInv(h, sub);
    KeptMeaning(sub, event);
    LostMeaning(sub, event);
    MultisetMember(event, Given(h, sub), Kept(sub), LostEvents(sub.losses));
    GivenIsAscending(h, sub);
    AtMostOnce(Given(h, sub), event);
    assert multiset(Given(h, sub))[event] == multiset(Kept(sub))[event] + multiset(LostEvents(sub.losses))[event];
    assert event in Kept(sub) <==> event in multiset(Kept(sub));
    assert event in LostEvents(sub.losses) <==> event in multiset(LostEvents(sub.losses));
  }

  lemma GivenIsAscending(h: Hub, sub: Sub)
    requires Inv(h) && sub.joined <= |h.dispatched|
    ensures AscendingIds(Given(h, sub))
  {
    AscendingSlice(h.dispatched, sub.joined, |h.dispatched|);
    assert h.dispatched[sub.joined..] == h.dispatched[sub.joined..|h.dispatched|];
    SelectAscending(Heard(sub.who), h.dispatched[sub.joined..]);
  }

  lemma {:induction false} AtMostOnce(events: seq<Event>, event: Event)
    requires AscendingIds(events)
    ensures multiset(events)[event] <= 1
  {
    if events != [] {
      AtMostOnce(events[1..], event);
      assert events == [events[0]] + events[1..];
      if event == events[0] {
        assert event !in events[1..];
        assert event in events[1..] <==> event in multiset(events[1..]);
      }
    }
  }

  // ---- the debt is repaid ----

  /** One round of the generator's loop per queued event. */
  function Rounds(key: nat, n: nat): seq<Step> {
    if n == 0 then []
    else [Consume(key, Get), Consume(key, Yield), Consume(key, Settle)] + Rounds(key, n - 1)
  }

  function LiveFrames(events: seq<Event>): seq<Frame> {
    seq(|events|, i requires 0 <= i < |events| => Live(events[i]))
  }

  ghost function OneRound(h: Hub, key: nat): Hub
    requires Basic(h) && key in h.subs && h.subs[key].place.Waiting? && h.subs[key].mail.queue != []
  {
    var h1 := Next(h, Consume(key, Get));
    var h2 := Next(h1, Consume(key, Yield));
    Next(h2, Consume(key, Settle))
  }

  lemma RunOneRound(h: Hub, key: nat, rest: seq<Step>)
    requires Basic(h) && key in h.subs && h.subs[key].place.Waiting? && h.subs[key].mail.queue != []
    requires Basic(OneRound(h, key)) && CanRun(OneRound(h, key), rest)
    ensures var steps := [Consume(key, Get), Consume(key, Yield), Consume(key, Settle)] + rest;
            CanRun(h, steps) && Run(h, steps) == Run(OneRound(h, key), rest)
  {
    var h1 := Next(h, Consume(key, Get));
    var h2 := Next(h1, Consume(key, Yield));
    var s2 := [Consume(key, Settle)] + rest;
    var s1 := [Consume(key, Yield)] + s2;
    var s0 := [Consume(key, Get)] + s1;
    hide Moved, CanMove;
    assert s2[1..] == rest && s1[1..] == s2 && s0[1..] == s1;
    assert CanRun(h2, s2) && Run(h2, s2) == Run(OneRound(h, key), rest);
    assert CanRun(h1, s1) && Run(h1, s1) == Run(h2, s2);
    assert CanRun(h, s0) && Run(h, s0) == Run(h1, s1);
    assert s0 == [Consume(key, Get), Consume(key, Yield), Consume(key, Settle)] + rest;
  }

  lemma RoundMeaning(h: Hub, key: nat)
    requires Basic(h) && key in h.subs && h.subs[key].place.Waiting? && h.subs[key].mail.dropped
    requires h.subs[key].mail.queue != []
    ensures var sub := h.subs[key];
            var queue := sub.mail.queue;
            var next := OneRound(h, key);
            && Basic(next)
            && key in next.subs
            && next.subs[key].place.Waiting?
            && next.subs[key].who == sub.who
            && next.subs[key].mail == Mail(queue[1..], |queue| > 1)
            && next.subs[key].frames == sub.frames + [Live(queue[0])]
                 + if |queue| > 1 then [] else [Resync(ResyncEvent(queue[0].id, sub.who.role))]
  {
  }

  /** The debt of `before` has been paid in full by `after`, and nothing else was yielded. */
  ghost predicate PaidInFull(before: Sub, after: Sub) {
    var queue := before.mail.queue;
    && queue != []
    && after.mail == Mail([], false)
    && after.frames == before.frames + LiveFrames(queue)
                       + [Resync(ResyncEvent(queue[|queue| - 1].id, before.who.role))]
  }

  lemma RoundTowardsPayment(before: Sub, next: Sub, after: Sub)
    requires |before.mail.queue| > 1 && next.who == before.who
    requires next.mail == Mail(before.mail.queue[1..], true)
    requires next.frames == before.frames + [Live(before.mail.queue[0])]
    requires PaidInFull(next, after)
    ensures PaidInFull(before, after)
  {
    var queue := before.mail.queue;
    assert LiveFrames(queue) == [Live(queue[0])] + LiveFrames(queue[1..]);
  }

  lemma {:induction false} RepayFrom(h: Hub, key: nat)
    requires Basic(h) && key in h.subs && h.subs[key].mail.queue != []
    requires h.subs[key].place.Waiting? && h.subs[key].mail.dropped
    ensures var steps := Rounds(key, |h.subs[key].mail.queue|);
            CanRun(h, steps) && key in Run(h, steps).subs && PaidInFull(h.subs[key], Run(h, steps).subs[key])
    decreases |h.subs[key].mail.queue|
  {
    var sub := h.subs[key];
    var next := OneRound(h, key);
    RoundMeaning(h, key);
    if |sub.mail.queue| > 1 {
      RepayFrom(next, key);
      RoundTowardsPayment(sub, next.subs[key], Run(next, Rounds(key, |sub.mail.queue| - 1)).subs[key]);
    } else {
      assert LiveFrames(sub.mail.queue) == [Live(sub.mail.queue[0])];
    }
    RunOneRound(h, key, Rounds(key, |sub.mail.queue| - 1));
  }

  /**
    A lagging connection left to itself pays its debt in exactly as many rounds as
    it has events queued: it yields them in order and then one resync with the last id.
   */
  lemma DebtIsRepaid(h: Hub, key: nat)
    requires Reachable(h) && key in h.subs
    requires h.subs[key].place.Waiting? && h.subs[key].mail.dropped
    ensures Basic(h)
    ensures var steps := Rounds(key, |h.subs[key].mail.queue|);
            CanRun(h, steps) && key in Run(h, steps).subs && PaidInFull(h.subs[key], Run(h, steps).subs[key])
  {
    ReachableHasInv(h);
    assert SubInv(h, h.subs[key]);
    RepayFrom(h, key);
  }

  // ---- the poller ----

  /**
    However the polls fall and fail, what was dispatched and what the prune job
    overtook together are the rows past the seed up to the cursor, each once and
    each in order; nothing is missing from the dispatch exactly when nothing was
    overtaken.
   */
  lemma PollerIsExact(h: Hub)
    requires Reachable(h)
    ensures h.start <= h.pos <= |h.box.log| && h.box.pruned <= |h.box.log|
    ensures multiset(h.box.log[h.start..h.pos]) == multiset(h.dispatched) + multiset(h.skipped)
    ensures Ascending(h.dispatched) && Ascending(h.skipped)
    ensures forall row :: row in h.skipped ==> row in h.box.log[..h.box.pruned]
    ensures h.skipped == [] <==> h.dispatched == h.box.log[h.start..h.pos]
    ensures h.cursor.Some? ==> forall i :: 0 <= i < |h.box.log| ==> (i < h.pos <==> h.box.log[i].id <= h.cursor.value)
  {
    ReachableHasInv(h);
    var due := h.box.log[h.start..h.pos];
    AscendingSlice(h.box.log, h.start, h.pos);
    assert |multiset(due)| == |due| && |multiset(h.dispatched)| == |h.dispatched| && |multiset(h.skipped)| == |h.skipped|;
    if h.skipped == [] {
      assert multiset(due) == multiset(h.dispatched);
      AscendingIsDetermined(due, h.dispatched);
    }
  }

  lemma SameHead(xs: seq<Row>, ys: seq<Row>)
    requires Ascending(xs) && Ascending(ys) && multiset(xs) == multiset(ys) && xs != [] && ys != []
    ensures xs[0] == ys[0]
  {
    assert xs[0] in multiset(ys) && ys[0] in multiset(xs);
    var i :| 0 <= i < |ys| && ys[i] == xs[0];
    var j :| 0 <= j < |xs| && xs[j] == ys[0];
    FirstIsLeast(ys, i);
    FirstIsLeast(xs, j);
  }

  lemma FirstIsLeast(rows: seq<Row>, i: nat)
    requires Ascending(rows) && i < |rows|
    ensures i == 0 || rows[0].id < rows[i].id
  {
  }

  /** Two ascending lists of the same rows are the same list. */
  lemma {:induction false} AscendingIsDetermined(xs: seq<Row>, ys: seq<Row>)
    requires Ascending(xs) && Ascending(ys) && multiset(xs) == multiset(ys)
    ensures xs == ys
  {
    assert |multiset(xs)| == |xs| && |multiset(ys)| == |ys|;
    if xs != [] {
      SameHead(xs, ys);
      SameRest(xs, ys);
      AscendingIsDetermined(xs[1..], ys[1..]);
    }
  }

  lemma SameRest(xs: seq<Row>, ys: seq<Row>)
    requires xs != [] && ys != [] && xs[0] == ys[0] && multiset(xs) == multiset(ys)
    ensures multiset(xs[1..]) == multiset(ys[1..])
  {
    assert xs == [xs[0]] + xs[1..] && ys == [xs[0]] + ys[1..];
    assert multiset(xs) == multiset{xs[0]} + multiset(xs[1..]);
    assert multiset(ys) == multiset{xs[0]} + multiset(ys[1..]);
    assert multiset(xs[1..]) == multiset(xs) - multiset{xs[0]} == multiset(ys[1..]);
  }

  ghost predicate CursorAtLeast(before: Option<nat>, after: Option<nat>) {
    before.Some? ==> after.Some? && before.value <= after.value
  }

  /** The cursor never moves back and what was dispatched is never taken back, over any run. */
  lemma {:induction false} CursorNeverMovesBack(h: Hub, steps: seq<Step>)
    requires Inv(h) && CanRun(h, steps)
    ensures CursorAtLeast(h.cursor, Run(h, steps).cursor)
    ensures h.dispatched <= Run(h, steps).dispatched
    decreases |steps|
  {
    if steps != [] {
      StepKeepsInv(h, steps[0]);
      CursorNeverMovesBack(Next(h, steps[0]), steps[1..]);
    }
  }
}
