/** Whom a push goes to: every browser of the notification's recipient, and no other. */
module PushRecipients {
  import opened Wrappers
  import opened Push
  import opened PushTheorems

  /**
    A claim takes only notifications of the last hour that nobody has marked, marks each with
    the moment, and leaves such a one behind only when it is locked or the batch is full of
    others no younger.
   */
  lemma ClaimedExactly(o: Office, s: nat, batch: seq<NoteId>, limit: int, skipped: set<NoteId>, id: NoteId)
    requires Enabled(o, Claim(s, batch, limit, skipped)) && id in o.notes
    ensures id in batch ==>
              && o.notes[id].sentAt.None? && o.now - o.notes[id].createdAt < 3600 && id !in skipped
              && Next(o, Claim(s, batch, limit, skipped)).notes[id].sentAt == Some(o.now)
    ensures id !in batch && id !in skipped && o.notes[id].sentAt.None? && o.now - o.notes[id].createdAt < 3600 ==>
              && |batch| == (if limit < 1 then 1 else limit)
              && forall other :: other in batch ==> o.notes[other].createdAt <= o.notes[id].createdAt
  {
  }

  /** At this moment the endpoint is registered to the notification's recipient. */
  predicate IsRecipients(o: Office, id: NoteId, e: Endpoint) {
    && id in o.notes && e in o.subs && e != ""
    && o.notes[id].recipient.Some? && o.notes[id].recipient.value != ""
    && o.subs[e].profile == o.notes[id].recipient.value
  }

  /** A sender sets out for exactly the endpoints registered to the recipient of its next notification. */
  lemma SetsOutExactly(o: Office, s: nat, e: Endpoint)
    requires Reachable(o) && Enabled(o, Deliver(s))
    ensures var next := SenderOf(Next(o, Deliver(s)), s);
            && next.sending.Some? && next.sending.value.note == SenderOf(o, s).batch[0]
            && (e in next.sending.value.targets <==>
                  && SenderOf(o, s).batch[0] in o.notes && e in o.subs && e != ""
                  && o.notes[SenderOf(o, s).batch[0]].recipient == Some(o.subs[e].profile) && o.subs[e].profile != "")
            && next.sending.value.todo == next.sending.value.targets
  {
  }

  // ---- over runs ----

  ghost function At(steps: seq<Step>, i: nat): Office
    requires CanRun(INIT, steps) && i <= |steps|
  {
    CanRunPrefix(INIT, steps, i);
    Run(INIT, steps[..i])
  }

  lemma {:induction false} CanRunPrefix(o: Office, steps: seq<Step>, i: nat)
    requires CanRun(o, steps) && i <= |steps|
    ensures CanRun(o, steps[..i])
    ensures CanRun(Run(o, steps[..i]), steps[i..]) && Run(Run(o, steps[..i]), steps[i..]) == Run(o, steps)
    decreases i
  {
    if i > 0 {
      CanRunPrefix(Next(o, steps[0]), steps[1..], i - 1);
      assert steps[..i][1..] == steps[1..][..i - 1] && steps[i..] == steps[1..][i - 1..];
    }
  }

  lemma {:induction false} RunSnoc(o: Office, steps: seq<Step>, step: Step)
    requires CanRun(o, steps) && Enabled(Run(o, steps), step)
    ensures CanRun(o, steps + [step]) && Run(o, steps + [step]) == Next(Run(o, steps), step)
    decreases |steps|
  {
    if steps == [] {
      assert ([] + [step])[1..] == [];
    } else {
      RunSnoc(Next(o, steps[0]), steps[1..], step);
      assert (steps + [step])[1..] == steps[1..] + [step];
    }
  }

  lemma AtNext(steps: seq<Step>, i: nat)
    requires CanRun(INIT, steps) && i < |steps|
    ensures Enabled(At(steps, i), steps[i]) && At(steps, i + 1) == Next(At(steps, i), steps[i])
    ensures Reachable(At(steps, i)) && Inv(At(steps, i))
  {
    CanRunPrefix(INIT, steps, i);
    CanRunPrefix(INIT, steps, i + 1);
    assert steps[i..][0] == steps[i];
    RunSnoc(INIT, steps[..i], steps[i]);
    assert steps[..i] + [steps[i]] == steps[..i + 1];
    ReachableInv(At(steps, i));
  }

  /** In the first `n` steps a sender set out with the notification while the endpoint was its recipient's. */
  ghost predicate SetOut(steps: seq<Step>, n: nat, id: NoteId, e: Endpoint)
    requires CanRun(INIT, steps) && n <= |steps|
  {
    exists i :: 0 <= i < n && StartsFor(steps, i, id, e)
  }

  ghost predicate StartsFor(steps: seq<Step>, i: nat, id: NoteId, e: Endpoint)
    requires CanRun(INIT, steps) && i < |steps|
  {
    && steps[i].Deliver?
    && SenderOf(At(steps, i), steps[i].s).batch != [] && SenderOf(At(steps, i), steps[i].s).batch[0] == id
    && IsRecipients(At(steps, i), id, e)
  }

  ghost predicate AllSetOut(steps: seq<Step>, n: nat)
    requires CanRun(INIT, steps) && n <= |steps|
  {
    && (forall post :: post in At(steps, n).posts ==> SetOut(steps, n, post.0, post.1))
    && (forall s: nat, e :: SenderOf(At(steps, n), s).sending.Some? && e in SenderOf(At(steps, n), s).sending.value.todo ==>
          SetOut(steps, n, SenderOf(At(steps, n), s).sending.value.note, e))
  }

  lemma {:induction false} PostsWereSetOut(steps: seq<Step>, n: nat)
    requires CanRun(INIT, steps) && n <= |steps|
    ensures AllSetOut(steps, n)
  {
    if n == 0 {
      assert At(steps, 0) == INIT by { assert steps[..0] == []; }
    } else {
      PostsWereSetOut(steps, n - 1);
      StepKeepsSetOut(steps, n - 1);
    }
  }

  lemma StepKeepsSetOut(steps: seq<Step>, n: nat)
    requires CanRun(INIT, steps) && n < |steps| && AllSetOut(steps, n)
    ensures AllSetOut(steps, n + 1)
  {
    var o, next, step := At(steps, n), At(steps, n + 1), steps[n];
    AtNext(steps, n);
    forall id, e | SetOut(steps, n, id, e) ensures SetOut(steps, n + 1, id, e) {
    }
    forall s: nat, e | SenderOf(next, s).sending.Some? && e in SenderOf(next, s).sending.value.todo
      ensures SetOut(steps, n + 1, SenderOf(next, s).sending.value.note, e)
    {
      if step == Deliver(s) {
        assert StartsFor(steps, n, SenderOf(next, s).sending.value.note, e);
      } else if Actor(step) != Some(s) {
        OthersStay(o, step, s);
      }
    }
    forall post | post in next.posts ensures SetOut(steps, n + 1, post.0, post.1) {
      if post !in o.posts {
        assert step.Post?;
      }
    }
  }

  /**
    Over every run, whatever was posted was posted to a browser that belonged to the
    notification's recipient at the moment its sender set out.
   */
  lemma PostedToRecipientsOnly(steps: seq<Step>, k: nat)
    requires CanRun(INIT, steps) && k < |Run(INIT, steps).posts|
    ensures var post := Run(INIT, steps).posts[k];
            exists i :: 0 <= i < |steps| && steps[i].Deliver?
              && var o := At(steps, i);
                 && SenderOf(o, steps[i].s).batch != [] && SenderOf(o, steps[i].s).batch[0] == post.0
                 && post.0 in o.notes && post.1 in o.subs && post.1 != ""
                 && o.notes[post.0].recipient == Some(o.subs[post.1].profile) && o.subs[post.1].profile != ""
  {
    PostsWereSetOut(steps, |steps|);
    assert steps[..|steps|] == steps;
    var post := Run(INIT, steps).posts[k];
    assert post in At(steps, |steps|).posts;
    var i :| 0 <= i < |steps| && StartsFor(steps, i, post.0, post.1);
  }

  // ---- and to all of them ----

  /** The sender's run through `id`, if it is still on it, is for `e` among others, and nobody else can begin one. */
  ghost predicate Bound(o: Office, s: nat, id: NoteId, e: Endpoint) {
    && id in o.notes && o.notes[id].sentAt.Some?
    && id !in SenderOf(o, s).batch
    && (SenderOf(o, s).sending.Some? && SenderOf(o, s).sending.value.note == id ==> e in SenderOf(o, s).sending.value.targets)
  }

  lemma StepKeepsBound(o: Office, step: Step, s: nat, id: NoteId, e: Endpoint)
    requires Enabled(o, step) && Bound(o, s, id, e)
    ensures Bound(Next(o, step), s, id, e)
  {
    if Actor(step) != Some(s) {
      OthersStay(o, step, s);
    }
  }

  lemma {:induction false} RunKeepsBound(o: Office, steps: seq<Step>, s: nat, id: NoteId, e: Endpoint)
    requires CanRun(o, steps) && Bound(o, s, id, e)
    ensures Bound(Run(o, steps), s, id, e)
    decreases |steps|
  {
    if steps != [] {
      StepKeepsBound(o, steps[0], s, id, e);
      RunKeepsBound(Next(o, steps[0]), steps[1..], s, id, e);
    }
  }

  lemma ReachableNext(o: Office, step: Step)
    requires Reachable(o) && Enabled(o, step)
    ensures Reachable(Next(o, step))
  {
    var before: seq<Step> :| CanRun(INIT, before) && Run(INIT, before) == o;
    RunSnoc(INIT, before, step);
    assert CanRun(INIT, before + [step]);
  }

  lemma {:induction false} ReachableRun(o: Office, steps: seq<Step>)
    requires Reachable(o) && CanRun(o, steps)
    ensures Reachable(Run(o, steps))
    decreases |steps|
  {
    if steps != [] {
      ReachableNext(o, steps[0]);
      ReachableRun(Next(o, steps[0]), steps[1..]);
    }
  }

  /**
    Every browser the recipient had when a sender set out has been posted to, exactly once,
    by the time that sender is through with the notification, whatever happened in between.
   */
  lemma EveryBrowserIsPosted(o: Office, s: nat, steps: seq<Step>, id: NoteId, e: Endpoint)
    requires Reachable(o) && Enabled(o, Deliver(s)) && SenderOf(o, s).batch[0] == id
    requires id in o.notes && e in o.subs && e != ""
    requires o.notes[id].recipient == Some(o.subs[e].profile) && o.subs[e].profile != ""
    requires CanRun(Next(o, Deliver(s)), steps)
    requires var d := Run(Next(o, Deliver(s)), steps);
             Enabled(d, Finish(s)) && SenderOf(d, s).sending.value.note == id
    ensures var posts := Run(Next(o, Deliver(s)), steps).posts;
            exists i :: 0 <= i < |posts| && posts[i] == (id, e)
                        && forall j :: 0 <= j < |posts| && posts[j] == (id, e) ==> j == i
  {
    var next := Next(o, Deliver(s));
    ReachableInv(o);
    assert SenderOk(o, s) && InSender(o, s, id);
    SetsOutExactly(o, s, e);
    ReachableNext(o, Deliver(s));
    RunKeepsBound(next, steps, s, id, e);
    ReachableRun(next, steps);
    CarriedThrough(Run(next, steps), s, e);
  }

  // ---- the answer that is recorded ----

  /** The sender's run through `id`, if it is still on it, has this answer for `e`, recorded or not. */
  ghost predicate Answered(o: Office, s: nat, id: NoteId, e: Endpoint, status: Option<int>) {
    && id in o.notes && o.notes[id].sentAt.Some?
    && id !in SenderOf(o, s).batch
    && (SenderOf(o, s).sending.Some? && SenderOf(o, s).sending.value.note == id ==>
          && e !in SenderOf(o, s).sending.value.todo
          && (e in SenderOf(o, s).sending.value.answers ==> SenderOf(o, s).sending.value.answers[e] == status))
  }

  lemma StepKeepsAnswered(o: Office, step: Step, s: nat, id: NoteId, e: Endpoint, status: Option<int>)
    requires Enabled(o, step) && Answered(o, s, id, e, status)
    ensures Answered(Next(o, step), s, id, e, status)
  {
    if Actor(step) != Some(s) {
      OthersStay(o, step, s);
    }
  }

  lemma {:induction false} RunKeepsAnswered(o: Office, steps: seq<Step>, s: nat, id: NoteId, e: Endpoint, status: Option<int>)
    requires CanRun(o, steps) && Answered(o, s, id, e, status)
    ensures Answered(Run(o, steps), s, id, e, status)
    decreases |steps|
  {
    if steps != [] {
      StepKeepsAnswered(o, steps[0], s, id, e, status);
      RunKeepsAnswered(Next(o, steps[0]), steps[1..], s, id, e, status);
    }
  }

  /**
    What is recorded of a browser is what its own post was answered, whatever happened in
    between: success clears its streak, 404 and 410 remove it, and any other answer lengthens the
    streak and removes it at five.
   */
  lemma RecordedAsAnswered(o: Office, s: nat, e: Endpoint, status: Option<int>, steps: seq<Step>)
    requires Reachable(o) && Enabled(o, Post(s, e, status)) && CanRun(Next(o, Post(s, e, status)), steps)
    requires var d := Run(Next(o, Post(s, e, status)), steps);
             && Enabled(d, Record(s, e, true)) && e in d.subs
             && SenderOf(d, s).sending.value.note == SenderOf(o, s).sending.value.note
    ensures var d := Run(Next(o, Post(s, e, status)), steps);
            var after := Next(d, Record(s, e, true)).subs;
            && (status.None? ==> e in after && after[e].failures == 0)
            && (status == Some(404) || status == Some(410) ==> e !in after)
            && (status.Some? && status != Some(404) && status != Some(410) ==>
                  if d.subs[e].failures == 4 then e !in after
                  else e in after && after[e].failures == d.subs[e].failures + 1)
            && (e in after ==> after[e].profile == d.subs[e].profile)
  {
    var id := SenderOf(o, s).sending.value.note;
    var next := Next(o, Post(s, e, status));
    ReachableInv(o);
    assert SenderOk(o, s) && InSender(o, s, id);
    RunKeepsAnswered(next, steps, s, id, e, status);
    ReachableNext(o, Post(s, e, status));
    ReachableRun(next, steps);
    ReachableInv(Run(next, steps));
  }

  // ---- what an abandoned batch loses ----

  /** The notification is marked and in nobody's hands. */
  ghost predicate Abandoned(o: Office, id: NoteId) {
    id in o.notes && o.notes[id].sentAt.Some? && forall s: nat :: !InSender(o, s, id)
  }

  lemma StepKeepsAbandoned(o: Office, step: Step, id: NoteId)
    requires Enabled(o, step) && Abandoned(o, id)
    ensures Abandoned(Next(o, step), id)
    ensures forall e :: (id, e) in Next(o, step).posts ==> (id, e) in o.posts
  {
    forall s: nat ensures !InSender(Next(o, step), s, id) {
      assert !InSender(o, s, id);
      if InSender(Next(o, step), s, id) {
        EntersByClaim(o, step, s, id);
      }
    }
    if step.Post? {
      assert !InSender(o, step.s, id);
    }
  }

  lemma {:induction false} AbandonedIsLost(o: Office, steps: seq<Step>, id: NoteId)
    requires CanRun(o, steps) && Abandoned(o, id)
    ensures forall e :: (id, e) in Run(o, steps).posts ==> (id, e) in o.posts
    decreases |steps|
  {
    if steps != [] {
      StepKeepsAbandoned(o, steps[0], id);
      AbandonedIsLost(Next(o, steps[0]), steps[1..], id);
    }
  }

  /**
    The price of marking first: when a sender dies, or fails to read a recipient's browsers,
    no notification it still had is posted to anybody from then on, in any run.
   */
  lemma LetGoIsLost(o: Office, s: nat, step: Step, steps: seq<Step>, id: NoteId)
    requires Reachable(o) && Enabled(o, step) && (step == Crash(s) || step == ReadFails(s)) && InSender(o, s, id)
    requires CanRun(Next(o, step), steps)
    ensures forall e :: (id, e) in Run(Next(o, step), steps).posts ==> (id, e) in o.posts
  {
    ReachableInv(o);
    var next := Next(o, step);
    assert SenderOk(o, s);
    forall r: nat ensures !InSender(next, r, id) {
      if r != s {
        OthersStay(o, step, r);
        assert !(InSender(o, s, id) && InSender(o, r, id));
      }
    }
    AbandonedIsLost(next, steps, id);
  }

  // ---- a run from the start ----

  lemma StartIsReachable()
    ensures Reachable(INIT)
  {
    var steps: seq<Step> := [];
    assert CanRun(INIT, steps) && Run(INIT, steps) == INIT;
  }

  /** One browser registered, one notification to its owner claimed within the hour. */
  lemma ClaimedFrom(id: NoteId, profile: Profile, e: Endpoint, wait: nat) returns (o: Office)
    requires wait < 3600
    ensures Reachable(o) && o.subs == map[e := Subscription(profile, 0, [])] && o.posts == []
    ensures o.notes.Keys == {id} && o.notes[id].recipient == Some(profile) && SenderOf(o, 0) == Sender([id], None)
  {
    StartIsReachable();
    ReachableNext(INIT, Register(e, profile));
    var o1 := Next(INIT, Register(e, profile));
    ReachableNext(o1, Notify(id, Some(profile)));
    var o2 := Next(o1, Notify(id, Some(profile)));
    ReachableNext(o2, Tick(wait));
    var o3 := Next(o2, Tick(wait));
    assert ClaimReturns(o3, [id], 1, {});
    ReachableNext(o3, Claim(0, [id], 1, {}));
    o := Next(o3, Claim(0, [id], 1, {}));
  }

  /** A person told within the hour is reached: the notification can be posted to the browser registered. */
  lemma NotifiedIsPosted(id: NoteId, profile: Profile, e: Endpoint, wait: nat) returns (o: Office)
    requires profile != "" && e != "" && wait < 3600
    ensures Reachable(o) && o.posts == [(id, e)]
  {
    var o1 := ClaimedFrom(id, profile, e, wait);
    ReachableNext(o1, Deliver(0));
    SetsOutExactly(o1, 0, e);
    var o2 := Next(o1, Deliver(0));
    ReachableNext(o2, Post(0, e, None));
    o := Next(o2, Post(0, e, None));
  }
}
