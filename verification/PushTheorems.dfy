/** At most one post per notification and browser, and browsers lost only for cause. */
module PushTheorems {
  import opened Wrappers
  import opened Push

  lemma TrailingSnoc(record: seq<bool>, ok: bool)
    ensures Trailing(record + [ok]) == if ok then 0 else Trailing(record) + 1
  {
    assert (record + [ok])[..|record|] == record;
  }

  lemma RecordedKeepsCounts(subs: map<Endpoint, Subscription>, e: Endpoint, answer: Option<int>, x: Endpoint)
    requires forall y :: y in subs ==> subs[y].failures == Trailing(subs[y].record) < MAX_FAILURES
    requires x in Recorded(subs, e, answer)
    ensures var after := Recorded(subs, e, answer)[x]; after.failures == Trailing(after.record) < MAX_FAILURES
  {
    if e in subs {
      TrailingSnoc(subs[e].record, answer.None?);
    }
    hide Trailing;
    if x == e {
      assert subs[e].failures == Trailing(subs[e].record) < MAX_FAILURES;
    } else {
      OtherStays(subs, e, answer, x);
    }
  }

  lemma OtherStays(subs: map<Endpoint, Subscription>, e: Endpoint, answer: Option<int>, x: Endpoint)
    requires x != e && x in Recorded(subs, e, answer)
    ensures x in subs && Recorded(subs, e, answer)[x] == subs[x]
  {
  }

  lemma StepKeepsCounts(o: Office, step: Step)
    requires CountsOk(o) && Enabled(o, step)
    ensures CountsOk(Next(o, step))
  {
    if step.Record? && step.recorded {
      forall x | x in Next(o, step).subs
        ensures Next(o, step).subs[x].failures == Trailing(Next(o, step).subs[x].record) < MAX_FAILURES
      {
        RecordedKeepsCounts(o.subs, step.endpoint, SenderOf(o, step.s).sending.value.answers[step.endpoint], x);
      }
    }
  }

  lemma StepKeepsMarks(o: Office, step: Step)
    requires MarkedOnce(o) && Enabled(o, step)
    ensures MarkedOnce(Next(o, step))
    ensures forall id :: id in o.notes && o.notes[id].sentAt.Some? ==>
              id in Next(o, step).notes && Next(o, step).notes[id].sentAt.Some?
  {
  }

  /** The sender a step moves, if any. */
  function Actor(step: Step): Option<nat> {
    match step
    case Claim(s, _, _, _) => Some(s)
    case Deliver(s) => Some(s)
    case ReadFails(s) => Some(s)
    case Post(s, _, _) => Some(s)
    case Record(s, _, _) => Some(s)
    case Finish(s) => Some(s)
    case Crash(s) => Some(s)
    case _ => None
  }

  lemma OthersStay(o: Office, step: Step, r: nat)
    requires Enabled(o, step) && Actor(step) != Some(r)
    ensures SenderOf(Next(o, step), r) == SenderOf(o, r)
  {
  }

  /** A notification enters a sender only through its own claim. */
  lemma EntersByClaim(o: Office, step: Step, s: nat, id: NoteId)
    requires Enabled(o, step) && InSender(Next(o, step), s, id)
    ensures InSender(o, s, id) || (step.Claim? && step.s == s && id in step.batch)
  {
    if Actor(step) != Some(s) {
      OthersStay(o, step, s);
    }
  }

  lemma StepKeepsSender(o: Office, step: Step, s: nat)
    requires MarkedOnce(o) && SendersDisjoint(o) && Enabled(o, step)
    ensures SenderOk(Next(o, step), s)
  {
    var next := Next(o, step);
    StepKeepsMarks(o, step);
    assert SenderOk(o, s);
    forall id | InSender(next, s, id) ensures id in next.notes && next.notes[id].sentAt.Some? {
      EntersByClaim(o, step, s, id);
    }
    if Actor(step) != Some(s) {
      OthersStay(o, step, s);
    }
  }

  lemma StepKeepsDisjoint(o: Office, step: Step)
    requires MarkedOnce(o) && SendersDisjoint(o) && Enabled(o, step)
    ensures SendersDisjoint(Next(o, step))
  {
    var next := Next(o, step);
    forall s ensures SenderOk(next, s) {
      StepKeepsSender(o, step, s);
    }
    forall s: nat, r: nat, id | InSender(next, s, id) && InSender(next, r, id) ensures s == r {
      EntersByClaim(o, step, s, id);
      EntersByClaim(o, step, r, id);
      assert SenderOk(o, s) && SenderOk(o, r);
    }
  }

  lemma OldPostStaysOk(o: Office, step: Step, post: (NoteId, Endpoint))
    requires MarkedOnce(o) && SendersDisjoint(o) && Enabled(o, step) && PostOk(o, post)
    ensures PostOk(Next(o, step), post)
  {
    var next := Next(o, step);
    StepKeepsMarks(o, step);
    forall s: nat ensures post.0 !in SenderOf(next, s).batch
        && (SenderOf(next, s).sending.Some? && SenderOf(next, s).sending.value.note == post.0 ==>
              post.1 !in SenderOf(next, s).sending.value.todo)
    {
      assert post.0 !in SenderOf(o, s).batch;
      if Actor(step) != Some(s) {
        OthersStay(o, step, s);
      }
    }
  }

  lemma NewPostIsOk(o: Office, step: Step)
    requires SendersDisjoint(o) && PostsOk(o) && Enabled(o, step) && step.Post?
    ensures var post := (SenderOf(o, step.s).sending.value.note, step.endpoint);
            post !in o.posts && PostOk(Next(o, step), post)
  {
    var next := Next(o, step);
    var post := (SenderOf(o, step.s).sending.value.note, step.endpoint);
    assert SenderOk(o, step.s);
    assert InSender(o, step.s, post.0);
    assert post in o.posts ==> PostOk(o, post);
    forall s: nat ensures post.0 !in SenderOf(next, s).batch
        && (SenderOf(next, s).sending.Some? && SenderOf(next, s).sending.value.note == post.0 ==>
              post.1 !in SenderOf(next, s).sending.value.todo)
    {
      if s != step.s {
        OthersStay(o, step, s);
        assert !InSender(o, s, post.0);
      }
    }
  }

  lemma StepKeepsPosts(o: Office, step: Step)
    requires MarkedOnce(o) && SendersDisjoint(o) && PostsOk(o) && PostsOnce(o) && Enabled(o, step)
    ensures PostsOk(Next(o, step)) && PostsOnce(Next(o, step))
  {
    var next := Next(o, step);
    if step.Post? {
      NewPostIsOk(o, step);
    } else {
      assert next.posts == o.posts;
    }
    forall post | post in next.posts ensures PostOk(next, post) {
      if post in o.posts {
        OldPostStaysOk(o, step, post);
      }
    }
  }

  lemma StepKeepsCarried(o: Office, step: Step, s: nat)
    requires Carried(o, s) && Enabled(o, step)
    ensures Carried(Next(o, step), s)
  {
    assert o.posts <= Next(o, step).posts;
    if Actor(step) != Some(s) {
      OthersStay(o, step, s);
    }
  }

  lemma StepKeepsInv(o: Office, step: Step)
    requires Inv(o) && Enabled(o, step)
    ensures Inv(Next(o, step))
  {
    forall s: nat ensures Carried(Next(o, step), s) {
      StepKeepsCarried(o, step, s);
    }
    StepKeepsMarks(o, step);
    StepKeepsDisjoint(o, step);
    StepKeepsPosts(o, step);
    StepKeepsCounts(o, step);
  }

  ghost predicate CanRun(o: Office, steps: seq<Step>)
    decreases |steps|
  {
    steps != [] ==> Enabled(o, steps[0]) && CanRun(Next(o, steps[0]), steps[1..])
  }

  ghost function Run(o: Office, steps: seq<Step>): Office
    requires CanRun(o, steps)
    decreases |steps|
  {
    if steps == [] then o else Run(Next(o, steps[0]), steps[1..])
  }

  ghost predicate Reachable(o: Office) {
    exists steps: seq<Step> :: CanRun(INIT, steps) && Run(INIT, steps) == o
  }

  lemma {:induction false} RunKeepsInv(o: Office, steps: seq<Step>)
    requires Inv(o) && CanRun(o, steps)
    ensures Inv(Run(o, steps))
    decreases |steps|
  {
    if steps != [] {
      StepKeepsInv(o, steps[0]);
      RunKeepsInv(Next(o, steps[0]), steps[1..]);
    }
  }

  lemma ReachableInv(o: Office)
    requires Reachable(o)
    ensures Inv(o)
  {
    var steps: seq<Step> :| CanRun(INIT, steps) && Run(INIT, steps) == o;
    RunKeepsInv(INIT, steps);
  }

  // ---- the promises ----

  /**
    Over every run of any number of senders, a notification is claimed at most once,
    no two senders have it, and it is posted at most once to any one browser.
   */
  lemma AtMostOnce(o: Office, id: NoteId, s: nat, r: nat, i: nat, j: nat)
    requires Reachable(o)
    ensures id in o.notes ==> o.notes[id].attempts <= 1
    ensures InSender(o, s, id) && InSender(o, r, id) ==> s == r
    ensures i < |o.posts| && j < |o.posts| && o.posts[i] == o.posts[j] ==> i == j
    ensures i < |o.posts| ==> o.posts[i].0 in o.notes && o.notes[o.posts[i].0].sentAt.Some?
  {
    ReachableInv(o);
    if i < |o.posts| {
      assert o.posts[i] in o.posts;
      assert PostOk(o, o.posts[i]);
    }
  }

  /**
    A sender that lives through a notification has posted it, exactly once, to every browser
    its recipient had when it set out, whatever each of those posts and records came to.
   */
  lemma CarriedThrough(o: Office, s: nat, e: Endpoint)
    requires Reachable(o) && Enabled(o, Finish(s)) && e in SenderOf(o, s).sending.value.targets
    ensures var post := (SenderOf(o, s).sending.value.note, e);
            exists i :: 0 <= i < |o.posts| && o.posts[i] == post
                        && forall j :: 0 <= j < |o.posts| && o.posts[j] == post ==> j == i
  {
    ReachableInv(o);
    assert Carried(o, s);
    var post := (SenderOf(o, s).sending.value.note, e);
    assert post in o.posts;
    var i :| 0 <= i < |o.posts| && o.posts[i] == post;
    forall j | 0 <= j < |o.posts| && o.posts[j] == post ensures j == i {
      AtMostOnce(o, post.0, s, s, i, j);
    }
  }

  /** Nothing posted is ever claimed again, by anybody. */
  lemma PostedIsNeverClaimedAgain(o: Office, step: Step, k: nat)
    requires Reachable(o) && Enabled(o, step) && step.Claim? && k < |o.posts|
    ensures o.posts[k].0 !in step.batch
  {
    ReachableInv(o);
    assert PostOk(o, o.posts[k]);
  }

  /**
    A browser leaves the table for exactly three reasons: its owner removed it, the push
    service said it is gone, or its fifth failure in a row was recorded.
   */
  lemma RemovedExactly(o: Office, step: Step, e: Endpoint)
    requires Reachable(o) && Enabled(o, step) && e in o.subs
    ensures e !in Next(o, step).subs <==>
              || (step.Unregister? && step.endpoint == e)
              || (&& step.Record? && step.recorded && step.endpoint == e
                  && var status := SenderOf(o, step.s).sending.value.answers[e];
                     && status.Some?
                     && (status == Some(404) || status == Some(410) || Trailing(o.subs[e].record) == 4))
  {
    ReachableInv(o);
  }

  /** Whatever happens at one browser, its siblings' posts stay possible and their records stay as they were. */
  lemma SiblingsAreUntouched(o: Office, s: nat, e: Endpoint, other: Endpoint, status: Option<int>, recorded: bool)
    requires e != other && Enabled(o, Post(s, other, None))
    ensures Enabled(o, Post(s, e, status)) ==>
              Enabled(Next(o, Post(s, e, status)), Post(s, other, None))
    ensures Enabled(o, Record(s, e, recorded)) ==>
              var next := Next(o, Record(s, e, recorded));
              && Enabled(next, Post(s, other, None))
              && (other in o.subs <==> other in next.subs)
              && (other in o.subs ==> next.subs[other] == o.subs[other])
  {
  }
}
