/** One notification sent by one process, in the code's own form: a thread per browser, in any order. */
module PushSender {
  import opened Wrappers
  import opened Push

  /** What one endpoint answered, and whether the answer could be written down. */
  datatype Outcome = Outcome(answer: Option<int>, recorded: bool)

  type Subscriptions = map<Endpoint, Subscription>

  /** `e` fared as its own outcome alone says. */
  ghost predicate FaredAlone(before: Subscriptions, after: Subscriptions, e: Endpoint, outcome: Outcome) {
    var own := if outcome.recorded then Recorded(before, e, outcome.answer) else before;
    (e in after <==> e in own) && (e in own ==> e in after && after[e] == own[e])
  }

  ghost predicate Untouched(before: Subscriptions, after: Subscriptions, e: Endpoint) {
    (e in after <==> e in before) && (e in before ==> after[e] == before[e])
  }

  lemma RecordedIsLocal(subs: Subscriptions, e: Endpoint, answer: Option<int>, x: Endpoint)
    requires x != e
    ensures Untouched(subs, Recorded(subs, e, answer), x)
  {
  }

  /** What is written about one endpoint depends on that endpoint's row only. */
  lemma RecordedReadsItsRow(before: Subscriptions, now: Subscriptions, e: Endpoint, outcome: Outcome)
    requires Untouched(before, now, e)
    ensures FaredAlone(before, if outcome.recorded then Recorded(now, e, outcome.answer) else now, e, outcome)
  {
  }

  lemma FaredFrom(before: Subscriptions, midway: Subscriptions, after: Subscriptions, e: Endpoint, outcome: Outcome)
    requires Untouched(before, midway, e) && FaredAlone(midway, after, e, outcome)
    ensures FaredAlone(before, after, e, outcome)
  {
  }

  lemma FaredStays(before: Subscriptions, midway: Subscriptions, after: Subscriptions, e: Endpoint, outcome: Outcome)
    requires FaredAlone(before, midway, e, outcome) && Untouched(midway, after, e)
    ensures FaredAlone(before, after, e, outcome)
  {
  }

  class PushSender {
    var subs: Subscriptions
    ghost var posts: seq<(NoteId, Endpoint)>

    /** `_send_one`: post, then record what happened; an endpoint without an address is skipped. */
    method SendOne(id: NoteId, e: Endpoint, outcome: Outcome)
      modifies this
      ensures e == "" ==> posts == old(posts) && subs == old(subs)
      ensures e != "" ==> posts == old(posts) + [(id, e)]
      ensures e != "" ==> FaredAlone(old(subs), subs, e, outcome)
      ensures forall x :: x != e ==> Untouched(old(subs), subs, x)
    {
      if e == "" {
        return;
      }
      posts := posts + [(id, e)];
      if !outcome.recorded {
        return;
      }
      ghost var before := subs;
      RecordedReadsItsRow(before, before, e, outcome);
      forall x | x != e ensures Untouched(before, Recorded(before, e, outcome.answer), x) {
        RecordedIsLocal(before, e, outcome.answer, x);
      }
      if outcome.answer.None? {
        subs := RecordSuccess(subs, e);
      } else {
        subs := RecordFailure(subs, e, outcome.answer.value in GONE_STATUSES);
      }
    }

    /**
      `_deliver`: the recipient's browsers as the table has them now get one post each, and
      nobody else any; without a recipient nothing is read and nothing is sent.
     */
    method Deliver(id: NoteId, recipient: Option<Profile>, outcomes: map<Endpoint, Outcome>)
      requires subs.Keys <= outcomes.Keys
      modifies this
      ensures old(posts) <= posts
      ensures forall e :: multiset(posts[|old(posts)|..])[(id, e)] ==
                (if e in old(subs) && e != "" && recipient == Some(old(subs)[e].profile) && old(subs)[e].profile != "" then 1 else 0)
      ensures forall post :: post in posts[|old(posts)|..] ==> post.0 == id
      ensures forall e :: e in old(subs) && e != "" && recipient == Some(old(subs)[e].profile) && old(subs)[e].profile != "" ==>
                FaredAlone(old(subs), subs, e, outcomes[e])
      ensures forall e :: !(e in old(subs) && e != "" && recipient == Some(old(subs)[e].profile) && old(subs)[e].profile != "") ==>
                Untouched(old(subs), subs, e)
    {
      if recipient.None? || recipient.value == "" {
        assert posts[|old(posts)|..] == [];
        return;
      }
      var targets := set e | e in subs && subs[e].profile == recipient.value && e != "";
      SendAll(id, targets, outcomes);
      forall e ensures (id, e) in (set x | x in targets :: (id, x)) <==> e in targets {
      }
      forall post | post in posts[|old(posts)|..] ensures post.0 == id {
        assert post in multiset(posts[|old(posts)|..]);
      }
    }

    /**
      To every target, in whatever order the threads run: one post each, and each
      browser ends as its own answer says, whatever its siblings answered.
     */
    method SendAll(id: NoteId, targets: set<Endpoint>, outcomes: map<Endpoint, Outcome>)
      requires targets <= outcomes.Keys && "" !in targets
      modifies this
      ensures old(posts) <= posts
      ensures multiset(posts[|old(posts)|..]) == multiset(set e | e in targets :: (id, e))
      ensures forall e :: e in targets ==> FaredAlone(old(subs), subs, e, outcomes[e])
      ensures forall e :: e !in targets ==> Untouched(old(subs), subs, e)
    {
      var todo := targets;
      ghost var done: set<(NoteId, Endpoint)> := {};
      while todo != {}
        invariant todo <= targets && "" !in todo
        invariant old(posts) <= posts
        invariant done == set e | e in targets && e !in todo :: (id, e)
        invariant multiset(posts[|old(posts)|..]) == multiset(done)
        invariant forall e :: e in targets && e !in todo ==> FaredAlone(old(subs), subs, e, outcomes[e])
        invariant forall e :: e in todo || e !in targets ==> Untouched(old(subs), subs, e)
        decreases |todo|
      {
        var e :| e in todo;
        ghost var sent, was := posts, subs;
        SendOne(id, e, outcomes[e]);
        forall x | x != e && (x in todo || x !in targets) ensures Untouched(old(subs), subs, x) {
          assert Untouched(was, subs, x) && Untouched(old(subs), was, x);
        }
        FaredFrom(old(subs), was, subs, e, outcomes[e]);
        forall x | x in targets && x !in todo ensures FaredAlone(old(subs), subs, x, outcomes[x]) {
          FaredStays(old(subs), was, subs, x, outcomes[x]);
        }
        assert posts[|old(posts)|..] == sent[|old(posts)|..] + [(id, e)];
        done := done + {(id, e)};
        todo := todo - {e};
      }
      assert done == set e | e in targets :: (id, e);
    }
  }
}
