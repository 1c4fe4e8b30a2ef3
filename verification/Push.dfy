/**
  The push sender: any number of processes claim notifications by marking them sent
  first, post each to every browser of its recipient, and may die at any point.
 */
module Push {
  import opened Wrappers

  type NoteId = nat
  type Endpoint = string
  type Profile = string

  const WINDOW_SECONDS: int := 3600
  const MAX_FAILURES: nat := 5
  const GONE_STATUSES: set<int> := {404, 410}

  datatype Note = Note(recipient: Option<Profile>, createdAt: int, sentAt: Option<int>, attempts: nat)

  /** One browser. `record` is, as history, every outcome recorded since it was registered. */
  datatype Subscription = Subscription(profile: Profile, failures: nat, record: seq<bool>)

  /**
    One notification going out: endpoints still to post to, and answers still to be
    recorded. `targets` is, as history, every endpoint it set out for.
   */
  datatype Sending = Sending(note: NoteId, targets: set<Endpoint>, todo: set<Endpoint>, answers: map<Endpoint, Option<int>>)

  datatype Sender = Sender(batch: seq<NoteId>, sending: Option<Sending>)

  datatype Office = Office(
    notes: map<NoteId, Note>,
    subs: map<Endpoint, Subscription>,
    senders: map<nat, Sender>,
    now: int,
    posts: seq<(NoteId, Endpoint)>)

  datatype Step =
    | Notify(id: NoteId, recipient: Option<Profile>)
    | Register(endpoint: Endpoint, profile: Profile)
    | Unregister(endpoint: Endpoint)
    | Claim(s: nat, batch: seq<NoteId>, limit: int, skipped: set<NoteId>)
    | Deliver(s: nat)
    | ReadFails(s: nat)
    | Post(s: nat, endpoint: Endpoint, status: Option<int>)
    | Record(s: nat, endpoint: Endpoint, recorded: bool)
    | Finish(s: nat)
    | Crash(s: nat)
    | Tick(seconds: nat)

  // ---- the functions in the database ----

  predicate Claimable(note: Note, now: int) {
    note.sentAt.None? && note.createdAt > now - WINDOW_SECONDS
  }

  function Claimed(note: Note, now: int): Note {
    note.(sentAt := Some(now), attempts := note.attempts + 1)
  }

  /** A batch the claim may return while other transactions hold locks on `skipped`. */
  ghost predicate ClaimReturns(o: Office, batch: seq<NoteId>, limit: int, skipped: set<NoteId>) {
    && |batch| <= (if limit < 1 then 1 else limit)
    && (forall i, j :: 0 <= i < j < |batch| ==> batch[i] != batch[j])
    && (forall id :: id in batch ==> id in o.notes && id !in skipped && Claimable(o.notes[id], o.now))
    && forall id :: id in o.notes && id !in batch && id !in skipped && Claimable(o.notes[id], o.now) ==>
         && |batch| == (if limit < 1 then 1 else limit)
         && forall other :: other in batch ==> o.notes[other].createdAt <= o.notes[id].createdAt
  }

  function RecordSuccess(subs: map<Endpoint, Subscription>, e: Endpoint): map<Endpoint, Subscription> {
    if e in subs then subs[e := subs[e].(failures := 0, record := subs[e].record + [true])] else subs
  }

  function RecordFailure(subs: map<Endpoint, Subscription>, e: Endpoint, gone: bool): map<Endpoint, Subscription> {
    if e !in subs then subs
    else if gone || subs[e].failures + 1 >= MAX_FAILURES then subs - {e}
    else subs[e := subs[e].(failures := subs[e].failures + 1, record := subs[e].record + [false])]
  }

  /** `_send_one` after the post: success clears the streak, anything else is a failure. */
  function Recorded(subs: map<Endpoint, Subscription>, e: Endpoint, answer: Option<int>): map<Endpoint, Subscription> {
    if answer.None? then RecordSuccess(subs, e) else RecordFailure(subs, e, answer.value in GONE_STATUSES)
  }

  function SubscriptionsFor(o: Office, profile: Profile): set<Endpoint> {
    set e | e in o.subs && o.subs[e].profile == profile && e != ""
  }

  // ---- the system ----

  function SenderOf(o: Office, s: nat): Sender {
    if s in o.senders then o.senders[s] else Sender([], None)
  }

  ghost predicate Enabled(o: Office, step: Step) {
    match step
    case Notify(id, _) => id !in o.notes
    case Register(_, _) => true
    case Unregister(_) => true
    case Claim(s, batch, limit, skipped) =>
      SenderOf(o, s) == Sender([], None) && ClaimReturns(o, batch, limit, skipped)
    case Deliver(s) => SenderOf(o, s).sending.None? && SenderOf(o, s).batch != []
    case ReadFails(s) => SenderOf(o, s).sending.None? && SenderOf(o, s).batch != []
    case Post(s, e, _) => SenderOf(o, s).sending.Some? && e in SenderOf(o, s).sending.value.todo
    case Record(s, e, _) => SenderOf(o, s).sending.Some? && e in SenderOf(o, s).sending.value.answers
    case Finish(s) =>
      && SenderOf(o, s).sending.Some?
      && SenderOf(o, s).sending.value.todo == {}
      && SenderOf(o, s).sending.value.answers == map[]
    case Crash(_) => true
    case Tick(_) => true
  }

  function SetSender(o: Office, s: nat, sender: Sender): Office {
    o.(senders := o.senders[s := sender])
  }

  /** Whom a notification goes to: nobody when it has no recipient. */
  function Targets(o: Office, id: NoteId): set<Endpoint> {
    if id in o.notes && o.notes[id].recipient.Some? && o.notes[id].recipient.value != ""
    then SubscriptionsFor(o, o.notes[id].recipient.value)
    else {}
  }

  ghost function Next(o: Office, step: Step): Office
    requires Enabled(o, step)
  {
    match step
    case Notify(id, recipient) => o.(notes := o.notes[id := Note(recipient, o.now, None, 0)])
    case Register(e, profile) => o.(subs := o.subs[e := Subscription(profile, 0, [])])
    case Unregister(e) => o.(subs := o.subs - {e})
    case Claim(s, batch, _, _) =>
      var claimed := o.(notes := map id | id in o.notes :: if id in batch then Claimed(o.notes[id], o.now) else o.notes[id]);
      SetSender(claimed, s, Sender(batch, None))
    case Deliver(s) =>
      var batch := SenderOf(o, s).batch;
      var targets := Targets(o, batch[0]);
      SetSender(o, s, Sender(batch[1..], Some(Sending(batch[0], targets, targets, map[]))))
    case ReadFails(s) => SetSender(o, s, Sender([], None))
    case Post(s, e, status) =>
      var sender := SenderOf(o, s);
      var going := sender.sending.value;
      SetSender(o.(posts := o.posts + [(going.note, e)]), s,
                sender.(sending := Some(going.(todo := going.todo - {e}, answers := going.answers[e := status]))))
    case Record(s, e, recorded) =>
      var sender := SenderOf(o, s);
      var going := sender.sending.value;
      SetSender(if recorded then o.(subs := Recorded(o.subs, e, going.answers[e])) else o, s,
                sender.(sending := Some(going.(answers := going.answers - {e}))))
    case Finish(s) => SetSender(o, s, SenderOf(o, s).(sending := None))
    case Crash(s) => SetSender(o, s, Sender([], None))
    case Tick(seconds) => o.(now := o.now + seconds)
  }

  const INIT := Office(map[], map[], map[], 0, [])

  // ---- what every step keeps ----

  /** How many failures a record ends with. */
  function Trailing(record: seq<bool>): nat {
    if record == [] || record[|record| - 1] then 0 else 1 + Trailing(record[..|record| - 1])
  }

  ghost predicate InSender(o: Office, s: nat, id: NoteId) {
    id in SenderOf(o, s).batch || (SenderOf(o, s).sending.Some? && SenderOf(o, s).sending.value.note == id)
  }

  ghost predicate SenderOk(o: Office, s: nat) {
    var sender := SenderOf(o, s);
    && (forall i, j :: 0 <= i < j < |sender.batch| ==> sender.batch[i] != sender.batch[j])
    && (sender.sending.Some? ==> sender.sending.value.note !in sender.batch)
    && (forall id :: InSender(o, s, id) ==> id in o.notes && o.notes[id].sentAt.Some?)
  }

  /** A post is of a claimed notification that no sender has still to begin, nor still has to send there. */
  ghost predicate PostOk(o: Office, post: (NoteId, Endpoint)) {
    && post.0 in o.notes && o.notes[post.0].sentAt.Some?
    && forall s :: post.0 !in SenderOf(o, s).batch
                   && (SenderOf(o, s).sending.Some? && SenderOf(o, s).sending.value.note == post.0 ==>
                         post.1 !in SenderOf(o, s).sending.value.todo)
  }

  /** Marked exactly once, or not at all. */
  ghost predicate MarkedOnce(o: Office) {
    forall id :: id in o.notes ==> o.notes[id].attempts == if o.notes[id].sentAt.Some? then 1 else 0
  }

  ghost predicate SendersDisjoint(o: Office) {
    && (forall s :: SenderOk(o, s))
    && (forall s, r, id :: s != r ==> !(InSender(o, s, id) && InSender(o, r, id)))
  }

  ghost predicate PostsOk(o: Office) {
    forall post :: post in o.posts ==> PostOk(o, post)
  }

  ghost predicate PostsOnce(o: Office) {
    forall i, j :: 0 <= i < j < |o.posts| ==> o.posts[i] != o.posts[j]
  }

  ghost predicate CountsOk(o: Office) {
    forall e :: e in o.subs ==> o.subs[e].failures == Trailing(o.subs[e].record) < MAX_FAILURES
  }

  /** What a notification set out for and is no longer to be posted to, it was posted to. */
  ghost predicate Carried(o: Office, s: nat) {
    SenderOf(o, s).sending.Some? ==>
      var going := SenderOf(o, s).sending.value;
      forall e :: e in going.targets ==> e in going.todo || (going.note, e) in o.posts
  }

  ghost predicate Inv(o: Office) {
    && (forall s :: Carried(o, s))
    && MarkedOnce(o) && SendersDisjoint(o) && PostsOk(o) && PostsOnce(o) && CountsOk(o)
  }
}
