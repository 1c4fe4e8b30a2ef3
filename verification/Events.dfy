/** Events on their way to one browser, the frames that carry them, and the bounded queue. */
module Events {
  import opened Audience

  const QUEUE_MAXSIZE: nat := 64

  datatype Event = Event(id: nat, topic: string, payload: Json)

  datatype Frame = Replayed(event: Event) | Live(event: Event) | Resync(event: Event) | Keepalive

  /** `_event_from`: a payload that is not an object is wrapped, an empty topic defaulted. */
  function EventOf(row: Row): Event {
    Event(
      row.id,
      if row.topic == "" then "dashboard.refresh" else row.topic,
      if row.payload.Dict? then row.payload else Dict([("raw", row.payload)]))
  }

  /** `event` is what this row tells a browser: its own topic and object, with a default for either. */
  ghost predicate Carries(event: Event, row: Row) {
    && event.id == row.id
    && (row.topic != "" ==> event.topic == row.topic)
    && (row.topic == "" ==> event.topic == "dashboard.refresh")
    && (row.payload.Dict? ==> event.payload == row.payload)
    && (!row.payload.Dict? ==> event.payload == Dict([("raw", row.payload)]))
  }

  function EventsOf(rows: seq<Row>): (r: seq<Event>)
    ensures |r| == |rows|
    ensures forall i :: 0 <= i < |rows| ==> r[i] == EventOf(rows[i])
  {
    seq(|rows|, i requires 0 <= i < |rows| => EventOf(rows[i]))
  }

  function ResyncEvent(id: nat, role: string): Event {
    Event(
      id,
      if role == "admin" || role == "manager" then "dashboard.refresh" else "stream.resync",
      Dict([("resync", Bool(true))]))
  }

  /** What one subscriber owns: its queue and whether it is owed a resync. */
  datatype Mail = Mail(queue: seq<Event>, dropped: bool)

  /** `_Subscriber.push` */
  function Put(mail: Mail, event: Event): Mail {
    if |mail.queue| < QUEUE_MAXSIZE
    then mail.(queue := mail.queue + [event])
    else mail.(dropped := true)
  }

  function PutAll(mail: Mail, events: seq<Event>): Mail
    decreases events
  {
    if events == [] then mail else PutAll(Put(mail, events[0]), events[1..])
  }

  /** How many of `events` still fit. */
  function Fitting(mail: Mail, events: seq<Event>): (n: nat)
    ensures n <= |events|
  {
    var room := if |mail.queue| < QUEUE_MAXSIZE then QUEUE_MAXSIZE - |mail.queue| else 0;
    if |events| < room then |events| else room
  }

  /**
    Pushing one by one keeps exactly the longest prefix that fits, in order, and
    raises the debt exactly when something did not fit.
   */
  lemma {:induction false} PutAllMeaning(mail: Mail, events: seq<Event>)
    ensures var n := Fitting(mail, events);
            PutAll(mail, events) == Mail(mail.queue + events[..n], mail.dropped || n < |events|)
    decreases events
  {
    if events != [] {
      PutAllMeaning(Put(mail, events[0]), events[1..]);
      var n := Fitting(mail, events);
      if |mail.queue| < QUEUE_MAXSIZE {
        assert mail.queue + events[..n] == (mail.queue + [events[0]]) + events[1..][..n - 1];
      } else {
        assert mail.queue + events[..0] == mail.queue == mail.queue + events[1..][..0];
      }
    } else {
      assert mail.queue + events[..0] == mail.queue;
    }
  }

  lemma {:induction false} PutAllConcat(mail: Mail, xs: seq<Event>, ys: seq<Event>)
    ensures PutAll(mail, xs + ys) == PutAll(PutAll(mail, xs), ys)
    decreases xs
  {
    if xs == [] {
      assert xs + ys == ys;
    } else {
      assert (xs + ys)[1..] == xs[1..] + ys;
      PutAllConcat(Put(mail, xs[0]), xs[1..], ys);
    }
  }

  ghost predicate AscendingIds(events: seq<Event>) {
    forall i, j :: 0 <= i < j < |events| ==> events[i].id < events[j].id
  }

  /** The live events among some frames. */
  function LiveOf(frames: seq<Frame>): (r: seq<Event>)
    ensures forall e :: e in r <==> Live(e) in frames
  {
    if frames == [] then []
    else
      var last := frames[|frames| - 1];
      assert frames == frames[..|frames| - 1] + [last];
      LiveOf(frames[..|frames| - 1]) + if last.Live? then [last.event] else []
  }

  lemma LiveOfAppend(frames: seq<Frame>, frame: Frame)
    ensures LiveOf(frames + [frame]) == LiveOf(frames) + if frame.Live? then [frame.event] else []
  {
    assert (frames + [frame])[..|frames + [frame]| - 1] == frames;
  }

  lemma {:induction false} LiveOfNone(frames: seq<Frame>)
    requires forall i :: 0 <= i < |frames| ==> !frames[i].Live?
    ensures LiveOf(frames) == []
  {
    if frames != [] {
      LiveOfNone(frames[..|frames| - 1]);
    }
  }
}
