/** From the table to the browser: what a client reads off its stream. */
module HubStream {
  import opened Wrappers
  import opened Audience
  import opened Events
  import opened Text
  import Outbox
  import Hub
  import HubTheorems
  import HubFrames
  import EventStream

  /** The message a browser dispatches says what the row says, once its body is parsed. */
  ghost predicate MessageCarries(message: EventStream.Message, row: Row, parse: string -> Json) {
    && message.lastId == Decimal(row.id)
    && message.kind == (if row.topic == "" then "dashboard.refresh" else row.topic)
    && parse(message.data) == (if row.payload.Dict? then row.payload else Dict([("raw", row.payload)]))
  }

  lemma TopicsAreOneLine(h: Hub.Hub, key: nat, j: nat)
    requires HubTheorems.Reachable(h) && key in h.subs && j < |h.subs[key].frames|
    requires forall row :: row in h.box.log ==> EventStream.OneLine(row.topic)
    ensures EventStream.Topical(h.subs[key].frames[j])
  {
    hide HubTheorems.Reachable, Addressed;
    var frame := h.subs[key].frames[j];
    DefaultsAreOneLine();
    if frame.Live? || frame.Replayed? {
      HubFrames.FramesAreRows(h, key, j);
      var row :| row in h.box.log && Addressed(row, h.subs[key].who) && Carries(frame.event, row);
    } else if frame.Resync? {
      HubFrames.ResyncsAreNotices(h, key, j);
    }
  }

  lemma DefaultsAreOneLine()
    ensures EventStream.OneLine("dashboard.refresh") && EventStream.OneLine("stream.resync")
  {
  }

  /** The message of frame `j` comes after those of the frames before it that are not keepalives. */
  lemma {:induction false} MessageOf(frames: seq<Frame>, dump: Json -> string, j: nat)
    requires j < |frames| && !frames[j].Keepalive?
    ensures var n := |EventStream.EventsAmong(frames[..j])|;
            && n < |EventStream.AllSent(frames, dump)|
            && EventStream.AllSent(frames, dump)[n] == EventStream.Sent(frames[j].event, dump)
  {
    if j > 0 {
      MessageOf(frames[1..], dump, j - 1);
      assert frames[..j][1..] == frames[1..][..j - 1];
    }
  }

  /**
    In every run, whatever a client was sent it reads back: the message of each event
    frame has the id, the topic and, once parsed, the payload of a row of the table that
    is addressed to it. The printer is any that writes one line and has an inverse.
   */
  lemma BrowserReadsRows(h: Hub.Hub, key: nat, j: nat, dump: Json -> string, parse: string -> Json)
    requires HubTheorems.Reachable(h) && key in h.subs && j < |h.subs[key].frames|
    requires h.subs[key].frames[j].Live? || h.subs[key].frames[j].Replayed?
    requires forall v :: EventStream.OneLine(dump(v)) && parse(dump(v)) == v
    requires forall row :: row in h.box.log ==> EventStream.OneLine(row.topic)
    ensures var frames := h.subs[key].frames;
            var got := EventStream.Receive(EventStream.StreamText(frames, dump));
            var n := |EventStream.EventsAmong(frames[..j])|;
            && n < |got|
            && exists row :: row in h.box.log && Addressed(row, h.subs[key].who) && MessageCarries(got[n], row, parse)
  {
    var frames := h.subs[key].frames;
    forall i | 0 <= i < |frames| ensures EventStream.Topical(frames[i]) {
      TopicsAreOneLine(h, key, i);
    }
    EventStream.StreamRoundTrip(frames, dump);
    MessageOf(frames, dump, j);
    HubFrames.FramesAreRows(h, key, j);
    var row :| row in h.box.log && Addressed(row, h.subs[key].who) && Carries(frames[j].event, row);
    assert MessageCarries(EventStream.Sent(frames[j].event, dump), row, parse);
  }
}
