/**
  The text of the stream: how a frame is rendered, and how a browser reads the text
  back by sections 9.2.5 and 9.2.6 of the WHATWG HTML Standard.
 */
module EventStream {
  import opened Wrappers
  import opened Audience
  import opened Events
  import opened Text

  // ---- rendering ----

  /** `Event.frame`; `dump` is the JSON printer. */
  function EventText(event: Event, dump: Json -> string): string {
    "id: " + Decimal(event.id) + "\n"
    + ("event: " + event.topic + "\n"
       + ("data: " + dump(event.payload) + "\n" + "\n"))
  }

  function FrameText(frame: Frame, dump: Json -> string): string {
    if frame.Keepalive? then ": keepalive" + "\n" + "\n" else EventText(frame.event, dump)
  }

  function StreamText(frames: seq<Frame>, dump: Json -> string): string {
    if frames == [] then "" else FrameText(frames[0], dump) + StreamText(frames[1..], dump)
  }

  // ---- reading ----

  datatype Message = Message(kind: string, data: string, lastId: string)

  datatype Buffers = Buffers(data: string, kind: string, lastId: string)

  /** The terminated lines of a text; CR LF, LF and CR each end one, and an unfinished tail is dropped. */
  function Lines(text: string, line: string): seq<string>
    decreases |text|
  {
    if text == [] then []
    else if text[0] == '\n' then [line] + Lines(text[1..], [])
    else if text[0] == '\r' then
      [line] + Lines(if |text| > 1 && text[1] == '\n' then text[2..] else text[1..], [])
    else Lines(text[1..], line + [text[0]])
  }

  /** The position of the first colon, or the length. */
  function Colon(line: string): (k: nat)
    ensures k <= |line|
    ensures k < |line| ==> line[k] == ':'
    ensures forall i :: 0 <= i < k ==> line[i] != ':'
  {
    if line == [] || line[0] == ':' then 0 else 1 + Colon(line[1..])
  }

  function FieldName(line: string): string {
    line[..Colon(line)]
  }

  function FieldValue(line: string): string {
    var k := Colon(line);
    if k == |line| then ""
    else if k + 1 < |line| && line[k + 1] == ' ' then line[k + 2..]
    else line[k + 1..]
  }

  function OnField(b: Buffers, name: string, value: string): Buffers {
    if name == "event" then b.(kind := value)
    else if name == "data" then b.(data := b.data + value + "\n")
    else if name == "id" then (if '\0' in value then b else b.(lastId := value))
    else b
  }

  function OnLine(b: Buffers, line: string): Buffers {
    if line == "" then b.(data := "", kind := "")
    else if line[0] == ':' then b
    else OnField(b, FieldName(line), FieldValue(line))
  }

  /** What an empty line dispatches. */
  function Dispatched(b: Buffers): seq<Message> {
    if b.data == "" then []
    else
      var last := |b.data| - 1;
      [Message(if b.kind == "" then "message" else b.kind,
               if b.data[last] == '\n' then b.data[..last] else b.data,
               b.lastId)]
  }

  function Interpret(b: Buffers, lines: seq<string>): seq<Message>
    decreases lines
  {
    if lines == [] then []
    else
      (if lines[0] == "" then Dispatched(b) else [])
      + Interpret(OnLine(b, lines[0]), lines[1..])
  }

  const BOM := '\U{FEFF}'

  function Receive(text: string): seq<Message> {
    var body := if text != [] && text[0] == BOM then text[1..] else text;
    Interpret(Buffers("", "", ""), Lines(body, ""))
  }

  // ---- the round trip ----

  predicate OneLine(s: string) {
    '\n' !in s && '\r' !in s
  }

  /** A topic an `event:` field can carry. */
  predicate Topical(frame: Frame) {
    !frame.Keepalive? ==> frame.event.topic != "" && OneLine(frame.event.topic)
  }

  function Sent(event: Event, dump: Json -> string): Message {
    Message(event.topic, dump(event.payload), Decimal(event.id))
  }

  function AllSent(frames: seq<Frame>, dump: Json -> string): seq<Message> {
    if frames == [] then []
    else
      (if frames[0].Keepalive? then [] else [Sent(frames[0].event, dump)])
      + AllSent(frames[1..], dump)
  }

  lemma {:induction false} LineRead(line: string, rest: string, before: string)
    requires OneLine(line)
    ensures Lines(line + "\n" + rest, before) == [before + line] + Lines(rest, [])
    decreases |line|
  {
    var text := line + "\n" + rest;
    if line == [] {
      assert text[1..] == rest;
      assert before + line == before;
    } else {
      assert text[1..] == line[1..] + "\n" + rest;
      LineRead(line[1..], rest, before + [line[0]]);
      assert before + [line[0]] + line[1..] == before + line;
    }
  }

  lemma {:induction false} FirstColon(line: string, k: nat)
    requires k < |line| && line[k] == ':' && forall i :: 0 <= i < k ==> line[i] != ':'
    ensures Colon(line) == k
  {
    if k > 0 {
      FirstColon(line[1..], k - 1);
    }
  }

  /** A `name: value` line sets exactly its field to exactly its value. */
  lemma FieldRead(b: Buffers, name: string, value: string)
    requires name != "" && ':' !in name
    ensures OnLine(b, name + ": " + value) == OnField(b, name, value)
  {
    var line := name + ": " + value;
    assert line[|name|] == ':' && line[|name| + 1] == ' ';
    forall i | 0 <= i < |name| ensures line[i] != ':' {
      assert line[i] in name;
    }
    FirstColon(line, |name|);
    assert line[..|name|] == name;
    assert line[|name| + 2..] == value;
  }

  lemma DecimalIsPlain(n: nat)
    ensures OneLine(Decimal(n)) && '\0' !in Decimal(n)
  {
  }

  lemma OneLineConcat(xs: string, ys: string)
    requires OneLine(xs) && OneLine(ys)
    ensures OneLine(xs + ys)
  {
  }

  /** The four lines of an event frame. */
  lemma EventLines(event: Event, dump: Json -> string, rest: string)
    requires OneLine(event.topic) && OneLine(dump(event.payload))
    ensures Lines(EventText(event, dump) + rest, "")
            == ["id: " + Decimal(event.id), "event: " + event.topic, "data: " + dump(event.payload), ""]
               + Lines(rest, "")
  {
    var l1, l2, l3 := "id: " + Decimal(event.id), "event: " + event.topic, "data: " + dump(event.payload);
    DecimalIsPlain(event.id);
    OneLineConcat("id: ", Decimal(event.id));
    OneLineConcat("event: ", event.topic);
    OneLineConcat("data: ", dump(event.payload));
    var t4 := "" + "\n" + rest;
    var t3 := l3 + "\n" + t4;
    var t2 := l2 + "\n" + t3;
    assert EventText(event, dump) + rest == l1 + "\n" + t2;
    LineRead(l1, t2, "");
    LineRead(l2, t3, "");
    LineRead(l3, t4, "");
    LineRead("", rest, "");
    assert "" + l1 == l1 && "" + l2 == l2 && "" + l3 == l3;
  }

  lemma InterpretLine(b: Buffers, line: string, rest: seq<string>)
    ensures Interpret(b, [line] + rest) == (if line == "" then Dispatched(b) else []) + Interpret(OnLine(b, line), rest)
  {
    assert ([line] + rest)[1..] == rest;
  }

  lemma InterpretField(b: Buffers, name: string, value: string, rest: seq<string>)
    requires name != "" && ':' !in name
    ensures Interpret(b, [name + ": " + value] + rest) == Interpret(OnField(b, name, value), rest)
  {
    InterpretLine(b, name + ": " + value, rest);
    FieldRead(b, name, value);
  }

  lemma InterpretId(data: string, kind: string, lastId: string, id: nat, rest: seq<string>)
    ensures Interpret(Buffers(data, kind, lastId), ["id: " + Decimal(id)] + rest)
            == Interpret(Buffers(data, kind, Decimal(id)), rest)
  {
    DecimalIsPlain(id);
    assert "id" + ": " == "id: ";
    InterpretField(Buffers(data, kind, lastId), "id", Decimal(id), rest);
  }

  lemma InterpretKind(data: string, kind: string, lastId: string, value: string, rest: seq<string>)
    ensures Interpret(Buffers(data, kind, lastId), ["event: " + value] + rest)
            == Interpret(Buffers(data, value, lastId), rest)
  {
    assert "event" + ": " == "event: ";
    InterpretField(Buffers(data, kind, lastId), "event", value, rest);
  }

  lemma InterpretData(kind: string, lastId: string, value: string, rest: seq<string>)
    ensures Interpret(Buffers("", kind, lastId), ["data: " + value] + rest)
            == Interpret(Buffers("" + value + "\n", kind, lastId), rest)
  {
    assert "data" + ": " == "data: ";
    InterpretField(Buffers("", kind, lastId), "data", value, rest);
  }

  lemma InterpretEnd(kind: string, data: string, lastId: string, rest: seq<string>)
    requires kind != ""
    ensures Interpret(Buffers("" + data + "\n", kind, lastId), [""] + rest)
            == [Message(kind, data, lastId)] + Interpret(Buffers("", "", lastId), rest)
  {
    var b := Buffers("" + data + "\n", kind, lastId);
    assert b.data[..|b.data| - 1] == data;
    InterpretLine(b, "", rest);
  }

  lemma EventRead(event: Event, dump: Json -> string, lastId: string, rest: seq<string>)
    requires event.topic != ""
    ensures var lines :=
              ["id: " + Decimal(event.id), "event: " + event.topic, "data: " + dump(event.payload), ""];
            Interpret(Buffers("", "", lastId), lines + rest)
            == [Sent(event, dump)] + Interpret(Buffers("", "", Decimal(event.id)), rest)
  {
    var id := Decimal(event.id);
    var l2, l3 := "event: " + event.topic, "data: " + dump(event.payload);
    InterpretId("", "", lastId, event.id, [l2, l3, ""] + rest);
    InterpretKind("", "", id, event.topic, [l3, ""] + rest);
    InterpretData(event.topic, id, dump(event.payload), [""] + rest);
    InterpretEnd(event.topic, dump(event.payload), id, rest);
    FourLines("id: " + id, l2, l3, "", rest);
  }

  lemma FourLines(l1: string, l2: string, l3: string, l4: string, rest: seq<string>)
    ensures [l1, l2, l3, l4] + rest == [l1] + ([l2, l3, l4] + rest)
    ensures [l2, l3, l4] + rest == [l2] + ([l3, l4] + rest)
    ensures [l3, l4] + rest == [l3] + ([l4] + rest)
  {
  }

  lemma CommentRead(b: Buffers, rest: string)
    requires b.data == "" && b.kind == ""
    ensures Interpret(b, Lines(": keepalive" + "\n" + "\n" + rest, "")) == Interpret(b, Lines(rest, ""))
  {
    var comment := ": keepalive";
    var tail := "" + "\n" + rest;
    assert ": keepalive" + "\n" + "\n" + rest == comment + "\n" + tail;
    LineRead(comment, tail, "");
    LineRead("", rest, "");
    assert "" + comment == comment;
    InterpretLine(b, comment, [""] + Lines(rest, ""));
    InterpretLine(b, "", Lines(rest, ""));
  }

  lemma {:induction false} FramesRead(frames: seq<Frame>, dump: Json -> string, lastId: string)
    requires forall j :: OneLine(dump(j))
    requires forall i :: 0 <= i < |frames| ==> Topical(frames[i])
    ensures Interpret(Buffers("", "", lastId), Lines(StreamText(frames, dump), "")) == AllSent(frames, dump)
    decreases |frames|
  {
    if frames != [] {
      var rest := StreamText(frames[1..], dump);
      if frames[0].Keepalive? {
        CommentRead(Buffers("", "", lastId), rest);
        FramesRead(frames[1..], dump, lastId);
      } else {
        var event := frames[0].event;
        EventLines(event, dump, rest);
        EventRead(event, dump, lastId, Lines(rest, ""));
        FramesRead(frames[1..], dump, Decimal(event.id));
      }
    }
  }

  /**
    Whatever frames a stream carries, a browser recovers exactly the topics, bodies
    and ids of its events, in order, and nothing from its keepalives, provided no
    topic is empty or broken over lines and the printer writes one line.
   */
  lemma StreamRoundTrip(frames: seq<Frame>, dump: Json -> string)
    requires forall j :: OneLine(dump(j))
    requires forall i :: 0 <= i < |frames| ==> Topical(frames[i])
    ensures Receive(StreamText(frames, dump)) == AllSent(frames, dump)
  {
    FramesRead(frames, dump, "");
    if frames != [] {
      assert StreamText(frames, dump)[0] == FrameText(frames[0], dump)[0];
    }
  }

  // ---- the ids come back as numbers ----

  /** What a client makes of one message: `Last-Event-ID` as a number and the parsed body. */
  function Understood(message: Message, parse: string -> Json): Option<Event> {
    if forall i :: 0 <= i < |message.lastId| ==> '0' <= message.lastId[i] <= '9'
    then Some(Event(Undecimal(message.lastId), message.kind, parse(message.data)))
    else None
  }

  function EventsAmong(frames: seq<Frame>): seq<Event> {
    if frames == [] then []
    else (if frames[0].Keepalive? then [] else [frames[0].event]) + EventsAmong(frames[1..])
  }

  lemma {:induction false} AllUnderstood(frames: seq<Frame>, dump: Json -> string, parse: string -> Json)
    requires forall j :: parse(dump(j)) == j
    ensures |AllSent(frames, dump)| == |EventsAmong(frames)|
    ensures forall i :: 0 <= i < |EventsAmong(frames)| ==>
              Understood(AllSent(frames, dump)[i], parse) == Some(EventsAmong(frames)[i])
  {
    if frames != [] {
      AllUnderstood(frames[1..], dump, parse);
      if !frames[0].Keepalive? {
        DecimalRoundTrip(frames[0].event.id);
      }
    }
  }

  /** Ids, topics and payloads survive the text: the client has the very events that were framed. */
  lemma EventsSurvive(frames: seq<Frame>, dump: Json -> string, parse: string -> Json)
    requires forall j :: OneLine(dump(j)) && parse(dump(j)) == j
    requires forall i :: 0 <= i < |frames| ==> Topical(frames[i])
    ensures var got := Receive(StreamText(frames, dump));
            && |got| == |EventsAmong(frames)|
            && forall i :: 0 <= i < |got| ==> Understood(got[i], parse) == Some(EventsAmong(frames)[i])
  {
    StreamRoundTrip(frames, dump);
    AllUnderstood(frames, dump, parse);
  }

  /** Every frame the hub itself makes from a row with a one-line topic can be carried. */
  lemma HubFramesAreTopical(row: Row, id: nat, role: string)
    requires OneLine(row.topic)
    ensures Topical(Live(EventOf(row))) && Topical(Replayed(EventOf(row))) && Topical(Resync(ResyncEvent(id, role)))
    ensures Carries(EventOf(row), row)
    ensures ResyncEvent(id, role).id == id
  {
    assert OneLine("dashboard.refresh") && OneLine("stream.resync");
  }

  lemma UnknownFieldRead(b: Buffers, rest: seq<string>)
    ensures Interpret(b, ["b"] + rest) == Interpret(b, rest)
  {
    InterpretLine(b, "b", rest);
    assert Colon("b") == 1;
    assert FieldName("b") == "b";
  }

  lemma BrokenRead(id: nat, value: string)
    ensures Interpret(Buffers("", "", ""), ["id: " + Decimal(id), "event: a", "b", "data: " + value, ""])
            == [Message("a", value, Decimal(id))]
  {
    var l1, l4 := "id: " + Decimal(id), "data: " + value;
    InterpretId("", "", "", id, ["event: a"] + (["b"] + ([l4] + ([""] + []))));
    assert "event: " + "a" == "event: a";
    InterpretKind("", "", Decimal(id), "a", ["b"] + ([l4] + ([""] + [])));
    UnknownFieldRead(Buffers("", "a", Decimal(id)), [l4] + ([""] + []));
    InterpretData("a", Decimal(id), value, [""] + []);
    InterpretEnd("a", value, Decimal(id), []);
    assert [l1, "event: a", "b", l4, ""] == [l1] + (["event: a"] + (["b"] + ([l4] + ([""] + []))));
  }

  /** A topic broken over two lines ends its field early: the hypothesis is needed. */
  lemma BrokenTopicIsCut(dump: Json -> string)
    requires OneLine(dump(Null))
    ensures var frame := Live(Event(1, "a\nb", Null));
            !Topical(frame) && Receive(StreamText([frame], dump)) == [Message("a", dump(Null), Decimal(1))]
  {
    var event := Event(1, "a\nb", Null);
    BrokenLines(dump);
    BrokenRead(1, dump(Null));
    var text := EventText(event, dump) + "";
    assert [Live(event)][1..] == [];
    assert StreamText([Live(event)], dump) == text;
    assert text[0] == 'i';
    assert event.topic[1] == '\n';
  }

  lemma BrokenLines(dump: Json -> string)
    requires OneLine(dump(Null))
    ensures Lines(EventText(Event(1, "a\nb", Null), dump) + "", "")
            == ["id: " + Decimal(1), "event: a", "b", "data: " + dump(Null), ""]
  {
    var l1, l4 := "id: " + Decimal(1), "data: " + dump(Null);
    DecimalIsPlain(1);
    OneLineConcat("data: ", dump(Null));
    OneLineConcat("id: ", Decimal(1));
    var t5 := "" + "\n" + "";
    var t4 := l4 + "\n" + t5;
    var t3 := "b" + "\n" + t4;
    var t2 := "event: a" + "\n" + t3;
    assert "event: " + "a\nb" + "\n" == "event: a" + "\n" + ("b" + "\n");
    assert EventText(Event(1, "a\nb", Null), dump) + "" == l1 + "\n" + t2;
    assert Lines("", "") == [];
    LineRead("", "", "");
    LineRead(l4, t5, "");
    assert "" + l4 == l4 && "" + "b" == "b" && "" + "event: a" == "event: a" && "" + l1 == l1;
    assert Lines(t4, "") == [l4] + [""];
    LineRead("b", t4, "");
    LineRead("event: a", t3, "");
    assert Lines(t2, "") == ["event: a"] + (["b"] + ([l4] + [""]));
    LineRead(l1, t2, "");
  }
}
