/** The hub's objects, in the code's own form, against the functions the step system is built from. */
module Realtime {
  import opened Wrappers
  import opened Audience
  import opened Outbox
  import opened Events

  class Subscriber {
    const who: Identity
    var queue: seq<Event>
    var dropped: bool

    ghost function Mail(): Mail
      reads this
    {
      Events.Mail(queue, dropped)
    }

    constructor (who: Identity)
      ensures this.who == who && Mail() == Events.Mail([], false)
    {
      this.who := who;
      queue := [];
      dropped := false;
    }

    /** Enqueue without ever blocking: a full queue raises the debt instead. */
    method Push(event: Event)
      modifies this
      ensures Mail() == Put(old(Mail()), event)
      ensures |old(queue)| < 64 ==> queue == old(queue) + [event] && dropped == old(dropped)
      ensures |old(queue)| >= 64 ==> queue == old(queue) && dropped
    {
      if |queue| < QUEUE_MAXSIZE {
        queue := queue + [event];
      } else {
        dropped := true;
      }
    }

    method Get() returns (event: Event)
      requires queue != []
      modifies this
      ensures old(Mail()) == Mail().(queue := [event] + Mail().queue)
    {
      event := queue[0];
      queue := queue[1..];
    }

    /** After a yield: pay the debt once the queue has drained, and only then. */
    method Settle(event: Event) returns (resync: Option<Event>)
      modifies this
      ensures queue == old(queue)
      ensures resync.Some? <==> old(dropped) && old(queue) == []
      ensures dropped == (old(dropped) && resync.None?)
      ensures resync.Some? ==> resync.value == ResyncEvent(event.id, who.role)
    {
      if dropped && queue == [] {
        dropped := false;
        resync := Some(ResyncEvent(event.id, who.role));
      } else {
        resync := None;
      }
    }
  }

  /** The least mark at or past a cursor and every row. */
  function Highest(cursor: Option<nat>, rows: seq<Row>): (r: Option<nat>)
    ensures rows == [] ==> r == cursor
    ensures rows != [] ==> r.Some? && forall row :: row in rows ==> row.id <= r.value
  {
    if rows == [] then cursor
    else
      var before := Highest(cursor, rows[..|rows| - 1]);
      var last := rows[|rows| - 1];
      assert rows == rows[..|rows| - 1] + [last];
      Some(if before.Some? then Max(before.value, last.id) else last.id)
  }

  /** On a batch in id order, as the query returns it, that is the last id or the old cursor. */
  lemma {:induction false} HighestOfAscending(cursor: Option<nat>, rows: seq<Row>)
    requires Ascending(rows) && rows != []
    ensures var top := rows[|rows| - 1].id;
            Highest(cursor, rows) == Some(if cursor.Some? then Max(cursor.value, top) else top)
  {
    var fewer := rows[..|rows| - 1];
    if fewer != [] {
      HighestOfAscending(cursor, fewer);
      assert rows[|rows| - 2].id < rows[|rows| - 1].id;
    }
  }

  lemma SelectSnoc(q: Query, rows: seq<Row>, k: nat)
    requires k < |rows|
    ensures Select(q, rows[..k + 1]) == Select(q, rows[..k]) + if Admits(q, rows[k]) then [rows[k]] else []
  {
    assert rows[..k + 1] == rows[..k] + [rows[k]];
    SelectConcat(q, rows[..k], [rows[k]]);
    assert [rows[k]][1..] == [];
  }

  /** What one connection's mail is once it has been offered the first `k` rows of a batch. */
  function Offered(mail: Mail, who: Identity, rows: seq<Row>, k: nat): Mail
    requires k <= |rows|
  {
    PutAll(mail, EventsOf(Select(Heard(who), rows[..k])))
  }

  lemma PutAllOne(mail: Mail, event: Event)
    ensures PutAll(mail, [event]) == Put(mail, event)
  {
    assert [event][1..] == [];
  }

  lemma OfferedNext(mail: Mail, who: Identity, rows: seq<Row>, k: nat)
    requires k < |rows|
    ensures Offered(mail, who, rows, k + 1)
            == if Admits(Heard(who), rows[k])
               then Put(Offered(mail, who, rows, k), EventOf(rows[k]))
               else Offered(mail, who, rows, k)
  {
    SelectSnoc(Heard(who), rows, k);
    var before := EventsOf(Select(Heard(who), rows[..k]));
    if Admits(Heard(who), rows[k]) {
      assert EventsOf(Select(Heard(who), rows[..k + 1])) == before + [EventOf(rows[k])];
      PutAllConcat(mail, before, [EventOf(rows[k])]);
      PutAllOne(PutAll(mail, before), EventOf(rows[k]));
    } else {
      assert Select(Heard(who), rows[..k]) + [] == Select(Heard(who), rows[..k]);
    }
  }

  ghost predicate PushedRows(before: seq<Event>, after: seq<Event>, rows: seq<Row>, who: Identity) {
    forall e :: e in after && e !in before ==> exists row :: row in rows && Addressed(row, who) && Carries(e, row)
  }

  ghost predicate KeptRows(queue: seq<Event>, rows: seq<Row>, who: Identity) {
    forall row :: row in rows && Addressed(row, who) ==> exists e :: e in queue && Carries(e, row)
  }

  /** A batch puts its addressed rows into the mail, each under its own topic and payload, and nothing else. */
  lemma PushedAreRows(mail: Mail, who: Identity, rows: seq<Row>)
    ensures var after := PutAll(mail, EventsOf(Select(Heard(who), rows)));
            PushedRows(mail.queue, after.queue, rows, who) && (after.dropped || KeptRows(after.queue, rows, who))
  {
    var picked := Select(Heard(who), rows);
    var events := EventsOf(picked);
    var after := PutAll(mail, events);
    var n := Fitting(mail, events);
    PutAllMeaning(mail, events);
    forall e | e in after.queue && e !in mail.queue ensures exists row :: row in rows && Addressed(row, who) && Carries(e, row) {
      var i :| 0 <= i < n && events[i] == e;
      HeardIsAddressed(who, picked[i]);
      assert picked[i] in rows && Carries(e, picked[i]);
    }
    if !after.dropped {
      forall row | row in rows && Addressed(row, who) ensures exists e :: e in after.queue && Carries(e, row) {
        HeardIsAddressed(who, row);
        var i :| 0 <= i < |picked| && picked[i] == row;
        assert events[..n][i] == EventOf(row) && Carries(EventOf(row), row);
      }
    }
  }

  class RealtimeHub {
    const batchSize: nat
    var subscribers: map<string, set<Subscriber>>
    var cursor: Option<nat>

    ghost predicate Valid()
      reads this
    {
      forall c :: c in subscribers ==>
        subscribers[c] != {} && forall s :: s in subscribers[c] ==> s.who.community == c
    }

    ghost function Connected(): set<Subscriber>
      reads this
    {
      set c, s | c in subscribers && s in subscribers[c] :: s
    }

    constructor (batchSize: nat)
      ensures Valid() && Connected() == {} && cursor == None && this.batchSize == batchSize
    {
      this.batchSize := batchSize;
      subscribers := map[];
      cursor := None;
    }

    /** The first half of `subscribe`: join the group of its community. */
    method Attach(subscriber: Subscriber)
      requires Valid()
      modifies this`subscribers
      ensures Valid() && Connected() == old(Connected()) + {subscriber}
    {
      var c := subscriber.who.community;
      var group := if c in subscribers then subscribers[c] else {};
      subscribers := subscribers[c := group + {subscriber}];
      assert forall s :: s in Connected() ==> s in old(Connected()) || s == subscriber;
      assert c in subscribers && subscriber in subscribers[c];
      forall s | s in old(Connected()) ensures s in Connected() {
        var d :| d in old(subscribers) && s in old(subscribers)[d];
        assert d in subscribers && old(subscribers)[d] <= subscribers[d];
      }
    }

    /** Its `finally`: leave the group, and drop the group once it is empty. */
    method Detach(subscriber: Subscriber)
      requires Valid()
      modifies this`subscribers
      ensures Valid() && Connected() == old(Connected()) - {subscriber}
    {
      var c := subscriber.who.community;
      if c in subscribers {
        var group := subscribers[c] - {subscriber};
        subscribers := if group == {} then subscribers - {c} else subscribers[c := group];
      }
      forall s | s in old(Connected()) && s != subscriber ensures s in Connected() {
        var d :| d in old(subscribers) && s in old(subscribers)[d];
        assert s in old(subscribers)[d] - {subscriber};
        assert d in subscribers && s in subscribers[d];
      }
    }

    /** One poll: seed an unseeded cursor at the high-water mark, otherwise read the next batch. */
    method Fetch(box: Outbox) returns (rows: seq<Row>)
      requires box.pruned <= |box.log|
      modifies this`cursor
      ensures old(cursor).None? ==> rows == [] && cursor == Some(LatestEventId(box))
      ensures old(cursor).Some? ==> cursor == old(cursor) && rows == ReadEventsSince(box, cursor.value, batchSize)
    {
      if cursor.None? {
        cursor := Some(LatestEventId(box));
        rows := [];
      } else {
        rows := ReadEventsSince(box, cursor.value, batchSize);
      }
    }

    /**
      Fan a batch out. Every connected subscriber ends with the batch's rows of its
      community and audience pushed in order, nobody else's mail moves, and the
      cursor covers the whole batch whether or not anybody was listening.
     */
    method Dispatch(rows: seq<Row>)
      requires Valid()
      modifies this`cursor, Connected()
      ensures cursor == Highest(old(cursor), rows)
      ensures Ascending(rows) && rows != [] ==>
                var top := rows[|rows| - 1].id;
                cursor == Some(if old(cursor).Some? then Max(old(cursor).value, top) else top)
      ensures forall s :: s in Connected() ==>
                s.Mail() == PutAll(old(s.Mail()), EventsOf(Select(Heard(s.who), rows)))
      ensures forall s, e :: s in Connected() && e in s.queue && e !in old(s.queue) ==>
                exists row :: row in rows && Addressed(row, s.who) && Carries(e, row)
      ensures forall s, row :: s in Connected() && row in rows && Addressed(row, s.who) ==>
                s.dropped || exists e :: e in s.queue && Carries(e, row)
    {
      var k := 0;
      assert forall s :: s in Connected() ==> Offered(old(s.Mail()), s.who, rows, 0) == s.Mail();
      while k < |rows|
        invariant k <= |rows|
        invariant cursor == Highest(old(cursor), rows[..k])
        invariant forall s :: s in Connected() ==> s.Mail() == Offered(old(s.Mail()), s.who, rows, k)
      {
        assert rows[..k + 1][..k] == rows[..k];
        forall s | s in Connected()
          ensures Offered(old(s.Mail()), s.who, rows, k + 1)
                  == if Admits(Heard(s.who), rows[k]) then Put(s.Mail(), EventOf(rows[k])) else s.Mail()
        {
          OfferedNext(old(s.Mail()), s.who, rows, k);
        }
        Offer(rows[k]);
        k := k + 1;
      }
      assert rows[..k] == rows;
      if Ascending(rows) && rows != [] {
        HighestOfAscending(old(cursor), rows);
      }
      forall s | s in Connected()
        ensures PushedRows(old(s.queue), s.queue, rows, s.who) && (s.dropped || KeptRows(s.queue, rows, s.who))
      {
        PushedAreRows(old(s.Mail()), s.who, rows);
      }
    }

    /** One row of a batch: the cursor covers it, and its community's group is offered it. */
    method Offer(row: Row)
      requires Valid()
      modifies this`cursor, Connected()
      ensures cursor == Some(if old(cursor).Some? then Max(old(cursor).value, row.id) else row.id)
      ensures forall s :: s in Connected() ==>
                s.Mail() == if Admits(Heard(s.who), row) then Put(old(s.Mail()), EventOf(row)) else old(s.Mail())
    {
      cursor := Some(if cursor.Some? then Max(cursor.value, row.id) else row.id);
      if row.community in subscribers {
        FanOut(row);
      } else {
        forall s | s in Connected() ensures s.who.community != row.community {
          var c :| c in subscribers && s in subscribers[c];
        }
      }
    }

    /** The inner loop: one event to every subscriber of one group that accepts its row. */
    method FanOut(row: Row)
      requires Valid() && row.community in subscribers
      modifies Connected()
      ensures forall s :: s in Connected() ==>
                s.Mail() == if Admits(Heard(s.who), row) then Put(old(s.Mail()), EventOf(row)) else old(s.Mail())
    {
      var group := subscribers[row.community];
      var event := EventOf(row);
      var todo := group;
      assert forall s :: s in group ==> s in Connected();
      while todo != {}
        invariant todo <= group
        invariant forall s :: s in Connected() && (s in todo || s !in group) ==> s.Mail() == old(s.Mail())
        invariant forall s :: s in group - todo ==>
          s.Mail() == if Accepts(s.who, row) then Put(old(s.Mail()), event) else old(s.Mail())
        decreases todo
      {
        var s :| s in todo;
        if Accepts(s.who, row) {
          s.Push(event);
        }
        todo := todo - {s};
      }
      forall s | s in Connected()
        ensures s in group <==> s.who.community == row.community
      {
        var c :| c in subscribers && s in subscribers[c];
      }
    }
  }
}
