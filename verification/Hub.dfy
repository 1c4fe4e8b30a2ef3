/**
  The outbox hub as a step system: writers and the prune job on the table, one
  poller with one cursor, and any number of connections, interleaved at the
  source's await points.
 */
module Hub {
  import opened Wrappers
  import opened Audience
  import opened Outbox
  import opened Events

  /** Where the poller is: asleep, holding a high-water mark, or holding a batch. */
  datatype Poller =
    | Idle
    | Seeding(mark: nat)
    | Fetched(rows: seq<Row>, from: nat)

  /** Where one connection's generator is suspended. */
  datatype Place =
    | Probing
    | Reading
    | Replaying(backlog: seq<Frame>)
    | Waiting
    | Holding(event: Event)
    | Yielded(event: Event)

  /** An event that found the queue full when `at` frames had been yielded. */
  datatype Loss = Loss(event: Event, at: nat)

  /** The low-water mark probe: what it answered, and how much was pruned then. */
  datatype Probe = Probe(ok: bool, oldest: nat, pruned: nat, logged: nat)

  /** The backfill read: what survived `accepts`, and the table and poller as it found them. */
  datatype Read = Read(ok: bool, rows: seq<Row>, pruned: nat, logged: nat, seeded: bool)

  /**
    One connection. `joined`, `floor` and `missed` record how many rows had been
    dispatched, passed and overtaken when it attached; with `losses`, `probe` and
    `read` they are history the code does not keep.
   */
  datatype Sub = Sub(
    who: Identity,
    last: int,
    mail: Mail,
    frames: seq<Frame>,
    place: Place,
    joined: nat,
    floor: nat,
    missed: nat,
    losses: seq<Loss>,
    probe: Option<Probe>,
    read: Option<Read>)

  /**
    The whole system. `pos` counts the log rows at or below the cursor, `start`
    those at or below the seed; `dispatched` and `skipped` are the rows the poller
    handed out and the rows the prune job took before it could.
   */
  datatype Hub = Hub(
    box: Outbox,
    batch: nat,
    cursor: Option<nat>,
    poller: Poller,
    subs: map<nat, Sub>,
    start: nat,
    pos: nat,
    dispatched: seq<Row>,
    skipped: seq<Row>)

  datatype Step =
    | Commit(row: Row)
    | Prune(upTo: nat)
    | SeedRead
    | SeedStore
    | PollFails
    | FetchRead
    | Dispatch
    | Attach(key: nat, who: Identity, last: int)
    | Detach(key: nat)
    | Consume(key: nat, move: Move)

  /** What one connection's generator does next. */
  datatype Move =
    | ProbeMark(ok: bool)
    | ReadBackfill(ok: bool)
    | ReplayOne
    | Beat
    | Get
    | Yield
    | Settle

  // ---- one connection ----

  function NewSub(h: Hub, who: Identity, last: int): Sub {
    Sub(who, last, Mail([], false), [], if last <= 0 then Waiting else Probing,
        |h.dispatched|, h.pos, |h.skipped|, [], None, None)
  }

  predicate CanMove(sub: Sub, move: Move) {
    match move
    case ProbeMark(_) => sub.place.Probing?
    case ReadBackfill(_) => sub.place.Reading?
    case ReplayOne => sub.place.Replaying?
    case Beat => sub.place.Waiting? && sub.mail.queue == []
    case Get => sub.place.Waiting? && sub.mail.queue != []
    case Yield => sub.place.Holding?
    case Settle => sub.place.Yielded?
  }

  /** The resync `_backfill` puts first when the oldest retained row is past `last + 1`. */
  function Head(sub: Sub): seq<Frame> {
    if sub.probe.Some? && sub.last > 0 && sub.probe.value.oldest > sub.last + 1
    then [Resync(ResyncEvent(sub.last, sub.who.role))]
    else []
  }

  function ReplayFrames(rows: seq<Row>): seq<Frame> {
    seq(|rows|, i requires 0 <= i < |rows| => Replayed(EventOf(rows[i])))
  }

  /** Everything `_backfill` returns, once it has returned. */
  function Backlog(sub: Sub): seq<Frame> {
    Head(sub) + if sub.read.Some? then ReplayFrames(sub.read.value.rows) else []
  }

  function ProbeOf(box: Outbox, ok: bool): Probe
    requires box.pruned <= |box.log|
  {
    Probe(ok, if ok then OldestEventId(box) else 0, box.pruned, |box.log|)
  }

  function ReadOf(h: Hub, sub: Sub, ok: bool): Read
    requires h.box.pruned <= |h.box.log|
  {
    Read(
      ok,
      if ok then Select(Heard(sub.who), ReadEvents(h.box, sub.who, sub.last)) else [],
      h.box.pruned,
      |h.box.log|,
      h.cursor.Some? || h.poller.Seeding?)
  }

  function Moved(h: Hub, sub: Sub, move: Move): Sub
    requires h.box.pruned <= |h.box.log|
    requires CanMove(sub, move)
  {
    match move
    case ProbeMark(ok) => sub.(place := Reading, probe := Some(ProbeOf(h.box, ok)))
    case ReadBackfill(ok) =>
      var done := sub.(read := Some(ReadOf(h, sub, ok)));
      done.(place := Replaying(Backlog(done)))
    case ReplayOne =>
      if sub.place.backlog == [] then
        sub.(place := Waiting)
      else
        sub.(frames := sub.frames + [sub.place.backlog[0]], place := Replaying(sub.place.backlog[1..]))
    case Beat => sub.(frames := sub.frames + [Keepalive])
    case Get =>
      sub.(mail := sub.mail.(queue := sub.mail.queue[1..]), place := Holding(sub.mail.queue[0]))
    case Yield =>
      sub.(frames := sub.frames + [Live(sub.place.event)], place := Yielded(sub.place.event))
    case Settle =>
      if sub.mail.dropped && sub.mail.queue == [] then
        sub.(mail := sub.mail.(dropped := false),
             frames := sub.frames + [Resync(ResyncEvent(sub.place.event.id, sub.who.role))],
             place := Waiting)
      else
        sub.(place := Waiting)
  }

  function LossesOf(events: seq<Event>, at: nat): (r: seq<Loss>)
    ensures |r| == |events|
    ensures forall i :: 0 <= i < |r| ==> r[i] == Loss(events[i], at)
  {
    seq(|events|, i requires 0 <= i < |events| => Loss(events[i], at))
  }

  /** One dispatched batch, as one connection sees it. */
  function Receive(sub: Sub, rows: seq<Row>): Sub {
    var events := EventsOf(Select(Heard(sub.who), rows));
    sub.(mail := PutAll(sub.mail, events),
         losses := sub.losses + LossesOf(events[Fitting(sub.mail, events)..], |sub.frames|))
  }

  // ---- the system ----

  predicate Enabled(h: Hub, step: Step) {
    match step
    case Commit(row) => row.id > 0 && (h.box.log == [] || h.box.log[|h.box.log| - 1].id < row.id)
    case Prune(upTo) => h.box.pruned <= upTo <= |h.box.log|
    case SeedRead => h.poller.Idle? && h.subs != map[] && h.cursor.None?
    case SeedStore => h.poller.Seeding?
    case PollFails => h.poller.Idle?
    case FetchRead => h.poller.Idle? && h.subs != map[] && h.cursor.Some?
    case Dispatch => h.poller.Fetched?
    case Attach(key, _, _) => key !in h.subs
    case Detach(key) => key in h.subs
    case Consume(key, move) => key in h.subs && CanMove(h.subs[key], move)
  }

  function Fetch(h: Hub): Poller
    requires h.box.pruned <= |h.box.log| && h.cursor.Some?
  {
    var rows := ReadEventsSince(h.box, h.cursor.value, h.batch);
    if rows == [] then Idle else Fetched(rows, Max(h.pos, h.box.pruned))
  }

  function Dispatched(h: Hub): Hub
    requires h.poller.Fetched? && h.poller.rows != [] && h.pos <= h.poller.from <= |h.box.log|
  {
    var rows := h.poller.rows;
    var top := rows[|rows| - 1].id;
    h.(poller := Idle,
       cursor := Some(if h.cursor.Some? then Max(h.cursor.value, top) else top),
       subs := map key | key in h.subs :: Receive(h.subs[key], rows),
       pos := h.poller.from + |rows|,
       dispatched := h.dispatched + rows,
       skipped := h.skipped + h.box.log[h.pos..h.poller.from])
  }

  /** A mark the log has already reached, so that a later commit lies past it. */
  ghost predicate Reached(log: seq<Row>, mark: nat) {
    mark == 0 || (log != [] && mark <= log[|log| - 1].id)
  }

  /** What `Next` needs to be defined; part of the invariant below. */
  ghost predicate Basic(h: Hub) {
    && ValidOutbox(h.box)
    && h.batch >= 1
    && h.start <= h.pos <= |h.box.log|
    && (h.cursor.None? ==> h.pos == h.start == 0 && h.dispatched == [] && h.skipped == [])
    && (h.cursor.Some? ==> h.pos == CountUpTo(h.box.log, h.cursor.value))
    && (h.cursor.Some? ==> Reached(h.box.log, h.cursor.value))
    && (h.poller.Seeding? ==> h.cursor.None? && Reached(h.box.log, h.poller.mark))
    && (h.poller.Fetched? ==>
          && h.cursor.Some?
          && h.pos <= h.poller.from
          && h.poller.rows != []
          && h.poller.from + |h.poller.rows| <= |h.box.log|
          && h.poller.rows == h.box.log[h.poller.from..h.poller.from + |h.poller.rows|]
          && (h.pos < h.poller.from ==> h.poller.from <= h.box.pruned))
  }

  ghost function Next(h: Hub, step: Step): Hub
    requires Basic(h) && Enabled(h, step)
  {
    match step
    case Commit(row) => h.(box := h.box.(log := h.box.log + [row]))
    case Prune(upTo) => h.(box := h.box.(pruned := upTo))
    case SeedRead => h.(poller := Seeding(LatestEventId(h.box)))
    case SeedStore =>
      var seen := CountUpTo(h.box.log, h.poller.mark);
      h.(poller := Idle, cursor := Some(h.poller.mark), start := seen, pos := seen)
    case PollFails => h
    case FetchRead => h.(poller := Fetch(h))
    case Dispatch => Dispatched(h)
    case Attach(key, who, last) => h.(subs := h.subs[key := NewSub(h, who, last)])
    case Detach(key) => h.(subs := h.subs - {key})
    case Consume(key, move) => h.(subs := h.subs[key := Moved(h, h.subs[key], move)])
  }

  /** A fresh process over whatever the table already holds. */
  function Init(box: Outbox, batch: nat): Hub {
    Hub(box, batch, None, Idle, map[], 0, 0, [], [])
  }

  lemma CountAfterCommit(log: seq<Row>, row: Row, mark: nat)
    requires Ascending(log) && Ascending(log + [row]) && Reached(log, mark) && row.id > 0
    ensures Reached(log + [row], mark)
    ensures CountUpTo(log + [row], mark) == CountUpTo(log, mark)
  {
    var longer := log + [row];
    assert longer[..|longer| - 1] == log;
    assert log != [] ==> longer[|log| - 1].id < longer[|log|].id;
  }

  lemma CountAt(log: seq<Row>, i: nat)
    requires Ascending(log) && i < |log|
    ensures CountUpTo(log, log[i].id) == i + 1
  {
    assert i + 1 < |log| ==> log[i].id < log[i + 1].id;
    assert i < CountUpTo(log, log[i].id);
  }

  lemma FetchKeepsBasic(h: Hub)
    requires Basic(h) && Enabled(h, FetchRead)
    ensures Basic(Next(h, FetchRead))
  {
    hide ReadEventsSince, Ascending, ValidOutbox, Reached;
    ValidIsAscending(h.box);
    ReadEventsSinceIsASlice(h.box, h.cursor.value, h.batch);
  }

  lemma DispatchKeepsBasic(h: Hub)
    requires Basic(h) && Enabled(h, Dispatch)
    ensures Basic(Next(h, Dispatch))
  {
    var rows := h.poller.rows;
    var to := h.poller.from + |rows|;
    assert rows[|rows| - 1] == h.box.log[to - 1];
    assert h.box.log[to - 1].id > h.cursor.value;
    CountAt(h.box.log, to - 1);
  }

  lemma CommitKeepsValid(box: Outbox, row: Row)
    requires ValidOutbox(box) && row.id > 0
    requires box.log == [] || box.log[|box.log| - 1].id < row.id
    ensures ValidOutbox(box.(log := box.log + [row]))
  {
  }

  lemma CommitKeepsCursor(h: Hub, row: Row)
    requires Basic(h) && Enabled(h, Commit(row)) && h.cursor.Some? && Ascending(h.box.log + [row])
    ensures Reached(h.box.log + [row], h.cursor.value)
    ensures h.pos == CountUpTo(h.box.log + [row], h.cursor.value)
  {
    hide CountUpTo;
    CountAfterCommit(h.box.log, row, h.cursor.value);
  }

  lemma CommitKeepsMark(h: Hub, row: Row)
    requires Basic(h) && Enabled(h, Commit(row)) && h.poller.Seeding? && Ascending(h.box.log + [row])
    ensures Reached(h.box.log + [row], h.poller.mark)
  {
    hide CountUpTo;
    CountAfterCommit(h.box.log, row, h.poller.mark);
  }

  lemma CommitKeepsBatch(h: Hub, row: Row)
    requires Basic(h) && h.poller.Fetched?
    ensures h.poller.rows == (h.box.log + [row])[h.poller.from..h.poller.from + |h.poller.rows|]
  {
    hide CountUpTo, Ascending;
  }

  lemma CommitKeepsBasic(h: Hub, row: Row)
    requires Basic(h) && Enabled(h, Commit(row))
    ensures Basic(Next(h, Commit(row)))
  {
    hide CountUpTo, Ascending, ValidOutbox, Reached;
    CommitKeepsValid(h.box, row);
    assert Ascending(h.box.log + [row]) by { ValidIsAscending(h.box.(log := h.box.log + [row])); }
    if h.cursor.Some? {
      CommitKeepsCursor(h, row);
    }
    if h.poller.Seeding? {
      CommitKeepsMark(h, row);
    }
    if h.poller.Fetched? {
      CommitKeepsBatch(h, row);
    }
  }

  lemma ValidIsAscending(box: Outbox)
    requires ValidOutbox(box)
    ensures Ascending(box.log) && box.pruned <= |box.log|
  {
  }

  /** Every step leaves the system in a state where the next step is defined. */
  lemma StepKeepsBasic(h: Hub, step: Step)
    requires Basic(h) && Enabled(h, step)
    ensures Basic(Next(h, step))
  {
    hide Basic, Next;
    match step
    case Commit(row) => CommitKeepsBasic(h, row);
    case FetchRead => FetchKeepsBasic(h);
    case Dispatch => DispatchKeepsBasic(h);
    case _ => OtherStepKeepsBasic(h, step);
  }

  lemma OtherStepKeepsBasic(h: Hub, step: Step)
    requires Basic(h) && Enabled(h, step) && !step.Commit? && !step.FetchRead? && !step.Dispatch?
    ensures Basic(Next(h, step))
  {
    hide Moved, CanMove, NewSub, CountUpTo, Ascending;
  }
}
