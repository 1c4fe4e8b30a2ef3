/** The operation tables of the mapper document, and the run that writes them again. */
module Mapper {
  import opened Wrappers
  import opened Text
  import opened ApiMap

  const COLUMNS: seq<string> := ["Operation", "Handler", "`operationId` (yaml anchor)", "Success schema", "API.md"]
  const HEADER := Row(COLUMNS)
  const RULE := "|" + "---|---|---|---|---" + "|"

  /** A method in lower case and a path. */
  type Key = (string, string)

  /** What the live application and its specification say of one operation. */
  datatype Fact = Fact(handler: string, line: nat, operationId: string, success: string)

  datatype World = World(tables: map<string, seq<Key>>, facts: map<Key, Fact>, headings: seq<Heading>) {
    ghost predicate Closed() {
      forall s, i :: s in tables && 0 <= i < |tables[s]| ==> tables[s][i] in facts
    }
  }

  datatype Note = LeftAsWritten(section: string) | Dropped(key: Key) | Added(key: Key)

  datatype Output = Output(lines: seq<string>, notes: seq<Note>)

  /** A row with fewer than five cells is an index out of range. */
  datatype Failure = IndexError

  // ---- cells and rows ----

  function Row(cells: seq<string>): string {
    "| " + Join(cells, " | ") + " |"
  }

  function StripAll(parts: seq<string>): (r: seq<string>)
    ensures |r| == |parts|
    ensures forall i :: 0 <= i < |r| ==> r[i] == Strip(parts[i])
  {
    if parts == [] then [] else [Strip(parts[0])] + StripAll(parts[1..])
  }

  function Cells(row: string): (cells: seq<string>)
    ensures |cells| > 0
  {
    StripAll(Split(Trim(Strip(row), IsBar), '|'))
  }

  function Unbold(s: string): string {
    if "**" <= s then Unbold(s[2..]) else if s == [] then [] else [s[0]] + Unbold(s[1..])
  }

  /** A derived cell, in bold if somebody made it so. */
  function KeepBold(derived: string, existing: Option<string>): string {
    if existing.Some? && existing.value != "" && Strip(Unbold(existing.value)) == derived
    then Strip(existing.value)
    else derived
  }

  predicate IsWord(c: char) {
    'a' <= c <= 'z' || 'A' <= c <= 'Z' || '0' <= c <= '9' || c == '_'
  }

  function LowerChar(c: char): char {
    if 'A' <= c <= 'Z' then (c as int + 32) as char else c
  }

  function Upper(s: string): string { seq(|s|, i requires 0 <= i < |s| => UpperChar(s[i])) }

  function Lower(s: string): string { seq(|s|, i requires 0 <= i < |s| => LowerChar(s[i])) }

  /** The last backtick with something before it. */
  function LastTick(run: string): (i: nat)
    ensures i < |run| || i == 0
    ensures i > 0 ==> run[i] == '`'
  {
    if |run| < 2 then 0 else if run[|run| - 1] == '`' then |run| - 1 else LastTick(run[..|run| - 1])
  }

  /** The operation a first cell quotes, if it quotes one. */
  function KeyOf(cell: string): Option<Key> {
    if cell == "" || cell[0] != '`' then None
    else
      var rest := TrimLeft(cell[1..], IsWord);
      var word := cell[1..|cell| - |rest|];
      if word == "" || rest == "" || rest[0] != ' ' then None
      else
        var run := FirstWord(rest[1..]);
        var tick := LastTick(run);
        if tick == 0 then None else Some((Lower(word), run[..tick]))
  }

  // ---- one table ----

  type Rows = map<Key, seq<string>>

  /** One row as it is read: the operation it quotes, if any, and its cells. */
  datatype Entry = Entry(key: Option<Key>, cells: seq<string>)

  function ReadRow(row: string): Entry {
    var cells := Cells(row);
    Entry(KeyOf(cells[0]), cells)
  }

  function Mapped(f: string -> Entry, rows: seq<string>): (r: seq<Entry>)
    ensures |r| == |rows|
    ensures forall i :: 0 <= i < |r| ==> r[i] == f(rows[i])
  {
    if rows == [] then [] else [f(rows[0])] + Mapped(f, rows[1..])
  }

  function ReadAll(rows: seq<string>): (r: seq<Entry>)
    ensures |r| == |rows|
  {
    Mapped(ReadRow, rows)
  }

  /** The cells of every row that quotes an operation; of two such rows the later one is kept. */
  function Collect(entries: seq<Entry>): Rows {
    if entries == [] then map[]
    else
      var last := entries[|entries| - 1];
      var before := Collect(entries[..|entries| - 1]);
      if last.key.Some? then before[last.key.value := last.cells] else before
  }

  function KeysRead(entries: seq<Entry>): seq<Key> {
    if entries == [] then []
    else
      var last := entries[|entries| - 1];
      KeysRead(entries[..|entries| - 1]) + if last.key.Some? then [last.key.value] else []
  }

  function OldRows(rows: seq<string>): Rows {
    Collect(ReadAll(rows))
  }

  function OldOrder(rows: seq<string>): seq<Key> {
    KeysRead(ReadAll(rows))
  }

  /** `_previous`: the operation's own row, or one under the camelCase spelling of its path. */
  function Candidate(had: Rows, key: Key): (c: Option<Key>)
    ensures c.Some? ==> c.value in had
  {
    if key in had then Some(key)
    else if (key.0, Camel(key.1)) in had then Some((key.0, Camel(key.1)))
    else None
  }

  function Previous(had: Rows, key: Key): Option<seq<string>> {
    var c := Candidate(had, key);
    if c.Some? then Some(had[c.value]) else None
  }

  function OperationCell(key: Key): string {
    "`" + Upper(key.0) + " " + key.1 + "`"
  }

  function HandlerCell(fact: Fact): string {
    "`" + fact.handler + "` :" + Decimal(fact.line)
  }

  function AnchorCell(fact: Fact): string {
    "`" + fact.operationId + "`"
  }

  function CellAt(was: Option<seq<string>>, i: nat): Option<string>
    requires was.Some? ==> i < |was.value|
  {
    if was.Some? then Some(was.value[i]) else None
  }

  function RowFor(key: Key, fact: Fact, was: Option<seq<string>>, headings: seq<Heading>): Result<string, Failure> {
    if was.Some? && |was.value| < 5 then Err(IndexError)
    else Ok(Row([OperationCell(key), HandlerCell(fact), AnchorCell(fact),
                 KeepBold(fact.success, CellAt(was, 3)), ApiCell(CellAt(was, 4), key.1, headings)]))
  }

  function RowOf(key: Key, had: Rows, w: World): Result<string, Failure>
    requires key in w.facts
  {
    RowFor(key, w.facts[key], Previous(had, key), w.headings)
  }

  function WithRow(before: Result<seq<string>, Failure>, row: Result<string, Failure>): Result<seq<string>, Failure> {
    if before.Err? then before
    else if row.Err? then Err(row.error)
    else Ok(before.value + [row.value])
  }

  function TableRows(keys: seq<Key>, had: Rows, w: World): (r: Result<seq<string>, Failure>)
    requires forall i :: 0 <= i < |keys| ==> keys[i] in w.facts
  {
    if keys == [] then Ok([])
    else
      WithRow(TableRows(keys[..|keys| - 1], had, w), RowOf(keys[|keys| - 1], had, w))
  }

  /** The old rows some operation took over. */
  function Matched(keys: seq<Key>, had: Rows): set<Key> {
    set i | 0 <= i < |keys| && Candidate(had, keys[i]).Some? :: Candidate(had, keys[i]).value
  }

  function DroppedNotes(order: seq<Key>, matched: set<Key>): seq<Note> {
    if order == [] then []
    else
      var last := order[|order| - 1];
      DroppedNotes(order[..|order| - 1], matched) + if last in matched then [] else [Dropped(last)]
  }

  function AddedNotes(keys: seq<Key>, had: Rows): seq<Note> {
    if keys == [] then []
    else
      var last := keys[|keys| - 1];
      AddedNotes(keys[..|keys| - 1], had) + if Candidate(had, last).Some? then [] else [Added(last)]
  }

  /** A table from the rows it had, by operation and in order. */
  function TableOf(keys: seq<Key>, had: Rows, order: seq<Key>, w: World): Result<Output, Failure>
    requires forall i :: 0 <= i < |keys| ==> keys[i] in w.facts
  {
    var rewritten := TableRows(keys, had, w);
    if rewritten.Err? then Err(rewritten.error)
    else Ok(Output([HEADER, RULE] + rewritten.value, DroppedNotes(order, Matched(keys, had)) + AddedNotes(keys, had)))
  }

  function Table(keys: seq<Key>, rows: seq<string>, w: World): Result<Output, Failure>
    requires forall i :: 0 <= i < |keys| ==> keys[i] in w.facts
  {
    TableOf(keys, OldRows(rows), OldOrder(rows), w)
  }

  // ---- the document ----

  /** A router's heading: three hashes and its quoted file name. */
  function SectionOf(line: string): Option<string> {
    if "### `backend/" <= line then
      var rest := line[5..];
      var name := Split(rest, '`')[0];
      if |name| > |"backend/"| && |name| < |rest| && Strip(rest[|name| + 1..]) == "" then Some(name) else None
    else None
  }

  predicate IsBarred(line: string) {
    var l := TrimLeft(line, IsSpace);
    l != "" && l[0] == '|'
  }

  predicate IsRule(line: string) { Strip(line) == RULE }

  predicate IsHeader(line: string) { Strip(line) == HEADER }

  /** How many lines at the front are of a kind. */
  function Span(lines: seq<string>, kind: string -> bool): (n: nat)
    ensures n <= |lines|
    ensures forall i :: 0 <= i < n ==> kind(lines[i])
    ensures n < |lines| ==> !kind(lines[n])
  {
    if lines != [] && kind(lines[0]) then 1 + Span(lines[1..], kind) else 0
  }

  /** Where a table's rows begin: after its header, and its rule if it has one. */
  function RowsFrom(lines: seq<string>): (n: nat)
    requires lines != []
    ensures 1 <= n <= |lines|
  {
    if |lines| > 1 && IsRule(lines[1]) then 2 else 1
  }

  /** How many lines the table at the head of `lines` takes. */
  function TableSpan(lines: seq<string>): (n: nat)
    requires lines != []
    ensures RowsFrom(lines) <= n <= |lines|
  {
    var from := RowsFrom(lines);
    from + Span(lines[from..], IsBarred)
  }

  function SectionAfter(line: string, section: string): string {
    var s := SectionOf(line);
    if s.Some? then s.value else section
  }

  /** The operations of a section's table; the empty name is no section. */
  function KeysOf(section: string, w: World): seq<Key> {
    if section in w.tables then w.tables[section] else []
  }

  function Then(first: Output, rest: Result<Output, Failure>): Result<Output, Failure> {
    if rest.Err? then rest else Ok(Output(first.lines + rest.value.lines, first.notes + rest.value.notes))
  }

  function RewriteFrom(lines: seq<string>, section: string, w: World): Result<Output, Failure>
    requires w.Closed()
    decreases |lines|
  {
    if lines == [] then Ok(Output([], []))
    else
      var here := SectionAfter(lines[0], section);
      if !IsHeader(lines[0]) then Then(Output([lines[0]], []), RewriteFrom(lines[1..], here, w))
      else
        var n := TableSpan(lines);
        var keys := KeysOf(here, w);
        if keys == [] then Then(Output(lines[..n], [LeftAsWritten(here)]), RewriteFrom(lines[n..], here, w))
        else
          var table := Table(keys, lines[RowsFrom(lines)..n], w);
          if table.Err? then table else Then(table.value, RewriteFrom(lines[n..], "", w))
  }

  /** `rewrite` on a whole text. */
  function Rewrite(text: string, w: World): Result<string, Failure>
    requires w.Closed()
  {
    var r := RewriteFrom(SplitLines(text), "", w);
    if r.Err? then Err(r.error)
    else Ok(Join(r.value.lines, "\n") + if EndsWith(text, "\n") then "\n" else "")
  }
}
