/** What stands in each column of a table a run writes, from the routes, the specification and the old rows. */
module MapperCells {
  import opened Wrappers
  import opened Text
  import opened ApiMap
  import opened ApiMapTheorems
  import opened Mapper
  import opened MapperRows
  import opened MapperTables
  import opened MapperTheorems
  import opened MapperKeeps
  import opened MapperBuild
  import opened MapperRun

  // ---- the row an operation takes over ----

  predicate Quotes(row: string, key: Key) {
    KeyOf(Cells(row)[0]) == Some(key)
  }

  /** Of the old rows that quote an operation the last counts. */
  ghost predicate LastQuoting(rows: seq<string>, key: Key, i: nat) {
    i < |rows| && Quotes(rows[i], key) && forall j :: i < j < |rows| ==> !Quotes(rows[j], key)
  }

  ghost predicate Unquoted(rows: seq<string>, key: Key) {
    forall j :: 0 <= j < |rows| ==> !Quotes(rows[j], key)
  }

  /** An operation takes over the row that quotes it, or else one that quotes its path in camelCase. */
  ghost predicate TakesOver(rows: seq<string>, key: Key, i: nat) {
    LastQuoting(rows, key, i) || (Unquoted(rows, key) && LastQuoting(rows, (key.0, Camel(key.1)), i))
  }

  lemma LastSnoc(rows: seq<string>, row: string, key: Key)
    ensures Unquoted(rows + [row], key) <==> Unquoted(rows, key) && !Quotes(row, key)
    ensures Quotes(row, key) ==> forall i: nat :: LastQuoting(rows + [row], key, i) ==> i == |rows|
    ensures !Quotes(row, key) ==> forall i: nat :: LastQuoting(rows + [row], key, i) ==> LastQuoting(rows, key, i)
  {
    hide Quotes;
    var more := rows + [row];
    assert forall j :: 0 <= j < |rows| ==> more[j] == rows[j];
    assert more[|rows|] == row;
  }

  lemma {:induction false} CollectedExactly(rows: seq<string>, key: Key)
    ensures key in OldRows(rows) <==> !Unquoted(rows, key)
    ensures forall i: nat :: LastQuoting(rows, key, i) ==> key in OldRows(rows) && OldRows(rows)[key] == Cells(rows[i])
  {
    if rows != [] {
      var n := |rows| - 1;
      var most, row := rows[..n], rows[n];
      assert rows == most + [row];
      CollectedExactly(most, key);
      CollectedNext(most, row, key);
    } else {
      assert ReadAll(rows) == [];
    }
  }

  lemma CollectedNext(rows: seq<string>, row: string, key: Key)
    requires key in OldRows(rows) <==> !Unquoted(rows, key)
    requires forall i: nat :: LastQuoting(rows, key, i) ==> key in OldRows(rows) && OldRows(rows)[key] == Cells(rows[i])
    ensures var more := rows + [row];
            && (key in OldRows(more) <==> !Unquoted(more, key))
            && forall i: nat :: LastQuoting(more, key, i) ==> key in OldRows(more) && OldRows(more)[key] == Cells(more[i])
  {
    ReadSnoc(rows, row, ReadRow(row));
    LastSnoc(rows, row, key);
    assert Quotes(row, key) <==> ReadRow(row).key == Some(key);
    assert ReadRow(row).cells == Cells(row);
    hide Quotes, Cells, KeyOf, OldRows, ReadRow, Unquoted, LastQuoting;
    var more := rows + [row];
    forall i: nat | LastQuoting(more, key, i) ensures key in OldRows(more) && OldRows(more)[key] == Cells(more[i]) {
      IndexOf(more, key, i);
      if !Quotes(row, key) {
        IndexOf(rows, key, i);
        assert more[i] == rows[i];
      }
    }
  }

  lemma IndexOf(rows: seq<string>, key: Key, i: nat)
    requires LastQuoting(rows, key, i)
    ensures i < |rows|
  {
  }

  lemma {:induction false} SomeLast(rows: seq<string>, key: Key) returns (i: nat)
    requires !Unquoted(rows, key)
    ensures LastQuoting(rows, key, i)
  {
    hide Quotes;
    var n := |rows| - 1;
    if Quotes(rows[n], key) {
      i := n;
    } else {
      i := SomeLast(rows[..n], key);
    }
  }

  lemma PreviousExactly(rows: seq<string>, key: Key)
    ensures forall i: nat :: TakesOver(rows, key, i) ==> Previous(OldRows(rows), key) == Some(Cells(rows[i]))
    ensures (forall i: nat :: !TakesOver(rows, key, i)) ==> Previous(OldRows(rows), key).None?
  {
    hide Quotes, OldRows, LastQuoting, Unquoted, Cells;
    var camel := (key.0, Camel(key.1));
    CollectedExactly(rows, key);
    CollectedExactly(rows, camel);
    if !Unquoted(rows, key) {
      var i := SomeLast(rows, key);
      assert TakesOver(rows, key, i);
    } else if !Unquoted(rows, camel) {
      var i := SomeLast(rows, camel);
      assert TakesOver(rows, key, i);
    }
  }

  // ---- what is fixed: the head of a table, the name of a section, the order of rows ----

  lemma PlainTitle(s: string)
    requires s != "" && !IsSpace(s[0]) && !IsSpace(s[|s| - 1]) && '|' !in s
    ensures Strip(s) == s && ReadBack(s) == s
  {
    TrimIsTrimmed(s, IsSpace);
    SplitWhole(s, '|');
  }

  lemma TitlesArePlain()
    ensures forall i :: 0 <= i < 5 ==>
              COLUMNS[i] != "" && !IsSpace(COLUMNS[i][0]) && !IsSpace(COLUMNS[i][|COLUMNS[i]| - 1]) && '|' !in COLUMNS[i]
  {
    assert '|' !in "Operation" && '|' !in "Handler" && '|' !in "API.md";
    assert '|' !in "Success schema";
    assert '|' !in "`operationId` (yaml anchor)";
  }

  /** The head of a table names its five columns. */
  lemma TableHead(i: nat)
    requires i < 5
    ensures i < |Cells(HEADER)|
    ensures Cells(HEADER)[i] == ["Operation", "Handler", "`operationId` (yaml anchor)", "Success schema", "API.md"][i]
  {
    TitlesArePlain();
    PlainTitle(COLUMNS[i]);
    TitleRead(COLUMNS, i);
  }

  lemma TitleRead(titles: seq<string>, i: nat)
    requires i < |titles| && (forall j :: 0 <= j < |titles| - 1 ==> '|' !in titles[j])
    requires Strip(titles[i]) == titles[i] && ReadBack(titles[i]) == titles[i]
    ensures i < |Cells(Row(titles))| && Cells(Row(titles))[i] == titles[i]
  {
    hide Cells, Row, Strip, ReadBack;
    CellsOfRow(titles, i);
  }

  lemma RuleIs()
    ensures RULE == "|---|---|---|---|---|"
  {
  }

  /** A section is opened by three hashes and the quoted name of a file below `backend/`, white space behind it not counting. */
  lemma SectionExactly(line: string, name: string)
    ensures SectionOf(line) == Some(name) <==>
              && "backend/" < name && '`' !in name
              && exists pad :: line == "### `" + name + "`" + pad && All(pad, IsSpace)
  {
    if "backend/" < name && '`' !in name && exists pad :: line == "### `" + name + "`" + pad && All(pad, IsSpace) {
      var pad :| line == "### `" + name + "`" + pad && All(pad, IsSpace);
      SectionRead(line, name, pad);
    }
    if SectionOf(line) == Some(name) {
      SectionSaid(line, name);
    }
  }

  lemma SectionRead(line: string, name: string, pad: string)
    requires "backend/" < name && '`' !in name && line == "### `" + name + "`" + pad && All(pad, IsSpace)
    ensures SectionOf(line) == Some(name)
  {
    assert line[5..] == name + ['`'] + pad;
    assert line == "### `" + (name + "`" + pad);
    assert "### `backend/" <= line by {
      assert "### `backend/" == "### `" + "backend/";
      assert name[..8] == "backend/";
    }
    SplitFirst(name, pad, '`');
    assert line[5..][|name| + 1..] == pad;
    TrimPast("", "", pad, IsSpace);
    assert "" + "" + pad == pad;
  }

  lemma SectionSaid(line: string, name: string)
    requires SectionOf(line) == Some(name)
    ensures "backend/" < name && '`' !in name
    ensures exists pad :: line == "### `" + name + "`" + pad && All(pad, IsSpace)
  {
    hide IsSpace, Strip, Split;
    var rest := line[5..];
    SplitFacts(rest, '`', 0);
    FirstPiece(rest, '`');
    var pad := rest[|name| + 1..];
    BlankIsSpace(pad);
    assert rest == name + "`" + pad;
    SectionParts(line, name, pad);
  }

  lemma BlankIsSpace(pad: string)
    requires Strip(pad) == ""
    ensures All(pad, IsSpace)
  {
    hide IsSpace;
    var i, j := TrimIsSlice(pad, IsSpace);
    assert pad == pad[..i] + pad[j..];
    AllConcat(pad[..i], pad[j..], IsSpace);
  }

  lemma SectionParts(line: string, name: string, pad: string)
    requires "### `backend/" <= line && line[5..] == name + "`" + pad && |name| > 8
    ensures line == "### `" + name + "`" + pad
    ensures "backend/" < name
  {
    assert line[..5] == "### `" && line == line[..5] + line[5..];
    assert line[5..13] == "backend/";
    assert name[..8] == line[5..][..8] == "backend/";
  }

  lemma {:induction false} FirstPiece(s: string, sep: char)
    ensures var first := Split(s, sep)[0];
            first <= s && (|first| < |s| ==> s[|first|] == sep)
  {
    if s != [] && s[0] != sep {
      FirstPiece(s[1..], sep);
    }
  }

  /** Rows go by path, character by character, and within a path from reading to deleting. */
  lemma KeyOrderExactly(a: Key, b: Key)
    requires a.0 in METHODS && b.0 in METHODS
    ensures KeyLess(a, b) <==>
              || (exists k :: 0 <= k <= |a.1| && k < |b.1| && a.1[..k] == b.1[..k] && (k == |a.1| || a.1[k] < b.1[k]))
              || (a.1 == b.1 && Precedes(a.0, b.0, ["get", "post", "put", "patch", "delete"]))
  {
    StringLessExactly(a.1, b.1);
    var order := ["get", "post", "put", "patch", "delete"];
    assert order[MethodOrder(a.0)] == a.0 && order[MethodOrder(b.0)] == b.0;
  }

  ghost predicate Precedes(a: string, b: string, order: seq<string>) {
    exists i, j :: 0 <= i < j < |order| && a == order[i] && b == order[j]
  }

  // ---- the cells of one row ----

  /** A method as a table spells it. */
  predicate Spelled(verb: string, word: string) {
    (verb, word) in {("get", "GET"), ("post", "POST"), ("put", "PUT"), ("patch", "PATCH"), ("delete", "DELETE")}
  }

  /** The row shows the route and its operation: who serves it, under what name, and what it answers. */
  ghost predicate Shows(row: string, route: Route, op: Operation) {
    var cells := Cells(row);
    && |cells| >= 5
    && (exists word :: Spelled(route.key.0, word) && cells[0] == "`" + word + " " + route.key.1 + "`")
    && cells[1] == "`" + route.handler + "` :" + Decimal(route.line)
    && cells[2] == "`" + op.operationId + "`"
    && (cells[3] == Strip(op.success) || Strip(Unbold(cells[3])) == op.success)
  }

  /** The verdict of an old row is kept if, but for its bold, it is the derived one; otherwise the derived one stands. */
  ghost predicate KeepsVerdict(row: string, op: Operation, had: seq<string>, key: Key) {
    && |Cells(row)| >= 5
    && (forall i: nat :: TakesOver(had, key, i) ==>
          var was := Cells(had[i]);
          |was| >= 5 && Cells(row)[3] == if was[3] != "" && Strip(Unbold(was[3])) == op.success then was[3] else Strip(op.success))
    && ((forall i: nat :: !TakesOver(had, key, i)) ==> Cells(row)[3] == Strip(op.success))
  }

  /** The reference cell is the old row's, looked up again, or a new one where there was no row. */
  ghost predicate KeepsReference(row: string, headings: seq<Heading>, had: seq<string>, key: Key) {
    && |Cells(row)| >= 5
    && (forall i: nat :: TakesOver(had, key, i) ==>
          && |Cells(had[i])| >= 5
          && Cells(row)[4] == ReadBack(ApiCell(Some(Cells(had[i])[4]), key.1, headings)))
    && ((forall i: nat :: !TakesOver(had, key, i)) ==> Cells(row)[4] == ReadBack(ApiCell(None, key.1, headings)))
  }

  /** A verdict in bold is the verdict. */
  lemma {:induction false} BoldIsDropped(verdict: string)
    requires '*' !in verdict
    ensures Unbold(verdict) == verdict && Unbold("**" + verdict + "**") == verdict
  {
    var bold := "**" + verdict + "**";
    assert bold[2..] == verdict + "**";
    UnboldBefore(verdict);
  }

  lemma {:induction false} UnboldBefore(s: string)
    requires '*' !in s
    ensures Unbold(s) == s && Unbold(s + "**") == s
  {
    if s != "" {
      assert s[0] in s;
      assert (s + "**")[1..] == s[1..] + "**";
      UnboldBefore(s[1..]);
    } else {
      assert "" + "**" == "**";
    }
  }

  lemma Ticked(a: string, b: string)
    ensures Strip("`" + a + "`") == "`" + a + "`"
    ensures b != "" && !IsSpace(b[|b| - 1]) ==> Strip("`" + a + "` :" + b) == "`" + a + "` :" + b
  {
    TrimIsTrimmed("`" + a + "`", IsSpace);
    TrimIsTrimmed("`" + a + "` :" + b, IsSpace);
  }

  lemma DecimalIsVisible(n: nat)
    ensures Decimal(n) != "" && !IsSpace(Decimal(n)[|Decimal(n)| - 1])
  {
  }

  lemma MethodIsSpelled(verb: string)
    requires verb in METHODS
    ensures Spelled(verb, Upper(verb))
  {
    var word := if verb == "get" then "GET" else if verb == "post" then "POST"
                else if verb == "put" then "PUT" else if verb == "patch" then "PATCH" else "DELETE";
    assert Upper(verb) == word;
  }

  lemma RowRead(key: Key, fact: Fact, was: Option<seq<string>>, headings: seq<Heading>)
    requires Proper(key) && Plain(fact) && CleanCells(was) && (was.Some? ==> |was.value| >= 5)
    ensures var read := Cells(RowFor(key, fact, was, headings).value);
            && |read| >= 5
            && read[0] == "`" + Upper(key.0) + " " + key.1 + "`"
            && read[1] == "`" + fact.handler + "` :" + Decimal(fact.line)
            && read[2] == "`" + fact.operationId + "`"
            && read[3] == Strip(KeepBold(fact.success, CellAt(was, 3)))
            && read[4] == ReadBack(ApiCell(CellAt(was, 4), key.1, headings))
  {
    hide Cells, Strip, ApiCell, KeepBold, Decimal, Upper, ReadBack, Row;
    var cells := RowCells(key, fact, was, headings);
    RowCellsAreClean(key, fact, was, headings);
    CellsOfRow(cells, 0);
    CellsOfRow(cells, 1);
    CellsOfRow(cells, 2);
    CellsOfRow(cells, 3);
    CellsOfRow(cells, 4);
    Ticked(Upper(key.0) + " " + key.1, "");
    assert "`" + (Upper(key.0) + " " + key.1) + "`" == OperationCell(key);
    DecimalIsVisible(fact.line);
    Ticked(fact.handler, Decimal(fact.line));
    Ticked(fact.operationId, "");
  }

  lemma VerdictIs(success: string, was: Option<string>)
    requires was.Some? ==> Strip(was.value) == was.value
    ensures Strip(KeepBold(success, was))
            == if was.Some? && was.value != "" && Strip(Unbold(was.value)) == success then was.value else Strip(success)
  {
    StripTwice(success);
  }

  /** A row written for a route shows it. */
  lemma RowShows(route: Route, op: Operation, fact: Fact, had: seq<string>, headings: seq<Heading>)
    requires Proper(route.key) && Plain(fact) && fact == Fact(route.handler, route.line, op.operationId, op.success)
    requires RowFor(route.key, fact, Previous(OldRows(had), route.key), headings).Ok?
    ensures var row := RowFor(route.key, fact, Previous(OldRows(had), route.key), headings).value;
            && Shows(row, route, op) && KeepsVerdict(row, op, had, route.key)
            && KeepsReference(row, headings, had, route.key)
  {
    var was := Previous(OldRows(had), route.key);
    PreviousClean(had, route.key);
    RowRead(route.key, fact, was, headings);
    MethodIsSpelled(route.key.0);
    VerdictIs(op.success, CellAt(was, 3));
    PreviousExactly(had, route.key);
  }

  // ---- the tables of a document ----

  lemma TableShows(live: seq<Route>, spec: Spec, headings: seq<Heading>, section: string, had: seq<string>, rows: seq<string>, r: nat)
    returns (i: nat)
    requires Registered(live) && PlainSpec(live, spec) && r < |rows|
    requires var w := BuiltWorld(live, spec, headings);
             TableRows(KeysOf(section, w), OldRows(had), w) == Ok(rows)
    ensures i < |live| && live[i].key in spec && "backend/" + live[i].file == section
    ensures r < |KeysOf(section, BuiltWorld(live, spec, headings))|
            && KeysOf(section, BuiltWorld(live, spec, headings))[r] == live[i].key
    ensures Shows(rows[r], live[i], spec[live[i].key]) && KeepsVerdict(rows[r], spec[live[i].key], had, live[i].key)
    ensures KeepsReference(rows[r], headings, had, live[i].key)
  {
    var w := BuiltWorld(live, spec, headings);
    var keys := KeysOf(section, w);
    TablesAreComplete(live, spec, headings, section);
    if keys == [] {
      assert false;
    }
    TableRowsAt(keys, OldRows(had), w, 0);
    TableRowsAt(keys, OldRows(had), w, r);
    assert keys[r] in keys;
    i :| 0 <= i < |live| && live[i].key == keys[r] && PACKAGE + live[i].file == section;
    FactsAreOf(live, spec, i);
    RowShows(live[i], spec[live[i].key], w.facts[keys[r]], had, headings);
  }

  ghost predicate ServedRoute(live: seq<Route>, spec: Spec, section: string, i: nat) {
    i < |live| && live[i].key in spec && "backend/" + live[i].file == section
  }

  /** The row shows some specified route of the section, over what the old rows had of it. */
  ghost predicate ShowsSome(live: seq<Route>, spec: Spec, headings: seq<Heading>, section: string, had: seq<string>, row: string) {
    exists i: nat ::
      && ServedRoute(live, spec, section, i)
      && Shows(row, live[i], spec[live[i].key])
      && KeepsVerdict(row, spec[live[i].key], had, live[i].key)
      && KeepsReference(row, headings, had, live[i].key)
  }

  ghost predicate IsShown(rows: seq<string>, route: Route, op: Operation) {
    exists r :: 0 <= r < |rows| && Shows(rows[r], route, op)
  }

  /** One row for every specified route of the section, and no other. */
  ghost predicate RowsOf(live: seq<Route>, spec: Spec, headings: seq<Heading>, section: string, had: seq<string>, rows: seq<string>) {
    && (forall r :: 0 <= r < |rows| ==> ShowsSome(live, spec, headings, section, had, rows[r]))
    && (forall i: nat :: ServedRoute(live, spec, section, i) ==> IsShown(rows, live[i], spec[live[i].key]))
  }

  lemma TableHasRowsOf(live: seq<Route>, spec: Spec, headings: seq<Heading>, section: string, had: seq<string>, rows: seq<string>)
    requires Registered(live) && PlainSpec(live, spec)
    requires var w := BuiltWorld(live, spec, headings);
             TableRows(KeysOf(section, w), OldRows(had), w) == Ok(rows)
    ensures RowsOf(live, spec, headings, section, had, rows)
  {
    hide ShowsSome, IsShown, Registered, PlainSpec, BuiltWorld, TableRows, KeysOf, OldRows;
    forall r | 0 <= r < |rows| ensures ShowsSome(live, spec, headings, section, had, rows[r]) {
      RowShowsSome(live, spec, headings, section, had, rows, r);
    }
    forall i: nat | ServedRoute(live, spec, section, i) ensures IsShown(rows, live[i], spec[live[i].key]) {
      RouteHasRow(live, spec, headings, section, had, rows, i);
    }
  }

  lemma RowShowsSome(live: seq<Route>, spec: Spec, headings: seq<Heading>, section: string, had: seq<string>, rows: seq<string>, r: nat)
    requires Registered(live) && PlainSpec(live, spec) && r < |rows|
    requires var w := BuiltWorld(live, spec, headings);
             TableRows(KeysOf(section, w), OldRows(had), w) == Ok(rows)
    ensures ShowsSome(live, spec, headings, section, had, rows[r])
  {
    hide Shows, KeepsVerdict, KeepsReference, Registered, PlainSpec, BuiltWorld, TableRows, KeysOf, OldRows;
    var i := TableShows(live, spec, headings, section, had, rows, r);
    assert ServedRoute(live, spec, section, i);
  }

  lemma RouteHasRow(live: seq<Route>, spec: Spec, headings: seq<Heading>, section: string, had: seq<string>, rows: seq<string>, i: nat)
    requires Registered(live) && PlainSpec(live, spec) && i < |live|
    requires live[i].key in spec && "backend/" + live[i].file == section
    requires var w := BuiltWorld(live, spec, headings);
             TableRows(KeysOf(section, w), OldRows(had), w) == Ok(rows)
    ensures IsShown(rows, live[i], spec[live[i].key])
  {
    hide Shows;
    var w := BuiltWorld(live, spec, headings);
    var keys := KeysOf(section, w);
    TablesAreComplete(live, spec, headings, section);
    assert IsServed(live, spec, section, live[i].key);
    var r :| 0 <= r < |keys| && keys[r] == live[i].key;
    TableRowsAt(keys, OldRows(had), w, r);
    var j := TableShows(live, spec, headings, section, had, rows, r);
    assert live[j].key == live[i].key;
    assert j == i;
  }

  /**
    For any document and any application: each table a run writes has one row for every
    specified route of its section and no other row; that row shows the route's own handler and
    line, its operation's own name, and its own answer or the bold form of it an old row had; and
    its reference is the old row's looked up again, or a new one.
   */
  lemma RowsShowTheirRoutes(text: string, live: seq<Route>, spec: Spec, headings: seq<Heading>, t: nat)
    requires Registered(live) && PlainSpec(live, spec)
    requires RewriteFrom(SplitLines(text), "", BuiltWorld(live, spec, headings)).Ok?
    requires t < |Tables(SplitLines(text), "", BuiltWorld(live, spec, headings))|
    ensures var w := BuiltWorld(live, spec, headings);
            var before := Tables(SplitLines(text), "", w);
            var after := Tables(RewriteFrom(SplitLines(text), "", w).value.lines, "", w);
            && |after| == |before| && after[t].0 == before[t].0
            && RowsOf(live, spec, headings, after[t].0, before[t].1, after[t].1)
  {
    hide RowsOf, RewriteFrom, Tables, SplitLines, Registered, PlainSpec;
    var w := BuiltWorld(live, spec, headings);
    BuiltIsClean(live, spec, headings);
    RunKeepsAndLists(SplitLines(text), "", w);
    var before := Tables(SplitLines(text), "", w);
    var after := Tables(RewriteFrom(SplitLines(text), "", w).value.lines, "", w);
    TableHasRowsOf(live, spec, headings, before[t].0, before[t].1, after[t].1);
  }
}
