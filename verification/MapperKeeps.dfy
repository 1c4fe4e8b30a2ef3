/** What a run leaves alone, and what its tables list. */
module MapperKeeps {
  import opened Wrappers
  import opened Text
  import opened ApiMap
  import opened Mapper
  import opened MapperRows
  import opened MapperTables
  import opened MapperTheorems
  import opened ApiMapTheorems

  /** The lines that belong to no table a run writes again. */
  function Outside(lines: seq<string>, section: string, w: World): seq<string>
    decreases |lines|
  {
    if lines == [] then []
    else
      var here := SectionAfter(lines[0], section);
      if !IsHeader(lines[0]) then [lines[0]] + Outside(lines[1..], here, w)
      else
        var n := TableSpan(lines);
        if KeysOf(here, w) == [] then lines[..n] + Outside(lines[n..], here, w)
        else Outside(lines[n..], "", w)
  }

  /** The section of every such table, and the operations its rows quote. */
  function Listed(lines: seq<string>, section: string, w: World): seq<(string, seq<Key>)>
    decreases |lines|
  {
    if lines == [] then []
    else
      var here := SectionAfter(lines[0], section);
      if !IsHeader(lines[0]) then Listed(lines[1..], here, w)
      else
        var n := TableSpan(lines);
        if KeysOf(here, w) == [] then Listed(lines[n..], here, w)
        else [(here, OldOrder(lines[RowsFrom(lines)..n]))] + Listed(lines[n..], "", w)
  }

  /** The section of every such table, and its rows. */
  function Tables(lines: seq<string>, section: string, w: World): seq<(string, seq<string>)>
    decreases |lines|
  {
    if lines == [] then []
    else
      var here := SectionAfter(lines[0], section);
      if !IsHeader(lines[0]) then Tables(lines[1..], here, w)
      else
        var n := TableSpan(lines);
        if KeysOf(here, w) == [] then Tables(lines[n..], here, w)
        else [(here, lines[RowsFrom(lines)..n])] + Tables(lines[n..], "", w)
  }

  /** The same tables, each with all the operations of its section. */
  function Due(lines: seq<string>, section: string, w: World): seq<(string, seq<Key>)>
    decreases |lines|
  {
    if lines == [] then []
    else
      var here := SectionAfter(lines[0], section);
      if !IsHeader(lines[0]) then Due(lines[1..], here, w)
      else
        var n := TableSpan(lines);
        if KeysOf(here, w) == [] then Due(lines[n..], here, w)
        else [(here, KeysOf(here, w))] + Due(lines[n..], "", w)
  }

  // ---- one step at a time ----

  lemma PlainParts(line: string, rest: seq<string>, section: string, w: World)
    requires !IsHeader(line)
    ensures Outside([line] + rest, section, w) == [line] + Outside(rest, SectionAfter(line, section), w)
    ensures Listed([line] + rest, section, w) == Listed(rest, SectionAfter(line, section), w)
    ensures Tables([line] + rest, section, w) == Tables(rest, SectionAfter(line, section), w)
  {
    assert ([line] + rest)[1..] == rest;
  }

  lemma BlockParts(lines: seq<string>, section: string, w: World, block: seq<string>, tail: seq<string>)
    requires lines != [] && IsHeader(lines[0]) && SectionOf(lines[0]).None? && KeysOf(section, w) == []
    requires block == lines[..TableSpan(lines)] && tail == lines[TableSpan(lines)..]
    ensures Outside(lines, section, w) == block + Outside(tail, section, w)
    ensures Listed(lines, section, w) == Listed(tail, section, w)
    ensures Tables(lines, section, w) == Tables(tail, section, w)
    ensures Due(lines, section, w) == Due(tail, section, w)
  {
  }

  lemma TableIs(lines: seq<string>, section: string, w: World, rows: seq<string>, tail: seq<string>)
    requires lines != [] && IsHeader(lines[0]) && SectionOf(lines[0]).None? && KeysOf(section, w) != []
    requires rows == lines[RowsFrom(lines)..TableSpan(lines)] && tail == lines[TableSpan(lines)..]
    ensures Outside(lines, section, w) == Outside(tail, "", w)
    ensures Listed(lines, section, w) == [(section, OldOrder(rows))] + Listed(tail, "", w)
    ensures Tables(lines, section, w) == [(section, rows)] + Tables(tail, "", w)
    ensures Due(lines, section, w) == [(section, KeysOf(section, w))] + Due(tail, "", w)
  {
  }

  lemma WrittenIs(header: string, rule: string, rows: seq<string>, rest: seq<string>, section: string, w: World)
    requires IsHeader(header) && IsRule(rule) && AllBarred(rows) && EndsTable(rest) && KeysOf(section, w) != []
    ensures var lines := [header, rule] + rows + rest;
            && Outside(lines, section, w) == Outside(rest, "", w)
            && Listed(lines, section, w) == [(section, OldOrder(rows))] + Listed(rest, "", w)
            && Tables(lines, section, w) == [(section, rows)] + Tables(rest, "", w)
  {
    var lines := [header, rule] + rows + rest;
    HeaderFacts(header);
    SpanOfTable(header, rule, lines, rows, rest);
    TwoHeads(header, rule, lines, rows, rest);
    TableIs(lines, section, w, rows, rest);
  }

  lemma KeptBlockIs(lines: seq<string>, rest: seq<string>, section: string, w: World)
    requires lines != [] && IsHeader(lines[0]) && SectionOf(lines[0]).None? && KeysOf(section, w) == []
    requires EndsTable(rest)
    ensures var block := lines[..TableSpan(lines)];
            && Outside(block + rest, section, w) == block + Outside(rest, section, w)
            && Listed(block + rest, section, w) == Listed(rest, section, w)
            && Tables(block + rest, section, w) == Tables(rest, section, w)
  {
    var block := lines[..TableSpan(lines)];
    var again := block + rest;
    SpanOfBlock(lines, rest);
    assert again[0] == lines[0] && again[..|block|] == block && again[|block|..] == rest;
    BlockParts(again, section, w, block, rest);
  }

  // ---- the two promises ----

  ghost predicate Promised(lines: seq<string>, section: string, w: World)
    requires w.Closed() && RewriteFrom(lines, section, w).Ok?
  {
    var written := RewriteFrom(lines, section, w).value.lines;
    && Outside(written, section, w) == Outside(lines, section, w)
    && Listed(written, section, w) == Due(lines, section, w)
    && Rewritten(Tables(lines, section, w), Tables(written, section, w), w)
  }

  /** Each table was written from the rows it had. */
  ghost predicate Rewritten(before: seq<(string, seq<string>)>, after: seq<(string, seq<string>)>, w: World)
    requires w.Closed()
  {
    && |before| == |after|
    && forall t :: 0 <= t < |before| ==>
         && before[t].0 == after[t].0
         && TableRows(KeysOf(before[t].0, w), OldRows(before[t].1), w) == Ok(after[t].1)
  }

  lemma RewrittenCons(section: string, rows: seq<string>, written: seq<string>,
                      before: seq<(string, seq<string>)>, after: seq<(string, seq<string>)>, w: World)
    requires w.Closed() && Rewritten(before, after, w)
    requires TableRows(KeysOf(section, w), OldRows(rows), w) == Ok(written)
    ensures Rewritten([(section, rows)] + before, [(section, written)] + after, w)
  {
  }

  lemma TableWritten(lines: seq<string>, section: string, w: World, rows: seq<string>, tail: seq<string>)
    returns (written: seq<string>, rest: seq<string>)
    requires CleanWorld(w) && RewriteFrom(lines, section, w).Ok? && lines != []
    requires IsHeader(lines[0]) && SectionOf(lines[0]).None? && KeysOf(section, w) != []
    requires rows == lines[RowsFrom(lines)..TableSpan(lines)] && tail == lines[TableSpan(lines)..]
    requires EndsTable(tail)
    ensures RewriteFrom(tail, "", w).Ok? && rest == RewriteFrom(tail, "", w).value.lines
    ensures RewriteFrom(lines, section, w).value.lines == [HEADER, RULE] + written + rest
    ensures AllBarred(written) && OldOrder(written) == KeysOf(section, w) && EndsTable(rest)
    ensures TableRows(KeysOf(section, w), OldRows(rows), w) == Ok(written)
  {
    var keys := KeysOf(section, w);
    RewriteTableIs(lines, section, w, rows, tail);
    rest := RewriteFrom(tail, "", w).value.lines;
    written := TableParts(keys, rows, w);
    HeadKept(tail, "", w);
    WrittenRows(keys, rows, w, written);
  }

  lemma {:induction false} TablePromised(lines: seq<string>, section: string, w: World)
    requires CleanWorld(w) && RewriteFrom(lines, section, w).Ok? && lines != []
    requires IsHeader(lines[0]) && SectionOf(lines[0]).None? && KeysOf(section, w) != []
    requires EndsTable(lines[TableSpan(lines)..])
    ensures Promised(lines, section, w)
    decreases |lines|, 0
  {
    var rows, tail := lines[RowsFrom(lines)..TableSpan(lines)], lines[TableSpan(lines)..];
    var written, rest := TableWritten(lines, section, w, rows, tail);
    TableIs(lines, section, w, rows, tail);
    RunKeepsAndLists(tail, "", w);
    WrittenHeader();
    WrittenIs(HEADER, RULE, written, rest, section, w);
    RewrittenCons(section, rows, written, Tables(tail, "", w), Tables(rest, "", w), w);
  }

  lemma {:induction false} BlockPromised(lines: seq<string>, section: string, w: World)
    requires CleanWorld(w) && RewriteFrom(lines, section, w).Ok? && lines != []
    requires IsHeader(lines[0]) && SectionOf(lines[0]).None? && KeysOf(section, w) == []
    requires EndsTable(lines[TableSpan(lines)..])
    ensures Promised(lines, section, w)
    decreases |lines|, 0
  {
    var block, tail := lines[..TableSpan(lines)], lines[TableSpan(lines)..];
    RewriteBlock(lines, section, w, block, tail);
    var rest := RewriteFrom(tail, section, w).value.lines;
    BlockParts(lines, section, w, block, tail);
    RunKeepsAndLists(tail, section, w);
    HeadKept(tail, section, w);
    KeptBlockIs(lines, rest, section, w);
  }

  /**
    Every line outside the tables a run writes again is kept, in its order; and the tables
    are the same ones, each now listing exactly its section's operations, in their order.
   */
  lemma {:induction false} RunKeepsAndLists(lines: seq<string>, section: string, w: World)
    requires CleanWorld(w) && RewriteFrom(lines, section, w).Ok?
    ensures var written := RewriteFrom(lines, section, w).value.lines;
            && Outside(written, section, w) == Outside(lines, section, w)
            && Listed(written, section, w) == Due(lines, section, w)
            && Rewritten(Tables(lines, section, w), Tables(written, section, w), w)
    decreases |lines|
  {
    if lines != [] {
      if !IsHeader(lines[0]) {
        var here := SectionAfter(lines[0], section);
        var rest := RewriteFrom(lines[1..], here, w).value.lines;
        RunKeepsAndLists(lines[1..], here, w);
        PlainParts(lines[0], rest, section, w);
      } else {
        HeaderFacts(lines[0]);
        TableEnds(lines);
        if KeysOf(section, w) == [] {
          BlockPromised(lines, section, w);
        } else {
          TablePromised(lines, section, w);
        }
      }
    }
  }

  // ---- rows that settle, and rows that do not ----

  /**
    With distinct, bar-free headings every row settles at once whose reference cell is new,
    or blank, or a caption with at most one reference.
   */
  lemma OrdinaryRowSettles(key: Key, had: Rows, w: World)
    requires DistinctHeadings(w.headings)
    requires forall i :: 0 <= i < |w.headings| ==> '|' !in Bared(w.headings[i].text)
    requires Previous(had, key).Some? ==>
               var was := Previous(had, key).value;
               && |was| >= 5
               && (Strip(was[4]) != "" ==>
                     Caption(Strip(was[4])) != "" && Unreferred(Caption(Strip(was[4]))).None?)
    ensures RowSettles(key, had, w)
  {
    DistinctHeadingsSettle(key.1, w.headings);
  }

  /** A row that quotes an operation has its five cells, and at most one reference behind a caption. */
  predicate TidyRow(row: string) {
    var cells := Cells(row);
    KeyOf(cells[0]).Some? ==>
      |cells| >= 5 && (cells[4] != "" ==> Caption(cells[4]) != "" && Unreferred(Caption(cells[4])).None?)
  }

  ghost predicate Tidy(lines: seq<string>) {
    forall i :: 0 <= i < |lines| ==> TidyRow(lines[i])
  }

  ghost predicate TidyHeadings(headings: seq<Heading>) {
    DistinctHeadings(headings) && forall i :: 0 <= i < |headings| ==> '|' !in Bared(headings[i].text)
  }

  lemma TidyRowSettles(key: Key, rows: seq<string>, w: World)
    requires TidyHeadings(w.headings) && Tidy(rows) && key in w.facts
    ensures RowSettles(key, OldRows(rows), w) && RowOf(key, OldRows(rows), w).Ok?
  {
    var c := Candidate(OldRows(rows), key);
    if c.Some? {
      var i := CollectedFrom(ReadAll(rows), c.value);
      ReadAllAt(rows, i);
      assert TidyRow(rows[i]);
      CellsAreClean(rows[i], 4);
    }
    OrdinaryRowSettles(key, OldRows(rows), w);
  }

  lemma TidyTableSettles(keys: seq<Key>, rows: seq<string>, w: World)
    requires TidyHeadings(w.headings) && Tidy(rows) && forall i :: 0 <= i < |keys| ==> keys[i] in w.facts
    ensures TableSettles(keys, rows, w) && Table(keys, rows, w).Ok?
  {
    forall i | 0 <= i < |keys| ensures RowSettles(keys[i], OldRows(rows), w) && RowOf(keys[i], OldRows(rows), w).Ok? {
      TidyRowSettles(keys[i], rows, w);
    }
    TableRowsOk(keys, OldRows(rows), w);
  }

  lemma SettledTable(lines: seq<string>, section: string, w: World, rows: seq<string>, tail: seq<string>)
    requires w.Closed() && lines != [] && IsHeader(lines[0]) && SectionOf(lines[0]).None? && KeysOf(section, w) != []
    requires rows == lines[RowsFrom(lines)..TableSpan(lines)] && tail == lines[TableSpan(lines)..]
    ensures Settled(lines, section, w) <==> TableSettles(KeysOf(section, w), rows, w) && Settled(tail, "", w)
  {
  }

  lemma PlainSettled(lines: seq<string>, section: string, w: World)
    requires w.Closed() && lines != [] && !IsHeader(lines[0])
    ensures Settled(lines, section, w) == Settled(lines[1..], SectionAfter(lines[0], section), w)
  {
  }

  lemma TidyPart(lines: seq<string>, i: nat, j: nat)
    requires Tidy(lines) && i <= j <= |lines|
    ensures Tidy(lines[i..j])
  {
    assert forall k :: 0 <= k < j - i ==> lines[i..j][k] == lines[i + k];
  }

  lemma {:induction false} TidyTable(lines: seq<string>, section: string, w: World)
    requires w.Closed() && TidyHeadings(w.headings) && Tidy(lines)
    requires lines != [] && IsHeader(lines[0]) && SectionOf(lines[0]).None?
    ensures RewriteFrom(lines, section, w).Ok? && Settled(lines, section, w)
    decreases |lines|, 0
  {
    hide RewriteFrom, Settled, Tidy, TidyHeadings, IsHeader, SectionOf, TableSettles;
    var n, from := TableSpan(lines), RowsFrom(lines);
    var rows, tail := lines[from..n], lines[n..];
    TidyPart(lines, n, |lines|);
    assert lines[n..|lines|] == tail;
    if KeysOf(section, w) == [] {
      TidyRun(tail, section, w);
      RewriteBlock(lines, section, w, lines[..n], tail);
    } else {
      TidyRun(tail, "", w);
      TidyPart(lines, from, n);
      TidyTableSettles(KeysOf(section, w), rows, w);
      TableStep(lines, rows, tail, section, w);
      SettledTable(lines, section, w, rows, tail);
    }
  }

  /** Over tidy lines a run never fails, and leaves every row settled. */
  lemma {:induction false} TidyRun(lines: seq<string>, section: string, w: World)
    requires w.Closed() && TidyHeadings(w.headings) && Tidy(lines)
    ensures RewriteFrom(lines, section, w).Ok? && Settled(lines, section, w)
    decreases |lines|
  {
    if lines != [] {
      if IsHeader(lines[0]) {
        HeaderFacts(lines[0]);
        TidyTable(lines, section, w);
      } else {
        TidyPart(lines, 1, |lines|);
        assert lines[1..|lines|] == lines[1..];
        TidyRun(lines[1..], SectionAfter(lines[0], section), w);
        PlainSettled(lines, section, w);
      }
    }
  }

  /**
    Where neither a caption nor the caption with one reference resolves, each run takes one
    reference off a doubled cell.
   */
  lemma DoubledReferencePeels(caption: string, a: nat, b: nat, path: string, headings: seq<Heading>)
    requires caption != "" && Trimmed(caption, IsSpace) && !Contains(caption, MISSING) && Unreferred(caption).None?
    requires Resolve(Bare(caption), headings).None? && Resolve(Bare(Referring(caption, a)), headings).None?
    ensures var once := ApiCell(Some(Referring(Referring(caption, a), b)), path, headings);
            && once == Referring(caption, a)
            && ApiCell(Some(once), path, headings) == caption != once
  {
    Peel(caption, a, path, headings);
    StripReferring(caption, a);
    TrimIsTrimmed(Referring(caption, a), IsSpace);
    ReferringHasNoMissing(caption, a);
    Peel(Referring(caption, a), b, path, headings);
  }

  lemma Peel(caption: string, line: nat, path: string, headings: seq<Heading>)
    requires caption != "" && Trimmed(caption, IsSpace) && !Contains(caption, MISSING)
    requires Resolve(Bare(caption), headings).None?
    ensures ApiCell(Some(Referring(caption, line)), path, headings) == caption
    ensures Referring(caption, line) != caption
  {
    var cell := Referring(caption, line);
    StripReferring(caption, line);
    ReferringRead(caption, line);
    ReferringHasNoMissing(caption, line);
    CellOfText(cell, path, headings);
    RefreshedAs(cell, caption, None, headings);
    assert |cell| > |caption|;
  }
}
