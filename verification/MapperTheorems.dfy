/** The whole document: what a run keeps, what it lists, and when a second run changes nothing. */
module MapperTheorems {
  import opened Wrappers
  import opened Text
  import opened ApiMap
  import opened Mapper
  import opened MapperRows
  import opened MapperTables

  ghost predicate CleanWorld(w: World) {
    w.Closed() && forall s :: s in w.tables ==> CleanKeys(w.tables[s], w)
  }

  // ---- lines that matter ----

  lemma StrippedHead(line: string, text: string)
    requires Strip(line) == text && text != "" && text[0] == '|'
    ensures IsBarred(line)
  {
    TrimRightFacts(TrimLeft(line, IsSpace), IsSpace);
  }

  lemma BarredIsNoSection(line: string)
    requires IsBarred(line)
    ensures SectionOf(line).None?
  {
    PrefixAt(line, "### `backend/", 0);
    assert line[0] == '#' ==> TrimLeft(line, IsSpace) == line;
  }

  lemma HeaderHead()
    ensures HEADER != "" && HEADER[0] == '|'
  {
  }

  lemma HeaderFacts(line: string)
    requires IsHeader(line)
    ensures IsBarred(line) && SectionOf(line).None?
  {
    HeaderHead();
    StrippedHead(line, HEADER);
    BarredIsNoSection(line);
  }

  lemma RuleIsBarred(line: string)
    requires IsRule(line)
    ensures IsBarred(line)
  {
    StrippedHead(line, RULE);
  }

  lemma WrittenHeader()
    ensures IsHeader(HEADER) && IsRule(RULE)
  {
    assert !IsSpace('|');
    assert HEADER[0] == '|' && HEADER[|HEADER| - 1] == '|';
    assert RULE[0] == '|' && RULE[|RULE| - 1] == '|';
    TrimIsTrimmed(HEADER, IsSpace);
    TrimIsTrimmed(RULE, IsSpace);
  }

  lemma RowsAreBarred(cells: seq<string>)
    ensures IsBarred(Row(cells))
  {
    assert Row(cells)[0] == '|';
  }

  // ---- where tables end ----

  predicate Ends(rest: seq<string>, kind: string -> bool) {
    rest == [] || !kind(rest[0])
  }

  /** The lines that can follow a table. */
  predicate EndsTable(rest: seq<string>) {
    Ends(rest, IsBarred)
  }

  ghost predicate Every(rows: seq<string>, kind: string -> bool) {
    forall i :: 0 <= i < |rows| ==> kind(rows[i])
  }

  ghost predicate AllBarred(rows: seq<string>) {
    Every(rows, IsBarred)
  }

  lemma {:induction false} SpanIs(rows: seq<string>, rest: seq<string>, kind: string -> bool)
    requires Every(rows, kind) && Ends(rest, kind)
    ensures Span(rows + rest, kind) == |rows|
  {
    if rows != [] {
      assert (rows + rest)[1..] == rows[1..] + rest;
      SpanIs(rows[1..], rest, kind);
    } else {
      assert rows + rest == rest;
    }
  }

  lemma SpanEnds(lines: seq<string>, from: nat, n: nat, kind: string -> bool)
    requires from <= |lines| && n == from + Span(lines[from..], kind)
    ensures n <= |lines| && Ends(lines[n..], kind) && Every(lines[from..n], kind)
  {
    var k := n - from;
    var rows := lines[from..];
    assert n < |lines| ==> lines[n] == rows[k];
    assert forall i :: 0 <= i < k ==> lines[from..n][i] == rows[i];
  }

  lemma TableEnds(lines: seq<string>)
    requires lines != []
    ensures EndsTable(lines[TableSpan(lines)..])
    ensures AllBarred(lines[RowsFrom(lines)..TableSpan(lines)])
  {
    SpanEnds(lines, RowsFrom(lines), TableSpan(lines), IsBarred);
  }

  lemma DropHead(head: seq<string>, rows: seq<string>, rest: seq<string>)
    ensures (head + rows + rest)[|head|..] == rows + rest
  {
  }

  lemma TableSpanIs(lines: seq<string>, from: nat, tail: seq<string>)
    requires lines != [] && RowsFrom(lines) == from && lines[from..] == tail
    ensures TableSpan(lines) == from + Span(tail, IsBarred)
  {
  }

  lemma SpanOf(lines: seq<string>, head: seq<string>, rows: seq<string>, rest: seq<string>)
    requires lines == head + rows + rest && AllBarred(rows) && EndsTable(rest) && head != []
    requires RowsFrom(lines) == |head|
    ensures TableSpan(lines) == |head| + |rows|
  {
    DropHead(head, rows, rest);
    SpanIs(rows, rest, IsBarred);
    TableSpanIs(lines, |head|, rows + rest);
  }

  /** A table kept as it was ends where it ended, whatever the lines after it became. */
  lemma SpanOfBlock(lines: seq<string>, rest: seq<string>)
    requires lines != [] && EndsTable(rest)
    ensures var n := TableSpan(lines);
            TableSpan(lines[..n] + rest) == n && RowsFrom(lines[..n] + rest) == RowsFrom(lines)
  {
    var n, from := TableSpan(lines), RowsFrom(lines);
    var head, rows := lines[..from], lines[from..n];
    TableEnds(lines);
    assert lines[..n] + rest == head + rows + rest;
    RowsFromKept(lines, head + rows + rest);
    SpanOf(lines[..n] + rest, head, rows, rest);
  }

  lemma RowsFromKept(lines: seq<string>, again: seq<string>)
    requires lines != [] && again != []
    requires var n := TableSpan(lines);
             n <= |again| && again[..n] == lines[..n] && EndsTable(again[n..])
    ensures RowsFrom(again) == RowsFrom(lines)
  {
    var n := TableSpan(lines);
    if n > 1 {
      assert again[1] == again[..n][1] && lines[1] == lines[..n][1];
    } else if |again| > 1 {
      assert again[1] == again[n..][0];
      if IsRule(again[1]) {
        RuleIsBarred(again[1]);
      }
    }
  }

  lemma TwoHeads(header: string, rule: string, lines: seq<string>, rows: seq<string>, rest: seq<string>)
    requires lines == [header, rule] + rows + rest
    ensures |lines| >= 2 + |rows| && lines[0] == header && lines[1] == rule
    ensures lines[2..2 + |rows|] == rows && lines[2 + |rows|..] == rest
  {
  }

  lemma SpanOfTable(header: string, rule: string, lines: seq<string>, rows: seq<string>, rest: seq<string>)
    requires lines == [header, rule] + rows + rest && IsRule(rule) && AllBarred(rows) && EndsTable(rest)
    ensures lines != [] && RowsFrom(lines) == 2 && TableSpan(lines) == 2 + |rows|
  {
    TwoHeads(header, rule, lines, rows, rest);
    SpanOf(lines, [header, rule], rows, rest);
  }

  /** What comes first after a table is not part of one, and a run leaves it first. */
  lemma HeadKept(lines: seq<string>, section: string, w: World)
    requires w.Closed() && RewriteFrom(lines, section, w).Ok? && EndsTable(lines)
    ensures EndsTable(RewriteFrom(lines, section, w).value.lines)
  {
    if lines != [] {
      if IsHeader(lines[0]) {
        HeaderFacts(lines[0]);
      }
    }
  }

  // ---- one more run over what a run wrote ----

  lemma PlainLine(line: string, rest: seq<string>, section: string, w: World)
    requires w.Closed() && !IsHeader(line)
    ensures RewriteFrom([line] + rest, section, w)
            == Then(Output([line], []), RewriteFrom(rest, SectionAfter(line, section), w))
  {
    assert ([line] + rest)[1..] == rest;
  }

  lemma BlockAgain(lines: seq<string>, rest: seq<string>, section: string, w: World)
    requires w.Closed() && lines != [] && IsHeader(lines[0]) && EndsTable(rest) && KeysOf(section, w) == []
    ensures var n := TableSpan(lines);
            RewriteFrom(lines[..n] + rest, section, w)
            == Then(Output(lines[..n], [LeftAsWritten(section)]), RewriteFrom(rest, section, w))
  {
    var n := TableSpan(lines);
    var again := lines[..n] + rest;
    HeaderFacts(lines[0]);
    SpanOfBlock(lines, rest);
    assert again[0] == lines[0] && again[..n] == lines[..n] && again[n..] == rest;
  }

  lemma TableStep(lines: seq<string>, rows: seq<string>, rest: seq<string>, section: string, w: World)
    requires w.Closed() && lines != [] && IsHeader(lines[0]) && SectionOf(lines[0]).None?
    requires lines[RowsFrom(lines)..TableSpan(lines)] == rows && lines[TableSpan(lines)..] == rest
    requires KeysOf(section, w) != []
    ensures RewriteFrom(lines, section, w)
            == var table := Table(KeysOf(section, w), rows, w);
               if table.Err? then table else Then(table.value, RewriteFrom(rest, "", w))
  {
  }

  lemma RewriteTable(lines: seq<string>, rows: seq<string>, rest: seq<string>, section: string, w: World)
    requires w.Closed() && lines != [] && IsHeader(lines[0]) && SectionOf(lines[0]).None?
    requires lines[RowsFrom(lines)..TableSpan(lines)] == rows && lines[TableSpan(lines)..] == rest
    requires KeysOf(section, w) != [] && Table(KeysOf(section, w), rows, w).Ok?
    ensures RewriteFrom(lines, section, w)
            == Then(Table(KeysOf(section, w), rows, w).value, RewriteFrom(rest, "", w))
  {
  }

  lemma TableAfter(header: string, rule: string, rows: seq<string>, rest: seq<string>, section: string, w: World)
    requires IsHeader(header) && IsRule(rule)
    requires w.Closed() && AllBarred(rows) && EndsTable(rest) && KeysOf(section, w) != []
    requires Table(KeysOf(section, w), rows, w).Ok?
    ensures RewriteFrom([header, rule] + rows + rest, section, w)
            == Then(Table(KeysOf(section, w), rows, w).value, RewriteFrom(rest, "", w))
  {
    var lines := [header, rule] + rows + rest;
    HeaderFacts(header);
    SpanOfTable(header, rule, lines, rows, rest);
    TwoHeads(header, rule, lines, rows, rest);
    RewriteTable(lines, rows, rest, section, w);
  }

  lemma RewriteTableIs(lines: seq<string>, section: string, w: World, rows: seq<string>, tail: seq<string>)
    requires w.Closed() && RewriteFrom(lines, section, w).Ok? && lines != []
    requires IsHeader(lines[0]) && SectionOf(lines[0]).None? && KeysOf(section, w) != []
    requires rows == lines[RowsFrom(lines)..TableSpan(lines)] && tail == lines[TableSpan(lines)..]
    ensures Table(KeysOf(section, w), rows, w).Ok? && RewriteFrom(tail, "", w).Ok?
    ensures RewriteFrom(lines, section, w)
            == Then(Table(KeysOf(section, w), rows, w).value, RewriteFrom(tail, "", w))
  {
  }

  lemma WrittenAgain(rows: seq<string>, rest: seq<string>, section: string, w: World)
    requires w.Closed() && AllBarred(rows) && EndsTable(rest) && KeysOf(section, w) != []
    requires Table(KeysOf(section, w), rows, w).Ok?
    ensures RewriteFrom([HEADER, RULE] + rows + rest, section, w)
            == Then(Table(KeysOf(section, w), rows, w).value, RewriteFrom(rest, "", w))
  {
    WrittenHeader();
    TableAfter(HEADER, RULE, rows, rest, section, w);
  }

  // ---- the fixed point ----

  /** Every row of every table the run writes again is settled. */
  ghost predicate Settled(lines: seq<string>, section: string, w: World)
    requires w.Closed()
    decreases |lines|
  {
    if lines == [] then true
    else
      var here := SectionAfter(lines[0], section);
      if !IsHeader(lines[0]) then Settled(lines[1..], here, w)
      else
        var n := TableSpan(lines);
        var keys := KeysOf(here, w);
        if keys == [] then Settled(lines[n..], here, w)
        else TableSettles(keys, lines[RowsFrom(lines)..n], w) && Settled(lines[n..], "", w)
  }

  /** `again` is a run over what a run over `lines` wrote. */
  ghost predicate SecondRun(first: Output, again: Result<Output, Failure>, settled: bool) {
    && again.Ok?
    && |again.value.lines| == |first.lines|
    && (again.value.lines == first.lines <==> settled)
    && forall i :: 0 <= i < |again.value.notes| ==> again.value.notes[i].LeftAsWritten?
  }

  lemma SecondRunThen(head: Output, again: Output, rest: Output, restAgain: Result<Output, Failure>, a: bool, b: bool)
    requires SecondRun(head, Ok(again), a) && SecondRun(rest, restAgain, b)
    ensures SecondRun(Then(head, Ok(rest)).value, Then(again, restAgain), a && b)
  {
    var x, y := again.lines, restAgain.value.lines;
    if x + y == head.lines + rest.lines {
      assert (x + y)[..|x|] == x && (head.lines + rest.lines)[..|x|] == head.lines;
      assert (x + y)[|x|..] == y && (head.lines + rest.lines)[|x|..] == rest.lines;
    }
  }

  lemma TableParts(keys: seq<Key>, rows: seq<string>, w: World) returns (written: seq<string>)
    requires CleanKeys(keys, w) && Table(keys, rows, w).Ok?
    ensures TableRows(keys, OldRows(rows), w) == Ok(written)
    ensures Table(keys, rows, w).value.lines == [HEADER, RULE] + written
    ensures AllBarred(written)
  {
    written := TableRows(keys, OldRows(rows), w).value;
    forall i | 0 <= i < |written| ensures IsBarred(written[i]) {
      TableRowsBarred(keys, OldRows(rows), w, i);
    }
  }

  lemma RowOfBarred(key: Key, had: Rows, w: World)
    requires key in w.facts && RowOf(key, had, w).Ok?
    ensures IsBarred(RowOf(key, had, w).value)
  {
    var was := Previous(had, key);
    RowsAreBarred(RowCells(key, w.facts[key], was, w.headings));
  }

  lemma {:induction false} TableRowsBarred(keys: seq<Key>, had: Rows, w: World, i: nat)
    requires forall j :: 0 <= j < |keys| ==> keys[j] in w.facts
    requires TableRows(keys, had, w).Ok? && i < |TableRows(keys, had, w).value|
    ensures IsBarred(TableRows(keys, had, w).value[i])
  {
    if keys != [] {
      TableRowsAt(keys, had, w, 0);
      TableRowsAt(keys, had, w, i);
      RowOfBarred(keys[i], had, w);
    }
  }

  /**
    A second run over what a run wrote never fails, drops or adds; and it changes nothing
    exactly when every row was settled.
   */
  lemma {:induction false} RunAgain(lines: seq<string>, section: string, w: World)
    requires CleanWorld(w) && RewriteFrom(lines, section, w).Ok?
    ensures var first := RewriteFrom(lines, section, w).value;
            SecondRun(first, RewriteFrom(first.lines, section, w), Settled(lines, section, w))
    decreases |lines|
  {
    if lines != [] {
      var here := SectionAfter(lines[0], section);
      if !IsHeader(lines[0]) {
        var rest := RewriteFrom(lines[1..], here, w).value;
        RunAgain(lines[1..], here, w);
        PlainLine(lines[0], rest.lines, section, w);
        SecondRunThen(Output([lines[0]], []), Output([lines[0]], []), rest,
                      RewriteFrom(rest.lines, here, w), true, Settled(lines[1..], here, w));
      } else {
        HeaderFacts(lines[0]);
        TableEnds(lines);
        if KeysOf(section, w) == [] {
          BlockAgainRun(lines, section, w);
        } else {
          TableAgainRun(lines, section, w);
        }
      }
    }
  }

  /** A table without operations: as written, and the section still stands. */
  lemma RewriteBlock(lines: seq<string>, section: string, w: World, block: seq<string>, tail: seq<string>)
    requires w.Closed() && lines != [] && IsHeader(lines[0]) && SectionOf(lines[0]).None? && KeysOf(section, w) == []
    requires block == lines[..TableSpan(lines)] && tail == lines[TableSpan(lines)..]
    ensures RewriteFrom(lines, section, w)
            == Then(Output(block, [LeftAsWritten(section)]), RewriteFrom(tail, section, w))
    ensures Settled(lines, section, w) == Settled(tail, section, w)
  {
  }

  lemma {:induction false} BlockAgainRun(lines: seq<string>, section: string, w: World)
    requires CleanWorld(w) && RewriteFrom(lines, section, w).Ok? && lines != []
    requires IsHeader(lines[0]) && SectionOf(lines[0]).None? && KeysOf(section, w) == []
    requires EndsTable(lines[TableSpan(lines)..])
    ensures var first := RewriteFrom(lines, section, w).value;
            SecondRun(first, RewriteFrom(first.lines, section, w), Settled(lines, section, w))
    decreases |lines|, 0
  {
    var block, tail := lines[..TableSpan(lines)], lines[TableSpan(lines)..];
    var kept := Output(block, [LeftAsWritten(section)]);
    RewriteBlock(lines, section, w, block, tail);
    var rest := RewriteFrom(tail, section, w).value;
    RunAgain(tail, section, w);
    HeadKept(tail, section, w);
    BlockAgain(lines, rest.lines, section, w);
    SecondRunThen(kept, kept, rest, RewriteFrom(rest.lines, section, w), true, Settled(tail, section, w));
  }

  lemma {:induction false} TableAgainRun(lines: seq<string>, section: string, w: World)
    requires CleanWorld(w) && RewriteFrom(lines, section, w).Ok? && lines != []
    requires IsHeader(lines[0]) && SectionOf(lines[0]).None? && KeysOf(section, w) != []
    requires EndsTable(lines[TableSpan(lines)..])
    ensures var first := RewriteFrom(lines, section, w).value;
            SecondRun(first, RewriteFrom(first.lines, section, w), Settled(lines, section, w))
    decreases |lines|, 0
  {
    var n := TableSpan(lines);
    var keys := KeysOf(section, w);
    var rows := lines[RowsFrom(lines)..n];
    var rest := RewriteFrom(lines[n..], "", w).value;
    var written := TableParts(keys, rows, w);
    RunAgain(lines[n..], "", w);
    HeadKept(lines[n..], "", w);
    TableAgain(keys, rows, w, written);
    WrittenAgain(written, rest.lines, section, w);
    SecondRunThen(Table(keys, rows, w).value, Table(keys, written, w).value, rest,
                  RewriteFrom(rest.lines, "", w), TableSettles(keys, rows, w), Settled(lines[n..], "", w));
  }
}
