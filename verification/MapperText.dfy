/** The run on a whole text: lines split, tables written again, lines joined. */
module MapperText {
  import opened Wrappers
  import opened Text
  import opened ApiMap
  import opened ApiMapTheorems
  import opened Mapper
  import opened MapperRows
  import opened MapperTables
  import opened MapperTheorems

  ghost predicate AllUnbroken(lines: seq<string>) {
    forall i :: 0 <= i < |lines| ==> Unbroken(lines[i])
  }

  ghost predicate UnbrokenHeadings(headings: seq<Heading>) {
    forall i :: 0 <= i < |headings| ==> Unbroken(headings[i].text)
  }

  // ---- nothing a run writes has a line break in it ----

  lemma UnbrokenConcat(a: string, b: string)
    ensures Unbroken(a + b) <==> Unbroken(a) && Unbroken(b)
  {
    if Unbroken(a + b) {
      forall c | c in a ensures !IsBreak(c) { assert c in a + b; }
      forall c | c in b ensures !IsBreak(c) { assert c in a + b; }
    }
  }

  lemma UnbrokenTrim(s: string, p: char -> bool)
    requires Unbroken(s)
    ensures Unbroken(Trim(s, p))
  {
    TrimIsTrimmed(s, p);
  }

  lemma UnbrokenSplit(s: string, sep: char, i: nat)
    requires Unbroken(s) && i < |Split(s, sep)|
    ensures Unbroken(Split(s, sep)[i])
  {
    SplitFacts(s, sep, i);
  }

  lemma CellsUnbroken(row: string, i: nat)
    requires Unbroken(row) && i < |Cells(row)|
    ensures Unbroken(Cells(row)[i])
  {
    UnbrokenTrim(row, IsSpace);
    UnbrokenTrim(Strip(row), IsBar);
    var s := Trim(Strip(row), IsBar);
    UnbrokenSplit(s, '|', i);
    UnbrokenTrim(Split(s, '|')[i], IsSpace);
  }

  lemma UnbrokenPrefix(s: string, whole: string)
    requires s <= whole && Unbroken(whole)
    ensures Unbroken(s)
  {
    forall c | c in s ensures !IsBreak(c) { assert c in whole; }
  }

  lemma MarkUnbroken(line: nat)
    ensures Unbroken(Mark(line))
  {
  }

  lemma ReferringUnbroken(caption: string, line: nat)
    requires Unbroken(caption)
    ensures Unbroken(Referring(caption, line))
  {
    MarkUnbroken(line);
    UnbrokenConcat(caption + " ", Mark(line));
    UnbrokenConcat(caption, " ");
  }

  lemma CaptionUnbroken(cell: string)
    requires Unbroken(cell) && Trimmed(cell, IsSpace)
    ensures Unbroken(Caption(cell))
  {
    CaptionIsPart(cell);
    UnbrokenPrefix(Caption(cell), cell);
  }

  lemma RefreshedUnbroken(cell: string, headings: seq<Heading>)
    requires Unbroken(cell) && Trimmed(cell, IsSpace)
    ensures Unbroken(Refreshed(cell, headings))
  {
    var line := Resolve(Bare(Caption(cell)), headings);
    CaptionUnbroken(cell);
    if line.Some? {
      ReferringUnbroken(Caption(cell), line.value);
    }
    RefreshedAs(cell, Caption(cell), line, headings);
  }

  lemma QuotedCaptionUnbroken(h: Heading)
    requires Unbroken(h.text)
    ensures Unbroken(QuotedCaption(h))
  {
    UnbrokenTrim(h.text, IsSpace);
    UnbrokenTrim(Strip(h.text), IsTick);
    SignedUnbroken(Bared(h.text));
  }

  lemma SignedUnbroken(s: string)
    requires Unbroken(s)
    ensures Unbroken(Signed("`" + s + "`"))
  {
    UnbrokenConcat("`" + s, "`");
    UnbrokenConcat("`", s);
    UnbrokenConcat([SECTION_SIGN, ' '], "`" + s + "`");
  }

  lemma FreshUnbroken(path: string, headings: seq<Heading>)
    requires UnbrokenHeadings(headings)
    ensures Unbroken(FreshCell(path, headings))
  {
    var h := CoveringHeading(path, headings);
    if h.Some? {
      var i := CoveringIsAHeading(path, headings);
      QuotedCaptionUnbroken(h.value);
      ReferringUnbroken(QuotedCaption(h.value), h.value.line);
    }
  }

  lemma ApiCellUnbroken(existing: Option<string>, path: string, headings: seq<Heading>)
    requires UnbrokenHeadings(headings) && (existing.Some? ==> Unbroken(existing.value))
    ensures Unbroken(ApiCell(existing, path, headings))
  {
    if existing.Some? && Strip(existing.value) != "" {
      UnbrokenTrim(existing.value, IsSpace);
      TrimIsTrimmed(existing.value, IsSpace);
      RefreshedUnbroken(Strip(existing.value), headings);
    } else {
      FreshUnbroken(path, headings);
    }
  }

  lemma BoldUnbroken(derived: string, existing: Option<string>)
    requires Unbroken(derived) && (existing.Some? ==> Unbroken(existing.value))
    ensures Unbroken(KeepBold(derived, existing))
  {
    if existing.Some? {
      UnbrokenTrim(existing.value, IsSpace);
    }
  }

  lemma {:induction false} JoinUnbroken(parts: seq<string>, glue: string)
    requires Unbroken(glue) && AllUnbroken(parts)
    ensures Unbroken(Join(parts, glue))
  {
    if |parts| > 1 {
      JoinUnbroken(parts[1..], glue);
      UnbrokenConcat(parts[0] + glue, Join(parts[1..], glue));
      UnbrokenConcat(parts[0], glue);
    }
  }

  lemma RowUnbroken(cells: seq<string>)
    requires AllUnbroken(cells)
    ensures Unbroken(Row(cells))
  {
    JoinUnbroken(cells, " | ");
    UnbrokenConcat("| " + Join(cells, " | "), " |");
    UnbrokenConcat("| ", Join(cells, " | "));
  }

  lemma WordUnbroken(word: string)
    requires All(word, IsWord)
    ensures Unbroken(word)
  {
  }

  lemma PathUnbroken(path: string)
    requires forall i :: 0 <= i < |path| ==> !IsSpace(path[i])
    ensures Unbroken(path)
  {
  }

  lemma OperationUnbroken(key: Key)
    requires Proper(key)
    ensures Unbroken(OperationCell(key))
  {
    MethodIsLetters(key.0);
    UpperFacts(key.0);
    WordUnbroken(Upper(key.0));
    PathUnbroken(key.1);
    UnbrokenConcat("`" + Upper(key.0) + " " + key.1, "`");
    UnbrokenConcat("`" + Upper(key.0) + " ", key.1);
    UnbrokenConcat("`" + Upper(key.0), " ");
    UnbrokenConcat("`", Upper(key.0));
  }

  lemma DerivedUnbroken(fact: Fact)
    requires Plain(fact)
    ensures Unbroken(HandlerCell(fact)) && Unbroken(AnchorCell(fact))
  {
    UnbrokenConcat("`" + fact.handler + "` :", Decimal(fact.line));
    UnbrokenConcat("`" + fact.handler, "` :");
    UnbrokenConcat("`", fact.handler);
    UnbrokenConcat("`" + fact.operationId, "`");
    UnbrokenConcat("`", fact.operationId);
  }

  lemma FiveUnbroken(cells: seq<string>)
    requires |cells| == 5
    requires Unbroken(cells[0]) && Unbroken(cells[1]) && Unbroken(cells[2]) && Unbroken(cells[3]) && Unbroken(cells[4])
    ensures AllUnbroken(cells)
  {
  }

  lemma RowOfUnbroken(key: Key, rows: seq<string>, w: World)
    requires key in w.facts && Proper(key) && Plain(w.facts[key]) && UnbrokenHeadings(w.headings)
    requires AllUnbroken(rows) && RowOf(key, OldRows(rows), w).Ok?
    ensures Unbroken(RowOf(key, OldRows(rows), w).value)
  {
    var fact, was := w.facts[key], Previous(OldRows(rows), key);
    var cells := RowCells(key, fact, was, w.headings);
    var c := Candidate(OldRows(rows), key);
    if c.Some? {
      var i := CollectedFrom(ReadAll(rows), c.value);
      ReadAllAt(rows, i);
      CellsUnbroken(rows[i], 3);
      CellsUnbroken(rows[i], 4);
    }
    OperationUnbroken(key);
    DerivedUnbroken(fact);
    BoldUnbroken(fact.success, CellAt(was, 3));
    ApiCellUnbroken(CellAt(was, 4), key.1, w.headings);
    FiveUnbroken(cells);
    RowUnbroken(cells);
  }

  lemma TableUnbroken(keys: seq<Key>, rows: seq<string>, w: World)
    requires CleanKeys(keys, w) && UnbrokenHeadings(w.headings) && AllUnbroken(rows) && Table(keys, rows, w).Ok?
    ensures AllUnbroken(Table(keys, rows, w).value.lines)
  {
    var written := TableRows(keys, OldRows(rows), w).value;
    forall i | 0 <= i < |written| ensures Unbroken(written[i]) {
      if keys != [] {
        TableRowsAt(keys, OldRows(rows), w, 0);
        TableRowsAt(keys, OldRows(rows), w, i);
        RowOfUnbroken(keys[i], rows, w);
      }
    }
    HeadersUnbroken();
    HeadThen([HEADER, RULE], written);
  }

  lemma ShortColumnsUnbroken()
    ensures Unbroken("Operation") && Unbroken("Handler") && Unbroken("Success schema") && Unbroken("API.md")
  {
  }

  lemma LongColumnUnbroken()
    ensures Unbroken("`operationId` (yaml anchor)")
  {
  }

  lemma RuleUnbroken()
    ensures Unbroken(RULE)
  {
    UnbrokenConcat("|" + "---|---|---|---|---", "|");
  }

  lemma HeadersUnbroken()
    ensures Unbroken(HEADER) && Unbroken(RULE)
  {
    ShortColumnsUnbroken();
    LongColumnUnbroken();
    FiveUnbroken(COLUMNS);
    RowUnbroken(COLUMNS);
    RuleUnbroken();
  }

  lemma HeadThen(head: seq<string>, tail: seq<string>)
    requires AllUnbroken(head) && AllUnbroken(tail)
    ensures AllUnbroken(head + tail)
  {
  }

  lemma {:induction false} TableCaseUnbroken(lines: seq<string>, section: string, w: World)
    requires CleanWorld(w) && UnbrokenHeadings(w.headings) && AllUnbroken(lines) && RewriteFrom(lines, section, w).Ok?
    requires lines != [] && IsHeader(lines[0]) && SectionOf(lines[0]).None? && KeysOf(section, w) != []
    ensures AllUnbroken(RewriteFrom(lines, section, w).value.lines)
    decreases |lines|, 0
  {
    var rows, tail := lines[RowsFrom(lines)..TableSpan(lines)], lines[TableSpan(lines)..];
    RewriteTableIs(lines, section, w, rows, tail);
    WrittenUnbroken(tail, "", w);
    TableUnbroken(KeysOf(section, w), rows, w);
    HeadThen(Table(KeysOf(section, w), rows, w).value.lines, RewriteFrom(tail, "", w).value.lines);
  }

  lemma {:induction false} BlockCaseUnbroken(lines: seq<string>, section: string, w: World)
    requires CleanWorld(w) && UnbrokenHeadings(w.headings) && AllUnbroken(lines) && RewriteFrom(lines, section, w).Ok?
    requires lines != [] && IsHeader(lines[0]) && SectionOf(lines[0]).None? && KeysOf(section, w) == []
    ensures AllUnbroken(RewriteFrom(lines, section, w).value.lines)
    decreases |lines|, 0
  {
    var block, tail := lines[..TableSpan(lines)], lines[TableSpan(lines)..];
    RewriteBlock(lines, section, w, block, tail);
    WrittenUnbroken(tail, section, w);
    HeadThen(block, RewriteFrom(tail, section, w).value.lines);
  }

  lemma {:induction false} WrittenUnbroken(lines: seq<string>, section: string, w: World)
    requires CleanWorld(w) && UnbrokenHeadings(w.headings) && AllUnbroken(lines) && RewriteFrom(lines, section, w).Ok?
    ensures AllUnbroken(RewriteFrom(lines, section, w).value.lines)
    decreases |lines|
  {
    if lines != [] {
      if !IsHeader(lines[0]) {
        var here := SectionAfter(lines[0], section);
        WrittenUnbroken(lines[1..], here, w);
        HeadThen([lines[0]], RewriteFrom(lines[1..], here, w).value.lines);
      } else {
        HeaderFacts(lines[0]);
        if KeysOf(section, w) == [] {
          BlockCaseUnbroken(lines, section, w);
        } else {
          TableCaseUnbroken(lines, section, w);
        }
      }
    }
  }

  // ---- an empty last line makes no difference ----

  function WithBlank(r: Result<Output, Failure>): Result<Output, Failure> {
    if r.Err? then r else Ok(Output(r.value.lines + [""], r.value.notes))
  }

  lemma BlankIsPlain()
    ensures !IsHeader("") && !IsRule("") && !IsBarred("") && SectionOf("").None?
  {
    HeaderHead();
  }

  lemma {:induction false} SpanWithBlank(lines: seq<string>)
    requires !IsBarred("")
    ensures Span(lines + [""], IsBarred) == Span(lines, IsBarred)
  {
    if lines != [] {
      assert (lines + [""])[1..] == lines[1..] + [""];
      SpanWithBlank(lines[1..]);
    }
  }

  lemma TableWithBlank(lines: seq<string>)
    requires lines != []
    ensures TableSpan(lines + [""]) == TableSpan(lines) && RowsFrom(lines + [""]) == RowsFrom(lines)
  {
    BlankIsPlain();
    var from := RowsFrom(lines);
    assert |lines| > 1 ==> (lines + [""])[1] == lines[1];
    assert (lines + [""])[from..] == lines[from..] + [""];
    SpanWithBlank(lines[from..]);
  }

  lemma ThenBlank(head: Output, rest: Result<Output, Failure>)
    ensures Then(head, WithBlank(rest)) == WithBlank(Then(head, rest))
  {
    if rest.Ok? {
      assert head.lines + (rest.value.lines + [""]) == head.lines + rest.value.lines + [""];
    }
  }

  lemma BlankRun(section: string, w: World)
    requires w.Closed()
    ensures RewriteFrom([""], section, w) == WithBlank(RewriteFrom([], section, w))
  {
    BlankIsPlain();
    PlainLine("", [], section, w);
    assert RewriteFrom([], SectionAfter("", section), w) == Ok(Output([], []));
    var none: seq<string>, quiet: seq<Note> := [], [];
    assert [""] + none == none + [""] == [""];
    assert quiet + quiet == quiet;
  }

  /** A run takes an empty last line through as it is. */
  lemma {:induction false} RunWithBlank(lines: seq<string>, section: string, w: World)
    requires w.Closed()
    ensures RewriteFrom(lines + [""], section, w) == WithBlank(RewriteFrom(lines, section, w))
    decreases |lines|
  {
    if lines == [] {
      assert lines + [""] == [""];
      BlankRun(section, w);
    } else if !IsHeader(lines[0]) {
      BlankAppended(lines);
      RunWithBlank(lines[1..], SectionAfter(lines[0], section), w);
      PlainRunWithBlank(lines[0], lines[1..], section, w);
    } else {
      TableRunWithBlank(lines, section, w);
    }
  }

  lemma BlankAppended(lines: seq<string>)
    requires lines != []
    ensures lines == [lines[0]] + lines[1..] && lines + [""] == [lines[0]] + (lines[1..] + [""])
  {
  }

  lemma PlainRunWithBlank(line: string, tail: seq<string>, section: string, w: World)
    requires w.Closed() && !IsHeader(line)
    requires var here := SectionAfter(line, section);
             RewriteFrom(tail + [""], here, w) == WithBlank(RewriteFrom(tail, here, w))
    ensures RewriteFrom([line] + (tail + [""]), section, w) == WithBlank(RewriteFrom([line] + tail, section, w))
  {
    PlainLine(line, tail, section, w);
    PlainLine(line, tail + [""], section, w);
    ThenBlank(Output([line], []), RewriteFrom(tail, SectionAfter(line, section), w));
  }

  lemma {:induction false} TableRunWithBlank(lines: seq<string>, section: string, w: World)
    requires w.Closed() && lines != [] && IsHeader(lines[0])
    ensures RewriteFrom(lines + [""], section, w) == WithBlank(RewriteFrom(lines, section, w))
    decreases |lines|, 0
  {
    var more := lines + [""];
    var n, from := TableSpan(lines), RowsFrom(lines);
    var rows, tail := lines[from..n], lines[n..];
    HeaderFacts(lines[0]);
    TableWithBlank(lines);
    Appended(lines, n, from);
    if KeysOf(section, w) == [] {
      RewriteBlock(lines, section, w, lines[..n], tail);
      RewriteBlock(more, section, w, lines[..n], tail + [""]);
      RunWithBlank(tail, section, w);
      ThenBlank(Output(lines[..n], [LeftAsWritten(section)]), RewriteFrom(tail, section, w));
    } else {
      TableStep(lines, rows, tail, section, w);
      TableStep(more, rows, tail + [""], section, w);
      RunWithBlank(tail, "", w);
      var table := Table(KeysOf(section, w), rows, w);
      if table.Ok? {
        ThenBlank(table.value, RewriteFrom(tail, "", w));
      }
    }
  }

  lemma Appended(lines: seq<string>, n: nat, from: nat)
    requires lines != [] && from <= n <= |lines|
    ensures var more := lines + [""];
            && more[0] == lines[0] && more[n..] == lines[n..] + [""]
            && more[..n] == lines[..n] && more[from..n] == lines[from..n]
  {
  }

  // ---- the fixed point of a text ----

  /** Joining keeps lists of unbroken lines apart. */
  lemma JoinApart(a: seq<string>, b: seq<string>)
    requires AllUnbroken(a) && AllUnbroken(b) && |a| == |b| && a != []
    ensures Join(a, "\n") + "\n" == Join(b, "\n") + "\n" <==> a == b
    ensures Join(a, "\n") == Join(b, "\n") <==> a == b
  {
    JoinedLines(a, true);
    JoinedLines(b, true);
  }

  lemma NoneEmpty(lines: seq<string>, section: string, w: World)
    requires w.Closed() && RewriteFrom(lines, section, w).Ok?
    ensures RewriteFrom(lines, section, w).value.lines == [] ==> lines == []
  {
    if lines != [] && IsHeader(lines[0]) {
      HeaderFacts(lines[0]);
      if KeysOf(section, w) == [] {
        RewriteBlock(lines, section, w, lines[..TableSpan(lines)], lines[TableSpan(lines)..]);
      } else {
        RewriteTableIs(lines, section, w, lines[RowsFrom(lines)..TableSpan(lines)], lines[TableSpan(lines)..]);
      }
    }
  }

  /** How a written list of lines reads when its text does not end its last line. */
  lemma {:induction false} JoinBlank(lines: seq<string>)
    requires lines != []
    ensures Join(lines + [""], "\n") == Join(lines, "\n") + "\n"
  {
    if |lines| == 1 {
      assert (lines + [""])[1..] == [""];
      assert Join([""], "\n") == "";
    } else {
      assert (lines + [""])[1..] == lines[1..] + [""];
      JoinBlank(lines[1..]);
      assert lines[0] + "\n" + (Join(lines[1..], "\n") + "\n") == lines[0] + "\n" + Join(lines[1..], "\n") + "\n";
    }
  }

  function Tail(text: string): string {
    if EndsWith(text, "\n") then "\n" else ""
  }

  lemma RewriteIs(text: string, w: World, lines: seq<string>, out: Output)
    requires w.Closed() && SplitLines(text) == lines && RewriteFrom(lines, "", w) == Ok(out)
    ensures Rewrite(text, w) == Ok(Join(out.lines, "\n") + Tail(text))
  {
  }

  lemma {:induction false} JoinLast(lines: seq<string>)
    requires AllUnbroken(lines) && lines != [] && lines[|lines| - 1] != ""
    ensures !EndsWith(Join(lines, "\n"), "\n")
  {
    if |lines| == 1 {
      var last := lines[0];
      assert last[|last| - 1] in last;
    } else {
      JoinLast(lines[1..]);
      var rest := Join(lines[1..], "\n");
      assert rest != "";
      assert Join(lines, "\n")[|Join(lines, "\n")| - 1] == rest[|rest| - 1];
      assert rest[|rest| - 1..] == [rest[|rest| - 1]];
    }
  }

  lemma TerminatedAgain(text: string, w: World, first: seq<string>, again: Output, settled: bool)
    requires w.Closed() && AllUnbroken(first) && AllUnbroken(again.lines) && first != []
    requires RewriteFrom(first, "", w) == Ok(again) && |again.lines| == |first|
    requires text == Join(first, "\n") + "\n" && (again.lines == first <==> settled)
    ensures Rewrite(text, w).Ok? && (Rewrite(text, w).value == text <==> settled)
  {
    JoinedLines(first, true);
    assert text[|text| - 1..] == "\n";
    RewriteIs(text, w, first, again);
    JoinApart(again.lines, first);
  }

  lemma OpenAgain(text: string, w: World, first: seq<string>, again: Output, settled: bool)
    requires w.Closed() && AllUnbroken(first) && AllUnbroken(again.lines) && first != []
    requires RewriteFrom(first, "", w) == Ok(again) && |again.lines| == |first| && first[|first| - 1] != ""
    requires text == Join(first, "\n") && (again.lines == first <==> settled)
    ensures Rewrite(text, w).Ok? && (Rewrite(text, w).value == text <==> settled)
  {
    JoinedLines(first, false);
    assert text + "" == text;
    JoinLast(first);
    RewriteIs(text, w, first, again);
    assert Join(again.lines, "\n") + "" == Join(again.lines, "\n");
    JoinApart(again.lines, first);
  }

  lemma EmptyText(w: World)
    requires w.Closed()
    ensures Rewrite("", w) == Ok("")
  {
    assert RewriteFrom([], "", w) == Ok(Output([], []));
    RewriteIs("", w, [], Output([], []));
    assert Join([], "\n") + Tail("") == "";
  }

  lemma BlankCancels(a: seq<string>, b: seq<string>)
    ensures a + [""] == b + [""] <==> a == b
  {
    if a + [""] == b + [""] {
      assert a == (a + [""])[..|a|] && b == (b + [""])[..|b|];
    }
  }

  /** The written text ends in an empty, unterminated line: the next run sees one line less, and an ended text. */
  lemma BlankAgain(text: string, w: World, first: seq<string>, init: seq<string>, again: Output, settled: bool)
    requires w.Closed() && AllUnbroken(first) && AllUnbroken(again.lines) && first == init + [""]
    requires RewriteFrom(first, "", w) == Ok(again) && |again.lines| == |first|
    requires text == Join(first, "\n") && (again.lines == first <==> settled)
    ensures Rewrite(text, w).Ok? && (Rewrite(text, w).value == text <==> settled)
  {
    RunWithBlank(init, "", w);
    if init == [] {
      assert text == "";
      EmptyText(w);
      assert RewriteFrom([], "", w) == Ok(Output([], []));
    } else {
      BlankTail(text, w, init, RewriteFrom(init, "", w).value, settled);
    }
  }

  lemma InitUnbroken(init: seq<string>)
    requires AllUnbroken(init + [""])
    ensures AllUnbroken(init)
  {
    assert forall i :: 0 <= i < |init| ==> init[i] == (init + [""])[i];
  }

  lemma BlankTail(text: string, w: World, init: seq<string>, second: Output, settled: bool)
    requires w.Closed() && init != [] && AllUnbroken(init + [""]) && AllUnbroken(second.lines + [""])
    requires RewriteFrom(init, "", w) == Ok(second) && |second.lines| == |init|
    requires text == Join(init + [""], "\n") && (second.lines + [""] == init + [""] <==> settled)
    ensures Rewrite(text, w).Ok? && (Rewrite(text, w).value == text <==> settled)
  {
    InitUnbroken(init);
    InitUnbroken(second.lines);
    BlankCancels(second.lines, init);
    JoinBlank(init);
    TerminatedAgain(text, w, init, second, settled);
  }

  function WithoutLast(lines: seq<string>): (init: seq<string>)
    requires lines != []
    ensures lines == init + [lines[|lines| - 1]]
  {
    lines[..|lines| - 1]
  }

  lemma WrittenTextAgain(once: string, w: World, first: seq<string>, again: Output, settled: bool, ended: bool)
    requires w.Closed() && AllUnbroken(first) && AllUnbroken(again.lines) && (ended ==> first != [])
    requires RewriteFrom(first, "", w) == Ok(again) && |again.lines| == |first|
    requires once == Join(first, "\n") + (if ended then "\n" else "") && (again.lines == first <==> settled)
    ensures Rewrite(once, w).Ok? && (Rewrite(once, w).value == once <==> settled)
  {
    if ended {
      TerminatedAgain(once, w, first, again, settled);
    } else {
      assert once == Join(first, "\n");
      if first == [] {
        EmptyText(w);
      } else if first[|first| - 1] != "" {
        OpenAgain(once, w, first, again, settled);
      } else {
        BlankAgain(once, w, first, WithoutLast(first), again, settled);
      }
    }
  }

  /**
    Running on what a run wrote never fails, and gives the same text exactly when every
    row of every table was settled; for any text, any line endings, any last line.
   */
  lemma TextAgain(text: string, w: World)
    requires CleanWorld(w) && UnbrokenHeadings(w.headings) && Rewrite(text, w).Ok?
    ensures var once := Rewrite(text, w).value;
            && Rewrite(once, w).Ok?
            && (Rewrite(once, w).value == once <==> Settled(SplitLines(text), "", w))
  {
    var lines := SplitLines(text);
    var first := RewriteFrom(lines, "", w).value.lines;
    var settled := Settled(lines, "", w);
    RunAgain(lines, "", w);
    SplitLinesUnbroken(text);
    WrittenUnbroken(lines, "", w);
    WrittenUnbroken(first, "", w);
    NoneEmpty(lines, "", w);
    var again := RewriteFrom(first, "", w).value;
    var once := Rewrite(text, w).value;
    RewriteIs(text, w, lines, RewriteFrom(lines, "", w).value);
    WrittenTextAgain(once, w, first, again, settled, EndsWith(text, "\n"));
  }
}
