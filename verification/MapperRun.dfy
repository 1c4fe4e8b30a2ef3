/** The run in the code's own form: loops over lines, rows and operations. */
module MapperRun {
  import opened Wrappers
  import opened Text
  import opened ApiMap
  import opened Mapper
  import opened MapperRows
  import opened MapperTables
  import opened MapperTheorems
  import opened MapperText
  import opened MapperKeeps
  import opened MapperBuild

  lemma {:induction false} MappedSnoc(f: string -> Entry, rows: seq<string>, row: string)
    ensures Mapped(f, rows + [row]) == Mapped(f, rows) + [f(row)]
  {
    if rows != [] {
      assert (rows + [row])[1..] == rows[1..] + [row];
      MappedSnoc(f, rows[1..], row);
    } else {
      assert rows + [row] == [row];
      assert Mapped(f, []) == [];
    }
  }

  lemma CollectSnoc(entries: seq<Entry>, e: Entry)
    ensures Collect(entries + [e]) == (if e.key.Some? then Collect(entries)[e.key.value := e.cells] else Collect(entries))
    ensures KeysRead(entries + [e]) == KeysRead(entries) + (if e.key.Some? then [e.key.value] else [])
  {
    assert (entries + [e])[..|entries|] == entries;
  }

  lemma ReadSnoc(rows: seq<string>, row: string, e: Entry)
    requires e == ReadRow(row)
    ensures OldRows(rows + [row]) == (if e.key.Some? then OldRows(rows)[e.key.value := e.cells] else OldRows(rows))
    ensures OldOrder(rows + [row]) == OldOrder(rows) + (if e.key.Some? then [e.key.value] else [])
  {
    MappedSnoc(ReadRow, rows, row);
    CollectSnoc(ReadAll(rows), e);
  }

  lemma SliceSnoc(lines: seq<string>, from: nat, index: nat)
    requires from <= index < |lines|
    ensures lines[from..index + 1] == lines[from..index] + [lines[index]]
  {
  }

  lemma SliceEvery(lines: seq<string>, from: nat, index: nat, kind: string -> bool)
    requires from <= index < |lines| && Every(lines[from..index], kind) && kind(lines[index])
    ensures Every(lines[from..index + 1], kind)
  {
    SliceSnoc(lines, from, index);
  }

  lemma SpanReached(lines: seq<string>, from: nat, index: nat, kind: string -> bool)
    requires from <= index <= |lines| && Every(lines[from..index], kind)
    requires index < |lines| ==> !kind(lines[index])
    ensures index == from + Span(lines[from..], kind)
  {
    assert lines[from..] == lines[from..index] + lines[index..];
    SpanIs(lines[from..index], lines[index..], kind);
  }

  /** The rows of a table: every barred line, keyed by the operation it quotes. */
  method ReadRows(lines: seq<string>, from: nat) returns (had: Rows, order: seq<Key>, index: nat)
    requires from <= |lines|
    ensures index == from + Span(lines[from..], IsBarred)
    ensures had == OldRows(lines[from..index]) && order == OldOrder(lines[from..index])
  {
    hide ReadRow, Span, IsBarred;
    had, order, index := map[], [], from;
    assert lines[from..from] == [];
    while index < |lines| && IsBarred(lines[index])
      invariant from <= index <= |lines|
      invariant Every(lines[from..index], IsBarred)
      invariant had == OldRows(lines[from..index]) && order == OldOrder(lines[from..index])
    {
      SliceEvery(lines, from, index, IsBarred);
      SliceSnoc(lines, from, index);
      var entry := ReadRow(lines[index]);
      ReadSnoc(lines[from..index], lines[index], entry);
      if entry.key.Some? {
        had := had[entry.key.value := entry.cells];
        order := order + [entry.key.value];
      }
      index := index + 1;
    }
    SpanReached(lines, from, index, IsBarred);
  }

  lemma {:induction false} FailureStays(keys: seq<Key>, had: Rows, w: World, i: nat)
    requires forall j :: 0 <= j < |keys| ==> keys[j] in w.facts
    requires i <= |keys| && TableRows(keys[..i], had, w).Err?
    ensures TableRows(keys, had, w) == TableRows(keys[..i], had, w)
    decreases |keys|
  {
    hide RowOf;
    if i < |keys| {
      var n := |keys| - 1;
      assert keys[..n][..i] == keys[..i];
      FailureStays(keys[..n], had, w, i);
    } else {
      assert keys[..i] == keys;
    }
  }

  /** The old rows one operation takes over. */
  function Taken(had: Rows, key: Key): set<Key> {
    var c := Candidate(had, key);
    if c.Some? then {c.value} else {}
  }

  lemma MatchedSnoc(keys: seq<Key>, had: Rows, key: Key)
    ensures Matched(keys + [key], had) == Matched(keys, had) + Taken(had, key)
  {
    var more := keys + [key];
    forall k | k in Matched(keys, had) ensures k in Matched(more, had) {
      var i :| 0 <= i < |keys| && Candidate(had, keys[i]).Some? && k == Candidate(had, keys[i]).value;
      assert more[i] == keys[i];
    }
    forall k | k in Taken(had, key) ensures k in Matched(more, had) {
      assert more[|keys|] == key;
    }
  }

  lemma NoneMatched(had: Rows)
    ensures Matched([], had) == {}
  {
  }

  /** One table: a row for every operation, then what was dropped and what was added. */
  method WriteTable(keys: seq<Key>, had: Rows, order: seq<Key>, w: World) returns (r: Result<Output, Failure>)
    requires forall i :: 0 <= i < |keys| ==> keys[i] in w.facts
    ensures r == TableOf(keys, had, order, w)
  {
    hide RowFor, Previous, Candidate, Matched;
    var rows, matched := [], {};
    assert Matched(keys[..0], had) == {} by { NoneMatched(had); }
    var i := 0;
    while i < |keys|
      invariant i <= |keys|
      invariant TableRows(keys[..i], had, w) == Ok(rows)
      invariant matched == Matched(keys[..i], had)
    {
      assert keys[..i + 1] == keys[..i] + [keys[i]];
      assert keys[..i + 1][..i] == keys[..i];
      MatchedSnoc(keys[..i], had, keys[i]);
      var row := RowFor(keys[i], w.facts[keys[i]], Previous(had, keys[i]), w.headings);
      if row.Err? {
        FailureStays(keys, had, w, i + 1);
        return Err(row.error);
      }
      rows := rows + [row.value];
      matched := matched + Taken(had, keys[i]);
      i := i + 1;
    }
    assert keys[..i] == keys;
    var dropped := Dropouts(order, matched);
    var added := Additions(keys, had);
    r := Ok(Output([HEADER, RULE] + rows, dropped + added));
  }

  method Dropouts(order: seq<Key>, matched: set<Key>) returns (notes: seq<Note>)
    ensures notes == DroppedNotes(order, matched)
  {
    notes := [];
    var i := 0;
    while i < |order|
      invariant i <= |order| && notes == DroppedNotes(order[..i], matched)
    {
      assert order[..i + 1][..i] == order[..i];
      if order[i] !in matched {
        notes := notes + [Dropped(order[i])];
      }
      i := i + 1;
    }
    assert order[..i] == order;
  }

  method Additions(keys: seq<Key>, had: Rows) returns (notes: seq<Note>)
    ensures notes == AddedNotes(keys, had)
  {
    notes := [];
    var i := 0;
    while i < |keys|
      invariant i <= |keys| && notes == AddedNotes(keys[..i], had)
    {
      assert keys[..i + 1][..i] == keys[..i];
      if keys[i] !in had && (keys[i].0, Camel(keys[i].1)) !in had {
        notes := notes + [Added(keys[i])];
      }
      i := i + 1;
    }
    assert keys[..i] == keys;
  }

  // ---- the whole document ----

  lemma ThenThen(a: Output, b: Output, rest: Result<Output, Failure>)
    ensures Then(a, Then(b, rest)) == Then(Output(a.lines + b.lines, a.notes + b.notes), rest)
  {
    if rest.Ok? {
      assert a.lines + (b.lines + rest.value.lines) == (a.lines + b.lines) + rest.value.lines;
      assert a.notes + (b.notes + rest.value.notes) == (a.notes + b.notes) + rest.value.notes;
    }
  }

  lemma ThenNothing(a: Output, w: World, section: string)
    requires w.Closed()
    ensures Then(a, RewriteFrom([], section, w)) == Ok(a)
  {
    assert a.lines + [] == a.lines && a.notes + [] == a.notes;
  }

  /** What a whole run gives, when `out` is written and `lines` are still to come. */
  ghost predicate Reaches(all: Result<Output, Failure>, out: Output, lines: seq<string>, section: string, w: World)
    requires w.Closed()
  {
    all == Then(out, RewriteFrom(lines, section, w))
  }

  lemma PlainStep(all: Result<Output, Failure>, out: Output, lines: seq<string>, section: string, w: World)
    requires w.Closed() && lines != [] && !IsHeader(lines[0]) && Reaches(all, out, lines, section, w)
    ensures Reaches(all, Output(out.lines + [lines[0]], out.notes), lines[1..], SectionAfter(lines[0], section), w)
  {
    PlainLineOf(lines, section, w);
    var rest := RewriteFrom(lines[1..], SectionAfter(lines[0], section), w);
    ThenThen(out, Output([lines[0]], []), rest);
    NoNotes(out.notes);
  }

  lemma NoNotes(notes: seq<Note>)
    ensures notes + [] == notes
  {
  }

  lemma PlainLineOf(lines: seq<string>, section: string, w: World)
    requires w.Closed() && lines != [] && !IsHeader(lines[0])
    ensures RewriteFrom(lines, section, w)
            == Then(Output([lines[0]], []), RewriteFrom(lines[1..], SectionAfter(lines[0], section), w))
  {
  }

  lemma BlockStep(all: Result<Output, Failure>, out: Output, lines: seq<string>, section: string, w: World)
    requires w.Closed() && lines != [] && IsHeader(lines[0]) && Reaches(all, out, lines, section, w)
    requires KeysOf(section, w) == []
    ensures var n := TableSpan(lines);
            Reaches(all, Output(out.lines + lines[..n], out.notes + [LeftAsWritten(section)]), lines[n..], section, w)
  {
    var n := TableSpan(lines);
    HeaderFacts(lines[0]);
    RewriteBlock(lines, section, w, lines[..n], lines[n..]);
    ThenThen(out, Output(lines[..n], [LeftAsWritten(section)]), RewriteFrom(lines[n..], section, w));
  }

  lemma TableDone(all: Result<Output, Failure>, out: Output, lines: seq<string>, section: string, w: World)
    requires w.Closed() && lines != [] && IsHeader(lines[0]) && Reaches(all, out, lines, section, w)
    requires KeysOf(section, w) != []
    ensures var n := TableSpan(lines);
            var table := Table(KeysOf(section, w), lines[RowsFrom(lines)..n], w);
            if table.Err? then all == table
            else Reaches(all, Output(out.lines + table.value.lines, out.notes + table.value.notes), lines[n..], "", w)
  {
    var n := TableSpan(lines);
    var table := Table(KeysOf(section, w), lines[RowsFrom(lines)..n], w);
    HeaderFacts(lines[0]);
    TableStep(lines, lines[RowsFrom(lines)..n], lines[n..], section, w);
    if table.Ok? {
      ThenThen(out, table.value, RewriteFrom(lines[n..], "", w));
    }
  }

  /** What the table at the head of `lines` becomes. */
  function Piece(lines: seq<string>, section: string, w: World): Result<Output, Failure>
    requires w.Closed() && lines != []
  {
    var n := TableSpan(lines);
    if KeysOf(section, w) == [] then Ok(Output(lines[..n], [LeftAsWritten(section)]))
    else Table(KeysOf(section, w), lines[RowsFrom(lines)..n], w)
  }

  lemma PieceStep(all: Result<Output, Failure>, out: Output, lines: seq<string>, section: string, w: World)
    requires w.Closed() && lines != [] && IsHeader(lines[0]) && Reaches(all, out, lines, section, w)
    ensures var piece := Piece(lines, section, w);
            if piece.Err? then all == piece
            else Reaches(all, Output(out.lines + piece.value.lines, out.notes + piece.value.notes),
                         lines[TableSpan(lines)..], if KeysOf(section, w) == [] then section else "", w)
  {
    if KeysOf(section, w) == [] {
      BlockStep(all, out, lines, section, w);
    } else {
      TableDone(all, out, lines, section, w);
    }
  }

  lemma Shifted(lines: seq<string>, index: nat, from: nat, to: nat)
    requires index <= from <= to <= |lines|
    ensures lines[from..to] == lines[index..][from - index..to - index]
    ensures lines[from..] == lines[index..][from - index..]
  {
  }

  lemma RowsFromAt(lines: seq<string>, index: nat, from: nat)
    requires index < |lines|
    requires from == index + if index + 1 < |lines| && IsRule(lines[index + 1]) then 2 else 1
    ensures from == index + RowsFrom(lines[index..])
  {
    assert index + 1 < |lines| ==> lines[index..][1] == lines[index + 1];
  }

  lemma PieceIs(rest: seq<string>, section: string, w: World, rows: seq<string>, block: seq<string>)
    requires w.Closed() && rest != []
    requires rows == rest[RowsFrom(rest)..TableSpan(rest)] && block == rest[..TableSpan(rest)]
    ensures Piece(rest, section, w)
            == if KeysOf(section, w) == [] then Ok(Output(block, [LeftAsWritten(section)]))
               else TableOf(KeysOf(section, w), OldRows(rows), OldOrder(rows), w)
  {
  }

  /** The table at `index`: its rows read, and written again where its section has operations. */
  method TableAt(lines: seq<string>, index: nat, section: string, w: World) returns (piece: Result<Output, Failure>, to: nat)
    requires w.Closed() && index < |lines|
    ensures to == index + TableSpan(lines[index..])
    ensures piece == Piece(lines[index..], section, w)
  {
    ghost var rest := lines[index..];
    var from := index + 1;
    if from < |lines| && IsRule(lines[from]) {
      from := from + 1;
    }
    RowsFromAt(lines, index, from);
    Shifted(lines, index, from, |lines|);
    var had, order, end := ReadRows(lines, from);
    to := end;
    TableSpanIs(rest, from - index, lines[from..]);
    Shifted(lines, index, from, to);
    Shifted(lines, index, index, to);
    PieceIs(rest, section, w, lines[from..to], lines[index..to]);
    var keys := KeysOf(section, w);
    if keys == [] {
      piece := Ok(Output(lines[index..to], [LeftAsWritten(section)]));
    } else {
      piece := WriteTable(keys, had, order, w);
    }
  }

  /** `rewrite`, over lines. */
  method RewriteLines(lines: seq<string>, w: World) returns (r: Result<Output, Failure>)
    requires w.Closed()
    ensures r == RewriteFrom(lines, "", w)
  {
    ghost var all := RewriteFrom(lines, "", w);
    var out := Output([], []);
    var index, section := 0, "";
    assert Reaches(all, out, lines[0..], section, w) by {
      assert lines[0..] == lines;
      Started(all);
    }
    while index < |lines|
      invariant index <= |lines|
      invariant Reaches(all, out, lines[index..], section, w)
      decreases |lines| - index
    {
      var line := lines[index];
      assert lines[index..][0] == line && lines[index..][1..] == lines[index + 1..];
      if !IsHeader(line) {
        PlainStep(all, out, lines[index..], section, w);
        section := SectionAfter(line, section);
        out := Output(out.lines + [line], out.notes);
        index := index + 1;
      } else {
        PieceStep(all, out, lines[index..], section, w);
        var piece, to := TableAt(lines, index, section, w);
        if piece.Err? {
          return piece;
        }
        Shifted(lines, index, to, |lines|);
        out := Output(out.lines + piece.value.lines, out.notes + piece.value.notes);
        section := if KeysOf(section, w) == [] then section else "";
        index := to;
      }
    }
    assert lines[index..] == [];
    ThenNothing(out, w, section);
    r := Ok(out);
  }

  lemma Started(all: Result<Output, Failure>)
    ensures all == Then(Output([], []), all)
  {
    if all.Ok? {
      assert [] + all.value.lines == all.value.lines && [] + all.value.notes == all.value.notes;
    }
  }

  /** The whole script: read the reference, build the tables, write the document again. */
  method Regenerate(text: string, apiMd: string, live: seq<Route>, spec: Spec) returns (r: Result<string, Failure>)
    ensures r == Rewrite(text, BuiltWorld(live, spec, Headings(SplitLines(apiMd), 1)))
  {
    var w := Build(live, spec, Headings(SplitLines(apiMd), 1));
    var out := RewriteLines(SplitLines(text), w);
    if out.Err? {
      return Err(out.error);
    }
    r := Ok(Join(out.value.lines, "\n") + if EndsWith(text, "\n") then "\n" else "");
  }

  lemma {:induction false} HeadingsUnbroken(lines: seq<string>, number: nat)
    requires AllUnbroken(lines)
    ensures UnbrokenHeadings(Headings(lines, number))
  {
    if lines != [] {
      HeadingsUnbroken(lines[1..], number + 1);
      var h := HeadingOf(lines[0], number);
      if h.Some? {
        HeadingUnbroken(lines[0], number);
      }
    }
  }

  lemma HeadingUnbroken(line: string, number: nat)
    requires Unbroken(line) && HeadingOf(line, number).Some?
    ensures Unbroken(HeadingOf(line, number).value.text)
  {
    var rest := line[Hashes(line) + 1..];
    TrimRightFacts(rest, IsSpace);
    forall c | c in rest ensures !IsBreak(c) {
      assert c in line;
    }
    var text := HeadingOf(line, number).value.text;
    assert text <= rest;
    UnbrokenPrefix(text, rest);
  }

  /**
    For any document, any reference and any application, running twice is running once,
    exactly when every row's reference cell is settled; a second run never fails.
   */
  lemma RegenerationSettles(text: string, apiMd: string, live: seq<Route>, spec: Spec)
    requires Registered(live) && PlainSpec(live, spec)
    requires Rewrite(text, BuiltWorld(live, spec, Headings(SplitLines(apiMd), 1))).Ok?
    ensures var w := BuiltWorld(live, spec, Headings(SplitLines(apiMd), 1));
            var once := Rewrite(text, w).value;
            && Rewrite(once, w).Ok?
            && (Rewrite(once, w).value == once <==> Settled(SplitLines(text), "", w))
  {
    var w := BuiltWorld(live, spec, Headings(SplitLines(apiMd), 1));
    BuiltIsClean(live, spec, w.headings);
    SplitLinesUnbroken(apiMd);
    HeadingsUnbroken(SplitLines(apiMd), 1);
    TextAgain(text, w);
  }

  /**
    With headings that are distinct and free of bars, and no row with a second reference, a
    run never fails and the script has reached its fixed point after one run.
   */
  lemma TidyDocumentIsFixed(text: string, apiMd: string, live: seq<Route>, spec: Spec)
    requires Registered(live) && PlainSpec(live, spec)
    requires TidyHeadings(Headings(SplitLines(apiMd), 1)) && Tidy(SplitLines(text))
    ensures var w := BuiltWorld(live, spec, Headings(SplitLines(apiMd), 1));
            && Rewrite(text, w).Ok?
            && Rewrite(Rewrite(text, w).value, w) == Rewrite(text, w)
  {
    var w := BuiltWorld(live, spec, Headings(SplitLines(apiMd), 1));
    TidyRun(SplitLines(text), "", w);
    RegenerationSettles(text, apiMd, live, spec);
  }

  /**
    The lines a run writes: those outside its tables as they were and in order, and in each
    table exactly the specified operations its file serves, once each, by path and method.
   */
  lemma RegenerationIsExact(text: string, live: seq<Route>, spec: Spec, headings: seq<Heading>, t: nat)
    requires Registered(live) && PlainSpec(live, spec)
    requires RewriteFrom(SplitLines(text), "", BuiltWorld(live, spec, headings)).Ok?
    ensures var w := BuiltWorld(live, spec, headings);
            var written := RewriteFrom(SplitLines(text), "", w).value.lines;
            var listed := Listed(written, "", w);
            && Outside(written, "", w) == Outside(SplitLines(text), "", w)
            && |listed| == |Due(SplitLines(text), "", w)|
            && (t < |listed| ==>
                  && Ascending(listed[t].1)
                  && forall key :: key in listed[t].1 <==> IsServed(live, spec, listed[t].0, key))
  {
    var w := BuiltWorld(live, spec, headings);
    BuiltIsClean(live, spec, headings);
    RunKeepsAndLists(SplitLines(text), "", w);
    var due := Due(SplitLines(text), "", w);
    if t < |due| {
      DueIsKeys(SplitLines(text), "", w, t);
      TablesAreComplete(live, spec, headings, due[t].0);
    }
  }

  lemma {:induction false} DueIsKeys(lines: seq<string>, section: string, w: World, t: nat)
    requires t < |Due(lines, section, w)|
    ensures Due(lines, section, w)[t].1 == KeysOf(Due(lines, section, w)[t].0, w)
    decreases |lines|
  {
    var here := SectionAfter(lines[0], section);
    if !IsHeader(lines[0]) {
      DueIsKeys(lines[1..], here, w, t);
    } else {
      var n := TableSpan(lines);
      if KeysOf(here, w) == [] {
        DueIsKeys(lines[n..], here, w, t);
      } else if t > 0 {
        DueIsKeys(lines[n..], "", w, t - 1);
      }
    }
  }
}
