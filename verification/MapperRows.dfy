/** A written row read back: its key, its cells, and what a second run makes of it. */
module MapperRows {
  import opened Wrappers
  import opened Text
  import opened ApiMap
  import opened ApiMapTheorems
  import opened Mapper

  // ---- rows ----

  function Pad(s: string): string {
    " " + s + " "
  }

  function Inner(cells: seq<string>): string {
    if cells == [] then Pad("")
    else if |cells| == 1 then Pad(cells[0])
    else Pad(cells[0]) + ['|'] + Inner(cells[1..])
  }

  lemma {:induction false} RowIsInner(cells: seq<string>)
    ensures Pad(Join(cells, " | ")) == Inner(cells)
  {
    if |cells| > 1 {
      RowIsInner(cells[1..]);
      var rest := Join(cells[1..], " | ");
      assert Pad(cells[0] + " | " + rest) == Pad(cells[0]) + ['|'] + Pad(rest);
    }
  }

  lemma PadFacts(s: string)
    ensures Strip(Pad(s)) == Strip(s)
    ensures '|' in Pad(s) <==> '|' in s
  {
    TrimPadded(" ", s, " ", IsSpace);
    InConcat('|', " " + s, " ");
    InConcat('|', " ", s);
  }

  lemma {:induction false} SplitPadRight(s: string)
    ensures Split(s + " ", '|')[0] == Split(s, '|')[0] + if '|' in s then "" else " "
  {
    if s != [] {
      assert (s + " ")[1..] == s[1..] + " ";
      SplitPadRight(s[1..]);
    } else {
      assert Split("" + " ", '|')[0] == " ";
    }
  }

  /** Padding does not show in the first piece. */
  lemma PadSplit(s: string)
    ensures Strip(Split(Pad(s), '|')[0]) == ReadBack(s)
  {
    var piece := Split(s, '|')[0];
    var tail := if '|' in s then "" else " ";
    SplitPadRight(s);
    assert Pad(s)[1..] == s + " ";
    assert Split(Pad(s), '|')[0] == " " + piece + tail;
    TrimPadded(" ", piece, tail, IsSpace);
  }

  function Parts(cells: seq<string>): seq<string>
    requires cells != []
  {
    if |cells| == 1 then Split(Pad(cells[0]), '|') else [Pad(cells[0])] + Parts(cells[1..])
  }

  lemma {:induction false} SplitInner(cells: seq<string>)
    requires cells != [] && forall i :: 0 <= i < |cells| - 1 ==> '|' !in cells[i]
    ensures Split(Inner(cells), '|') == Parts(cells)
  {
    if |cells| > 1 {
      PadFacts(cells[0]);
      SplitFirst(Pad(cells[0]), Inner(cells[1..]), '|');
      SplitInner(cells[1..]);
    }
  }

  lemma RowTrimmed(cells: seq<string>)
    ensures Trim(Strip(Row(cells)), IsBar) == Inner(cells)
  {
    var inner := Pad(Join(cells, " | "));
    RowIsInner(cells);
    assert Row(cells) == "|" + inner + "|";
    assert Row(cells)[|Row(cells)| - 1] == '|';
    TrimIsTrimmed(Row(cells), IsSpace);
    TrimPast("|", inner, "|", IsBar);
  }

  function AsRead(cells: seq<string>, i: nat): string
    requires i < |cells|
  {
    if i == |cells| - 1 then ReadBack(cells[i]) else Strip(cells[i])
  }

  lemma {:induction false} PartsCount(cells: seq<string>)
    requires cells != []
    ensures |Parts(cells)| >= |cells|
  {
    if |cells| > 1 {
      PartsCount(cells[1..]);
    }
  }

  lemma {:induction false} PartAt(cells: seq<string>, i: nat)
    requires i < |cells|
    ensures i < |Parts(cells)|
    ensures Parts(cells)[i] == if i == |cells| - 1 then Split(Pad(cells[i]), '|')[0] else Pad(cells[i])
  {
    if i > 0 {
      PartAt(cells[1..], i - 1);
    }
  }

  lemma PartRead(cells: seq<string>, i: nat)
    requires i < |cells|
    ensures i < |Parts(cells)| && Strip(Parts(cells)[i]) == AsRead(cells, i)
  {
    PartAt(cells, i);
    if i == |cells| - 1 {
      PadSplit(cells[i]);
    } else {
      PadFacts(cells[i]);
    }
  }

  /** A row reads back cell by cell; only its last cell may have had a bar, and is then cut there. */
  lemma CellsOfRow(cells: seq<string>, i: nat)
    requires i < |cells| && forall j :: 0 <= j < |cells| - 1 ==> '|' !in cells[j]
    ensures |Cells(Row(cells))| >= |cells|
    ensures Cells(Row(cells))[i] == AsRead(cells, i)
  {
    RowTrimmed(cells);
    SplitInner(cells);
    PartsCount(cells);
    PartRead(cells, i);
  }

  lemma {:induction false} StrippedHasNoBar(s: string)
    requires '|' !in s
    ensures '|' !in Strip(s)
  {
    TrimIsTrimmed(s, IsSpace);
  }

  /** Cells never have bars, and are trimmed. */
  lemma CellsAreClean(row: string, i: nat)
    requires i < |Cells(row)|
    ensures '|' !in Cells(row)[i] && Strip(Cells(row)[i]) == Cells(row)[i]
  {
    var part := Split(Trim(Strip(row), IsBar), '|')[i];
    SplitFacts(Trim(Strip(row), IsBar), '|', i);
    StrippedHasNoBar(part);
    StripTwice(part);
  }

  // ---- keys ----

  const METHODS: seq<string> := ["get", "post", "put", "patch", "delete"]

  /** A served operation: a known method, and a path with neither white space nor a bar. */
  predicate Proper(key: Key) {
    key.0 in METHODS && key.1 != "" && '|' !in key.1 && forall i :: 0 <= i < |key.1| ==> !IsSpace(key.1[i])
  }

  predicate IsLetter(c: char) { 'a' <= c <= 'z' }

  lemma MethodIsLetters(m: string)
    requires m in METHODS
    ensures m != "" && All(m, IsLetter)
  {
  }

  lemma UpperFacts(m: string)
    requires All(m, IsLetter)
    ensures Lower(Upper(m)) == m
    ensures All(Upper(m), IsWord) && '|' !in Upper(m)
  {
  }

  lemma {:induction false} FirstWordWhole(s: string)
    requires forall i :: 0 <= i < |s| ==> !IsSpace(s[i])
    ensures FirstWord(s) == s
  {
    if s != [] {
      FirstWordWhole(s[1..]);
    }
  }

  lemma TickAfter(path: string)
    requires path != "" && forall i :: 0 <= i < |path| ==> !IsSpace(path[i])
    ensures FirstWord(path + "`") == path + "`"
    ensures LastTick(path + "`") == |path|
  {
    FirstWordWhole(path + "`");
  }

  lemma WordThen(word: string, rest: string)
    requires All(word, IsWord) && rest != "" && !IsWord(rest[0])
    ensures TrimLeft(("`" + word + rest)[1..], IsWord) == rest
    ensures ("`" + word + rest)[1..|"`" + word + rest| - |rest|] == word
  {
    assert ("`" + word + rest)[1..] == word + rest;
    TrimLeftPast(word, rest, IsWord);
  }

  lemma KeyParts(cell: string, word: string, run: string, path: string)
    requires cell != "" && cell[0] == '`' && word != ""
    requires TrimLeft(cell[1..], IsWord) == " " + run && |run| + 2 <= |cell|
    requires cell[1..|cell| - |run| - 1] == word
    requires FirstWord(run) == run && LastTick(run) == |path| && path != "" && run == path + "`"
    ensures KeyOf(cell) == Some((Lower(word), path))
  {
    assert (" " + run)[1..] == run;
    assert run[..|path|] == path;
  }

  lemma KeyRead(word: string, path: string)
    requires word != "" && All(word, IsWord)
    requires path != "" && forall i :: 0 <= i < |path| ==> !IsSpace(path[i])
    ensures KeyOf("`" + word + " " + path + "`") == Some((Lower(word), path))
  {
    var cell := "`" + word + " " + path + "`";
    var run := path + "`";
    TickAfter(path);
    WordThen(word, " " + run);
    CellIs(word, path);
    KeyParts(cell, word, run, path);
  }

  lemma CellIs(word: string, path: string)
    ensures "`" + word + " " + path + "`" == "`" + word + (" " + (path + "`"))
  {
  }

  /** The first cell of a written row quotes the row's own operation. */
  lemma OperationRead(key: Key)
    requires Proper(key)
    ensures '|' !in OperationCell(key)
    ensures KeyOf(Strip(OperationCell(key))) == Some(key)
  {
    MethodIsLetters(key.0);
    UpperFacts(key.0);
    KeyRead(Upper(key.0), key.1);
    var cell := OperationCell(key);
    assert cell[0] == '`' && cell[|cell| - 1] == '`';
    TrimIsTrimmed(cell, IsSpace);
    OperationHasNoBar(Upper(key.0), key.1);
  }

  lemma OperationHasNoBar(word: string, path: string)
    requires '|' !in word && '|' !in path
    ensures '|' !in "`" + word + " " + path + "`"
  {
    InConcat('|', "`" + word + " " + path, "`");
    InConcat('|', "`" + word + " ", path);
    InConcat('|', "`" + word, " ");
    InConcat('|', "`", word);
  }

  // ---- one row, twice ----

  /** Derived cells without bars or line breaks. */
  predicate Plain(fact: Fact) {
    && '|' !in fact.handler && '|' !in fact.operationId && '|' !in fact.success
    && Unbroken(fact.handler) && Unbroken(fact.operationId) && Unbroken(fact.success)
  }

  lemma DerivedHaveNoBar(fact: Fact)
    requires Plain(fact)
    ensures '|' !in HandlerCell(fact) && '|' !in AnchorCell(fact)
  {
    InConcat('|', "`" + fact.handler + "` :", Decimal(fact.line));
    InConcat('|', "`" + fact.handler, "` :");
    InConcat('|', "`", fact.handler);
    InConcat('|', "`" + fact.operationId, "`");
    InConcat('|', "`", fact.operationId);
  }

  /** Bold is kept once and for all. */
  lemma KeepBoldTwice(derived: string, existing: Option<string>)
    requires '|' !in derived
    requires existing.Some? ==> '|' !in existing.value && Strip(existing.value) == existing.value
    ensures '|' !in KeepBold(derived, existing)
    ensures KeepBold(derived, Some(Strip(KeepBold(derived, existing)))) == KeepBold(derived, existing)
  {
    var once := KeepBold(derived, existing);
    StripTwice(once);
    var again := Strip(once);
    if existing.Some? && existing.value != "" && Strip(Unbold(existing.value)) == derived {
      assert once == existing.value;
    } else {
      assert once == derived;
      if again != "" && Strip(Unbold(again)) == derived {
        StripTwice(Unbold(again));
      }
    }
  }

  /** The old cells a row may have been given: trimmed and without bars, as `Cells` leaves them. */
  ghost predicate CleanCells(was: Option<seq<string>>) {
    was.Some? ==> forall i :: 0 <= i < |was.value| ==> '|' !in was.value[i] && Strip(was.value[i]) == was.value[i]
  }

  function RowCells(key: Key, fact: Fact, was: Option<seq<string>>, headings: seq<Heading>): seq<string>
    requires was.Some? ==> |was.value| >= 5
  {
    [OperationCell(key), HandlerCell(fact), AnchorCell(fact),
     KeepBold(fact.success, CellAt(was, 3)), ApiCell(CellAt(was, 4), key.1, headings)]
  }

  lemma CellsReread(cells: seq<string>, key: Key)
    requires |cells| == 5 && cells[0] == OperationCell(key) && Proper(key)
    requires forall i :: 0 <= i < 4 ==> '|' !in cells[i]
    ensures var read := Cells(Row(cells));
            |read| >= 5 && KeyOf(read[0]) == Some(key) && read[3] == Strip(cells[3]) && read[4] == ReadBack(cells[4])
  {
    CellsOfRow(cells, 0);
    CellsOfRow(cells, 3);
    CellsOfRow(cells, 4);
    OperationRead(key);
  }

  lemma RowCellsAreClean(key: Key, fact: Fact, was: Option<seq<string>>, headings: seq<Heading>)
    requires Proper(key) && Plain(fact) && CleanCells(was) && (was.Some? ==> |was.value| >= 5)
    ensures forall i :: 0 <= i < 4 ==> '|' !in RowCells(key, fact, was, headings)[i]
  {
    var cells := RowCells(key, fact, was, headings);
    OperationRead(key);
    DerivedHaveNoBar(fact);
    KeepBoldTwice(fact.success, CellAt(was, 3));
    FourClean(cells, cells[0], cells[1], cells[2], cells[3]);
  }

  lemma FourClean(cells: seq<string>, a: string, b: string, c: string, d: string)
    requires |cells| == 5 && cells[..4] == [a, b, c, d]
    requires '|' !in a && '|' !in b && '|' !in c && '|' !in d
    ensures forall i :: 0 <= i < 4 ==> '|' !in cells[i]
  {
    assert cells[0] == cells[..4][0] && cells[1] == cells[..4][1] && cells[2] == cells[..4][2] && cells[3] == cells[..4][3];
  }

  /** A written row names its operation, and is long enough to be taken over again. */
  lemma RowReread(key: Key, fact: Fact, was: Option<seq<string>>, headings: seq<Heading>)
    requires Proper(key) && Plain(fact) && CleanCells(was) && (was.Some? ==> |was.value| >= 5)
    ensures var cells := RowCells(key, fact, was, headings);
            var read := Cells(Row(cells));
            |read| >= 5 && KeyOf(read[0]) == Some(key) && read[3] == Strip(cells[3]) && read[4] == ReadBack(cells[4])
  {
    RowCellsAreClean(key, fact, was, headings);
    CellsReread(RowCells(key, fact, was, headings), key);
  }

  lemma RowLast(a: string, b: string, c: string, d: string, x: string)
    ensures Row([a, b, c, d, x]) == "| " + a + " | " + b + " | " + c + " | " + d + " | " + x + " |"
  {
    var glue := " | ";
    assert [a, b, c, d, x][1..] == [b, c, d, x];
    assert [b, c, d, x][1..] == [c, d, x];
    assert [c, d, x][1..] == [d, x];
    assert [d, x][1..] == [x];
    assert Join([x], glue) == x;
    assert Join([d, x], glue) == d + glue + x;
    assert Join([c, d, x], glue) == c + glue + Join([d, x], glue);
    assert Join([b, c, d, x], glue) == b + glue + Join([c, d, x], glue);
    assert Join([a, b, c, d, x], glue) == a + glue + Join([b, c, d, x], glue);
  }

  lemma Cancel(a: string, x: string, y: string, b: string)
    ensures a + x + b == a + y + b <==> x == y
  {
    if a + x + b == a + y + b {
      assert (a + x + b)[|a|..|a| + |x|] == x;
      assert |x| == |y|;
      assert (a + y + b)[|a|..|a| + |y|] == y;
    }
  }

  lemma RowsDiffer(a: string, b: string, c: string, d: string, x: string, y: string)
    ensures Row([a, b, c, d, x]) == Row([a, b, c, d, y]) <==> x == y
  {
    RowLast(a, b, c, d, x);
    RowLast(a, b, c, d, y);
    Cancel("| " + a + " | " + b + " | " + c + " | " + d + " | ", x, y, " |");
  }

  /** The second run writes the row again exactly when the row's reference cell is settled. */
  lemma RowAgain(key: Key, fact: Fact, was: Option<seq<string>>, headings: seq<Heading>)
    requires Proper(key) && Plain(fact) && CleanCells(was) && (was.Some? ==> |was.value| >= 5)
    ensures var row := RowFor(key, fact, was, headings).value;
            var again := RowFor(key, fact, Some(Cells(row)), headings);
            again.Ok? && (again.value == row <==> Settles(CellAt(was, 4), key.1, headings))
  {
    var cells := RowCells(key, fact, was, headings);
    var read := Cells(Row(cells));
    RowReread(key, fact, was, headings);
    KeepBoldTwice(fact.success, CellAt(was, 3));
    CellSettlesExactly(CellAt(was, 4), key.1, headings);
    RowsDiffer(cells[0], cells[1], cells[2], cells[3], ApiCell(Some(read[4]), key.1, headings), cells[4]);
  }
}
