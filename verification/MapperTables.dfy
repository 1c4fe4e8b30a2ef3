/** One table, written and read back. */
module MapperTables {
  import opened Wrappers
  import opened Text
  import opened ApiMap
  import opened ApiMapTheorems
  import opened Mapper
  import opened MapperRows

  ghost predicate Distinct(keys: seq<Key>) {
    forall i, j :: 0 <= i < j < |keys| ==> keys[i] != keys[j]
  }

  /** Operations as a framework serves them: proper, each listed once, and with plain facts. */
  ghost predicate CleanKeys(keys: seq<Key>, w: World) {
    && Distinct(keys)
    && forall i :: 0 <= i < |keys| ==> Proper(keys[i]) && keys[i] in w.facts && Plain(w.facts[keys[i]])
  }

  lemma CellsClean(row: string)
    ensures CleanCells(Some(Cells(row)))
  {
    var cells := Cells(row);
    forall i | 0 <= i < |cells| ensures '|' !in cells[i] && Strip(cells[i]) == cells[i] {
      CellsAreClean(row, i);
    }
  }

  lemma {:induction false} CollectedFrom(entries: seq<Entry>, key: Key) returns (i: nat)
    requires key in Collect(entries)
    ensures i < |entries| && entries[i].key == Some(key) && entries[i].cells == Collect(entries)[key]
  {
    var n := |entries| - 1;
    if entries[n].key == Some(key) {
      i := n;
    } else {
      i := CollectedFrom(entries[..n], key);
    }
  }

  lemma ReadAllAt(rows: seq<string>, i: nat)
    requires i < |rows|
    ensures ReadAll(rows)[i] == ReadRow(rows[i])
  {
  }

  lemma OldRowsClean(rows: seq<string>, key: Key)
    requires key in OldRows(rows)
    ensures CleanCells(Some(OldRows(rows)[key]))
  {
    var i := CollectedFrom(ReadAll(rows), key);
    ReadAllAt(rows, i);
    CellsClean(rows[i]);
  }

  lemma PreviousClean(rows: seq<string>, key: Key)
    ensures CleanCells(Previous(OldRows(rows), key))
  {
    var c := Candidate(OldRows(rows), key);
    if c.Some? {
      OldRowsClean(rows, c.value);
    }
  }

  lemma {:induction false} TableRowsAt(keys: seq<Key>, had: Rows, w: World, i: nat)
    requires forall j :: 0 <= j < |keys| ==> keys[j] in w.facts
    requires TableRows(keys, had, w).Ok? && i < |keys|
    ensures |TableRows(keys, had, w).value| == |keys|
    ensures Ok(TableRows(keys, had, w).value[i]) == RowOf(keys[i], had, w)
  {
    hide RowOf;
    var n := |keys| - 1;
    var most := keys[..n];
    if n > 0 {
      TableRowsAt(most, had, w, if i < n then i else 0);
    } else {
      assert TableRows(most, had, w) == Ok([]);
    }
  }

  lemma {:induction false} TableRowsOk(keys: seq<Key>, had: Rows, w: World)
    requires forall j :: 0 <= j < |keys| ==> keys[j] in w.facts
    requires forall j :: 0 <= j < |keys| ==> RowOf(keys[j], had, w).Ok?
    ensures TableRows(keys, had, w).Ok? && |TableRows(keys, had, w).value| == |keys|
  {
    if keys != [] {
      var most := keys[..|keys| - 1];
      assert forall j :: 0 <= j < |most| ==> most[j] == keys[j];
      TableRowsOk(most, had, w);
    }
  }

  lemma {:induction false} CollectDistinct(entries: seq<Entry>, keys: seq<Key>)
    requires |entries| == |keys| && Distinct(keys)
    requires forall i :: 0 <= i < |keys| ==> entries[i].key == Some(keys[i])
    ensures forall i :: 0 <= i < |keys| ==> keys[i] in Collect(entries) && Collect(entries)[keys[i]] == entries[i].cells
    ensures KeysRead(entries) == keys
  {
    if keys != [] {
      var n := |keys| - 1;
      CollectDistinct(entries[..n], keys[..n]);
      assert keys == keys[..n] + [keys[n]];
      forall i | 0 <= i < n ensures keys[i] in Collect(entries) && Collect(entries)[keys[i]] == entries[i].cells {
        assert keys[..n][i] == keys[i] && entries[..n][i] == entries[i];
      }
    }
  }

  lemma OldRowsOfTable(rows: seq<string>, keys: seq<Key>)
    requires |rows| == |keys| && Distinct(keys)
    requires forall i :: 0 <= i < |keys| ==> ReadRow(rows[i]).key == Some(keys[i])
    ensures forall i :: 0 <= i < |keys| ==> keys[i] in OldRows(rows) && OldRows(rows)[keys[i]] == ReadRow(rows[i]).cells
    ensures OldOrder(rows) == keys
  {
    forall i | 0 <= i < |rows| ensures ReadAll(rows)[i] == ReadRow(rows[i]) {
      ReadAllAt(rows, i);
    }
    CollectDistinct(ReadAll(rows), keys);
  }

  ghost predicate RowSettles(key: Key, had: Rows, w: World) {
    var was := Previous(had, key);
    (was.Some? ==> |was.value| >= 5) && Settles(CellAt(was, 4), key.1, w.headings)
  }

  ghost predicate TableSettles(keys: seq<Key>, rows: seq<string>, w: World) {
    forall i :: 0 <= i < |keys| ==> RowSettles(keys[i], OldRows(rows), w)
  }

  lemma RowAgainIn(key: Key, rows: seq<string>, w: World)
    requires key in w.facts && Proper(key) && Plain(w.facts[key]) && RowOf(key, OldRows(rows), w).Ok?
    ensures var row := RowOf(key, OldRows(rows), w).value;
            && ReadRow(row).key == Some(key)
            && var again := RowFor(key, w.facts[key], Some(Cells(row)), w.headings);
               again.Ok? && (again.value == row <==> RowSettles(key, OldRows(rows), w))
  {
    var was := Previous(OldRows(rows), key);
    PreviousClean(rows, key);
    RowAgain(key, w.facts[key], was, w.headings);
    RowReread(key, w.facts[key], was, w.headings);
  }

  /** What the rows of a written table are, to the next run. */
  lemma WrittenRows(keys: seq<Key>, rows: seq<string>, w: World, written: seq<string>)
    requires CleanKeys(keys, w) && TableRows(keys, OldRows(rows), w) == Ok(written)
    ensures |written| == |keys| && OldOrder(written) == keys
    ensures forall i :: 0 <= i < |keys| ==> Candidate(OldRows(written), keys[i]) == Some(keys[i])
    ensures forall i :: 0 <= i < |keys| ==>
              && RowOf(keys[i], OldRows(written), w).Ok?
              && (RowOf(keys[i], OldRows(written), w).value == written[i] <==> RowSettles(keys[i], OldRows(rows), w))
  {
    if keys == [] {
      return;
    }
    TableRowsAt(keys, OldRows(rows), w, 0);
    forall i | 0 <= i < |keys|
      ensures ReadRow(written[i]).key == Some(keys[i])
      ensures RowFor(keys[i], w.facts[keys[i]], Some(Cells(written[i])), w.headings).Ok?
      ensures RowFor(keys[i], w.facts[keys[i]], Some(Cells(written[i])), w.headings).value == written[i]
              <==> RowSettles(keys[i], OldRows(rows), w)
    {
      TableRowsAt(keys, OldRows(rows), w, i);
      RowAgainIn(keys[i], rows, w);
    }
    OldRowsOfTable(written, keys);
  }

  lemma {:induction false} NoneDropped(order: seq<Key>, matched: set<Key>)
    requires forall i :: 0 <= i < |order| ==> order[i] in matched
    ensures DroppedNotes(order, matched) == []
  {
    if order != [] {
      NoneDropped(order[..|order| - 1], matched);
    }
  }

  lemma {:induction false} NoneAdded(keys: seq<Key>, had: Rows)
    requires forall i :: 0 <= i < |keys| ==> Candidate(had, keys[i]).Some?
    ensures AddedNotes(keys, had) == []
  {
    if keys != [] {
      NoneAdded(keys[..|keys| - 1], had);
    }
  }

  lemma SameRows(keys: seq<Key>, had: Rows, w: World, second: seq<string>, written: seq<string>)
    requires |second| == |written| == |keys|
    requires forall i :: 0 <= i < |keys| ==> (second[i] == written[i] <==> RowSettles(keys[i], had, w))
    ensures second == written <==> forall i :: 0 <= i < |keys| ==> RowSettles(keys[i], had, w)
  {
    if forall i :: 0 <= i < |keys| ==> RowSettles(keys[i], had, w) {
      assert forall i :: 0 <= i < |keys| ==> second[i] == written[i];
    }
  }

  lemma SecondRows(keys: seq<Key>, rows: seq<string>, w: World, written: seq<string>)
    requires CleanKeys(keys, w) && TableRows(keys, OldRows(rows), w) == Ok(written)
    ensures var second := TableRows(keys, OldRows(written), w);
            second.Ok? && |second.value| == |written| == |keys|
            && (second.value == written <==> TableSettles(keys, rows, w))
  {
    WrittenRows(keys, rows, w, written);
    TableRowsOk(keys, OldRows(written), w);
    var second := TableRows(keys, OldRows(written), w).value;
    var had := OldRows(rows);
    forall i | 0 <= i < |keys| ensures second[i] == written[i] <==> RowSettles(keys[i], had, w) {
      TableRowsAt(keys, OldRows(written), w, i);
    }
    SameRows(keys, had, w, second, written);
  }

  lemma SecondNotes(keys: seq<Key>, rows: seq<string>, w: World, written: seq<string>)
    requires CleanKeys(keys, w) && TableRows(keys, OldRows(rows), w) == Ok(written)
    ensures DroppedNotes(OldOrder(written), Matched(keys, OldRows(written))) == []
    ensures AddedNotes(keys, OldRows(written)) == []
  {
    WrittenRows(keys, rows, w, written);
    forall i | 0 <= i < |keys| ensures keys[i] in Matched(keys, OldRows(written)) {
      assert Candidate(OldRows(written), keys[i]) == Some(keys[i]);
    }
    NoneDropped(keys, Matched(keys, OldRows(written)));
    NoneAdded(keys, OldRows(written));
  }

  /**
    A table written twice: the second run drops and adds nothing, and writes the same rows
    exactly when every row was settled.
   */
  lemma TableAgain(keys: seq<Key>, rows: seq<string>, w: World, written: seq<string>)
    requires CleanKeys(keys, w) && TableRows(keys, OldRows(rows), w) == Ok(written)
    ensures var again := Table(keys, written, w);
            && again.Ok? && again.value.notes == []
            && |again.value.lines| == 2 + |written|
            && (again.value.lines == [HEADER, RULE] + written <==> TableSettles(keys, rows, w))
  {
    SecondRows(keys, rows, w, written);
    SecondNotes(keys, rows, w, written);
    Rebuilt([HEADER, RULE], TableRows(keys, OldRows(written), w).value, written);
  }

  lemma Rebuilt(head: seq<string>, a: seq<string>, b: seq<string>)
    ensures head + a == head + b <==> a == b
  {
    if head + a == head + b {
      assert (head + a)[|head|..] == a && (head + b)[|head|..] == b;
    }
  }

  /**
    No row is lost in silence: every operation a table listed is either taken over by a
    live operation's row or reported as dropped.
   */
  lemma {:induction false} KeptOrDropped(keys: seq<Key>, had: Rows, order: seq<Key>, k: nat)
    requires k < |order|
    ensures Dropped(order[k]) in DroppedNotes(order, Matched(keys, had))
            <==> !exists i :: 0 <= i < |keys| && Candidate(had, keys[i]) == Some(order[k])
  {
    var matched := Matched(keys, had);
    assert order[k] in matched <==> exists i :: 0 <= i < |keys| && Candidate(had, keys[i]) == Some(order[k]);
    DroppedExactly(order, matched, order[k]);
    assert order[k] in order;
  }

  lemma {:induction false} DroppedExactly(order: seq<Key>, matched: set<Key>, key: Key)
    ensures Dropped(key) in DroppedNotes(order, matched) <==> key in order && key !in matched
  {
    if order != [] {
      var n := |order| - 1;
      DroppedExactly(order[..n], matched, key);
      assert order == order[..n] + [order[n]];
    }
  }
}
