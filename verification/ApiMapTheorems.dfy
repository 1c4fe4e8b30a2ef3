/** When a table cell is left alone by a second look, exactly. */
module ApiMapTheorems {
  import opened Wrappers
  import opened Text
  import opened ApiMap

  // ---- references ----

  lemma CaptionIsPart(cell: string)
    requires Trimmed(cell, IsSpace)
    ensures Trimmed(Caption(cell), IsSpace)
    ensures Caption(cell) <= cell
  {
    var t := TrimRight(cell, IsSpace);
    TrimRightFacts(cell, IsSpace);
    if Unreferred(cell).Some? {
      var body := t[..|t| - 1];
      var stem := TrimRight(body, IsDigit);
      TrimRightFacts(body, IsDigit);
      PrefixTrimmed(cell, stem[..|stem| - 8]);
    }
  }

  lemma PrefixTrimmed(cell: string, part: string)
    requires Trimmed(cell, IsSpace) && part <= cell
    ensures Trimmed(TrimRight(part, IsSpace), IsSpace) && TrimRight(part, IsSpace) <= cell
  {
    TrimRightFacts(part, IsSpace);
  }

  lemma MarkFacts(line: nat)
    ensures Mark(line) != "" && Mark(line)[0] == '(' && Mark(line)[|Mark(line)| - 1] == ')'
    ensures Trimmed(Mark(line), IsSpace)
    ensures '*' !in Mark(line) && '|' !in Mark(line)
  {
  }

  /** A reference put on a caption is the one taken off again. */
  lemma UnreferredPadded(caption: string, pad: string, line: nat)
    requires All(pad, IsSpace)
    requires caption == "" || !IsSpace(caption[|caption| - 1])
    ensures Unreferred(caption + pad + Mark(line)) == Some(caption)
  {
    var stem := caption + pad + "(API.md:";
    var cell := caption + pad + Mark(line);
    assert cell == stem + Decimal(line) + ")";
    assert cell[|cell| - 1] == ')';
    assert TrimRight(cell, IsSpace) == cell;
    assert cell[..|cell| - 1] == stem + Decimal(line);
    TrimRightPast(stem, Decimal(line), IsDigit);
    assert stem[|stem| - 8..] == "(API.md:";
    assert stem[..|stem| - 8] == caption + pad;
    TrimRightPast(caption, pad, IsSpace);
  }

  lemma StripReferring(caption: string, line: nat)
    requires Trimmed(caption, IsSpace)
    ensures caption == "" ==> Strip(Referring(caption, line)) == Mark(line)
    ensures caption != "" ==> Strip(Referring(caption, line)) == Referring(caption, line)
  {
    MarkFacts(line);
    var m := Mark(line);
    if caption == "" {
      assert Referring(caption, line) == " " + m + "";
      TrimPast(" ", m, "", IsSpace);
    } else {
      EndsTrimmed(caption, " ", m);
      TrimIsTrimmed(caption + " " + m, IsSpace);
    }
  }

  lemma EndsTrimmed(a: string, b: string, c: string)
    requires a != "" && c != "" && Trimmed(a, IsSpace) && Trimmed(c, IsSpace)
    ensures Trimmed(a + b + c, IsSpace)
  {
    var s := a + b + c;
    assert s[0] == a[0] && s[|s| - 1] == c[|c| - 1];
  }

  lemma ReferringRead(caption: string, line: nat)
    requires Trimmed(caption, IsSpace)
    ensures Strip(Referring(caption, line)) != ""
    ensures Unreferred(Strip(Referring(caption, line))) == Some(caption)
  {
    StripReferring(caption, line);
    MarkFacts(line);
    if caption == "" {
      UnreferredPadded("", "", line);
      assert "" + "" + Mark(line) == Mark(line);
    } else {
      UnreferredPadded(caption, " ", line);
    }
  }

  lemma ReferringIsInjective(caption: string, line: nat, other: nat)
    requires Referring(caption, line) == Referring(caption, other)
    ensures line == other
  {
    var stem := caption + " " + "(API.md:";
    var whole, same := Referring(caption, line), Referring(caption, other);
    assert whole == stem + Decimal(line) + ")" && same == stem + Decimal(other) + ")";
    assert whole[|stem|..|whole| - 1] == Decimal(line);
    assert same[|stem|..|same| - 1] == Decimal(other);
    DecimalRoundTrip(line);
    DecimalRoundTrip(other);
  }

  lemma ReferringHasNoMissing(caption: string, line: nat)
    ensures Contains(Referring(caption, line), MISSING) == Contains(caption, MISSING)
  {
    var tail := " " + Mark(line);
    MarkFacts(line);
    assert Referring(caption, line) == caption + tail;
    assert '*' !in tail;
    ContainsBefore(caption, tail, MISSING);
  }

  lemma {:induction false} ContainsInPrefix(s: string, whole: string, part: string)
    requires s <= whole && Contains(s, part)
    ensures Contains(whole, part)
  {
    if !(part <= s) {
      ContainsInPrefix(s[1..], whole[1..], part);
    }
  }

  // ---- cells that were there ----

  /** The reference the text ends with names the line its caption resolves to, written as a run writes it. */
  predicate IsCurrent(text: string, headings: seq<Heading>)
    requires Unreferred(text).Some?
  {
    var caption := Unreferred(text).value;
    var line := Resolve(Bare(caption), headings);
    line.Some? && text == Referring(caption, line.value)
  }

  /**
    A cell is settled when its caption still resolves; when nothing answers to the caption
    any more, only if the caption is not blank and a second reference it ends with is already the current one.
   */
  predicate ExistingSettles(cell: string, headings: seq<Heading>) {
    || Contains(cell, MISSING)
    || Resolve(Bare(Caption(cell)), headings).Some?
    || (Caption(cell) != "" && (Unreferred(Caption(cell)).Some? ==> IsCurrent(Caption(cell), headings)))
  }

  /** The cell that was refreshed has no verdict in it, so neither has the fresh one. */
  lemma StillNoMissing(cell: string, line: nat)
    requires Trimmed(cell, IsSpace) && !Contains(cell, MISSING)
    ensures !Contains(Caption(cell), MISSING)
    ensures !Contains(Strip(Referring(Caption(cell), line)), MISSING)
  {
    var caption := Caption(cell);
    CaptionIsPart(cell);
    if Contains(caption, MISSING) {
      ContainsInPrefix(caption, cell, MISSING);
    }
    ReferringHasNoMissing(caption, line);
    if Contains(Strip(Referring(caption, line)), MISSING) {
      StripContains(Referring(caption, line), MISSING);
    }
  }

  lemma CellOfText(cell: string, path: string, headings: seq<Heading>)
    requires cell != "" && Strip(cell) == cell
    ensures ApiCell(Some(cell), path, headings) == if Contains(cell, MISSING) then cell else Refreshed(cell, headings)
  {
  }

  lemma RefreshedAs(cell: string, caption: string, line: Option<nat>, headings: seq<Heading>)
    requires Caption(cell) == caption && Resolve(Bare(caption), headings) == line
    ensures Refreshed(cell, headings) == if line.Some? then Referring(caption, line.value) else caption
  {
  }

  lemma RefreshedAgain(again: string, caption: string, path: string, headings: seq<Heading>, line: nat)
    requires again != "" && Strip(again) == again && !Contains(again, MISSING)
    requires Unreferred(again) == Some(caption) && Resolve(Bare(caption), headings) == Some(line)
    ensures ApiCell(Some(again), path, headings) == Referring(caption, line)
  {
    CellOfText(again, path, headings);
    RefreshedAs(again, caption, Some(line), headings);
  }

  lemma ResolvedSettles(cell: string, path: string, headings: seq<Heading>, line: nat)
    requires Trimmed(cell, IsSpace) && !Contains(cell, MISSING)
    requires Resolve(Bare(Caption(cell)), headings) == Some(line)
    ensures ApiCell(Some(Strip(Referring(Caption(cell), line))), path, headings) == Referring(Caption(cell), line)
  {
    var caption := Caption(cell);
    StillNoMissing(cell, line);
    CaptionIsPart(cell);
    ReferringRead(caption, line);
    StripTwice(Referring(caption, line));
    RefreshedAgain(Strip(Referring(caption, line)), caption, path, headings, line);
  }

  lemma StripContains(s: string, part: string)
    requires Contains(Strip(s), part)
    ensures Contains(s, part)
  {
    var a, b := TrimSplit(s, IsSpace);
    ContainsGrows(a, Strip(s), b, part);
  }

  lemma FreshIsNotBlank(path: string, headings: seq<Heading>)
    ensures FreshCell(path, headings) != ""
  {
  }

  lemma PlainCaption(caption: string, headings: seq<Heading>)
    requires Unreferred(caption).None? && Resolve(Bare(caption), headings).None?
    ensures Refreshed(caption, headings) == caption
  {
  }

  lemma CaptionAgain(caption: string, path: string, headings: seq<Heading>)
    requires Trimmed(caption, IsSpace) && !Contains(caption, MISSING)
    requires Resolve(Bare(caption), headings).None?
    ensures ApiCell(Some(Strip(caption)), path, headings) == caption
            <==> caption != "" && (Unreferred(caption).Some? ==> IsCurrent(caption, headings))
  {
    TrimIsTrimmed(caption, IsSpace);
    if caption == "" {
      FreshIsNotBlank(path, headings);
    } else {
      CellOfText(caption, path, headings);
      if Unreferred(caption).None? {
        PlainCaption(caption, headings);
      } else {
        CurrentExactly(caption, headings);
      }
    }
  }

  lemma UnreferredIsShorter(cell: string)
    requires Unreferred(cell).Some?
    ensures |Unreferred(cell).value| < |cell|
  {
  }

  /** Refreshing leaves a referring text alone exactly when its reference is the current one. */
  lemma CurrentExactly(text: string, headings: seq<Heading>)
    requires Unreferred(text).Some?
    ensures Refreshed(text, headings) == text <==> IsCurrent(text, headings)
  {
    var inner := Unreferred(text).value;
    UnreferredIsShorter(text);
    RefreshedAs(text, inner, Resolve(Bare(inner), headings), headings);
  }

  lemma UnresolvedSettles(cell: string, path: string, headings: seq<Heading>)
    requires Trimmed(cell, IsSpace) && !Contains(cell, MISSING)
    requires Resolve(Bare(Caption(cell)), headings).None?
    ensures ApiCell(Some(Strip(Caption(cell))), path, headings) == Caption(cell)
            <==> ExistingSettles(cell, headings)
  {
    StillNoMissing(cell, 0);
    CaptionIsPart(cell);
    CaptionAgain(Caption(cell), path, headings);
  }

  // ---- cells that are new ----

  /** A new cell is settled when its heading has no column bar, and its own quoted text leads back to its line. */
  predicate FreshSettles(path: string, headings: seq<Heading>) {
    var h := CoveringHeading(path, headings);
    h.Some? ==>
      && '|' !in Bared(h.value.text)
      && (|| Contains(Bared(h.value.text), MISSING)
          || Resolve(Quoted(h.value.text), headings) == Some(h.value.line))
  }

  lemma TicksAround(s: string, quoted: string)
    requires quoted == "`" + s + "`"
    ensures quoted != "" && Trimmed(quoted, IsSpace)
    ensures Contains(quoted, MISSING) == Contains(s, MISSING)
    ensures '|' in quoted <==> '|' in s
  {
    assert quoted == "`" + (s + "`");
    assert quoted[0] == '`' && quoted[|quoted| - 1] == '`';
    ContainsAfter("`", s + "`", MISSING);
    ContainsBefore(s, "`", MISSING);
    InConcat('|', "`", s + "`");
    InConcat('|', s, "`");
  }

  lemma QuotedFacts(text: string)
    ensures Quoted(text) != "" && Trimmed(Quoted(text), IsSpace)
    ensures Contains(Quoted(text), MISSING) == Contains(Bared(text), MISSING)
    ensures '|' in Quoted(text) <==> '|' in Bared(text)
  {
    TicksAround(Bared(text), Quoted(text));
  }

  lemma SignedFacts(quoted: string)
    requires quoted != "" && Trimmed(quoted, IsSpace)
    ensures Trimmed(Signed(quoted), IsSpace)
    ensures Bare(Signed(quoted)) == quoted
    ensures Contains(Signed(quoted), MISSING) == Contains(quoted, MISSING)
  {
    var caption := Signed(quoted);
    assert caption[|caption| - 1] == quoted[|quoted| - 1];
    assert caption[0] != MENTION[0];
    assert caption[1..] == " " + quoted + "";
    TrimPast(" ", quoted, "", IsSpace);
    ContainsAfter([SECTION_SIGN, ' '], quoted, MISSING);
  }

  lemma NewCellSettles(h: Heading, path: string, headings: seq<Heading>)
    ensures ApiCell(Some(Strip(Referring(QuotedCaption(h), h.line))), path, headings) == Referring(QuotedCaption(h), h.line)
            <==> Contains(Bared(h.text), MISSING) || Resolve(Quoted(h.text), headings) == Some(h.line)
  {
    var caption := QuotedCaption(h);
    var cell := Referring(caption, h.line);
    QuotedFacts(h.text);
    SignedFacts(Quoted(h.text));
    StripReferring(caption, h.line);
    ReferringRead(caption, h.line);
    ReferringHasNoMissing(caption, h.line);
    CellOfText(cell, path, headings);
    NewCellRefreshed(cell, caption, h.line, headings);
  }

  lemma NewCellRefreshed(cell: string, caption: string, line: nat, headings: seq<Heading>)
    requires cell == Referring(caption, line) && Unreferred(cell) == Some(caption)
    ensures Refreshed(cell, headings) == cell <==> Resolve(Bare(caption), headings) == Some(line)
  {
    var found := Resolve(Bare(caption), headings);
    RefreshedAs(cell, caption, found, headings);
    if found.Some? {
      if Referring(caption, found.value) == cell {
        ReferringIsInjective(caption, line, found.value);
      }
    } else {
      assert |Referring(caption, line)| > |caption|;
    }
  }

  // ---- column bars ----

  lemma ReferringBar(caption: string, line: nat)
    ensures '|' in Referring(caption, line) <==> '|' in caption
  {
    MarkFacts(line);
    InConcat('|', caption + " ", Mark(line));
    InConcat('|', caption, " ");
  }

  lemma SignedBar(quoted: string)
    ensures '|' in Signed(quoted) <==> '|' in quoted
  {
    assert '|' !in [SECTION_SIGN, ' '];
    InConcat('|', [SECTION_SIGN, ' '], quoted);
  }

  lemma QuotedCaptionBar(h: Heading)
    ensures '|' in QuotedCaption(h) <==> '|' in Bared(h.text)
  {
    QuotedFacts(h.text);
    SignedBar(Quoted(h.text));
  }

  lemma NoBarInPrefix(s: string, whole: string)
    requires s <= whole && '|' !in whole
    ensures '|' !in s
  {
  }

  lemma CaptionHasNoBar(cell: string) returns (caption: string)
    requires '|' !in cell && Trimmed(cell, IsSpace)
    ensures caption == Caption(cell) && '|' !in caption
  {
    caption := Caption(cell);
    CaptionIsPart(cell);
    NoBarInPrefix(caption, cell);
  }

  lemma RefreshedHasNoBar(cell: string, headings: seq<Heading>)
    requires '|' !in cell && Trimmed(cell, IsSpace)
    ensures '|' !in Refreshed(cell, headings)
  {
    var caption := CaptionHasNoBar(cell);
    var line := Resolve(Bare(caption), headings);
    CaptionThenMark(caption, line);
    RefreshedAs(cell, caption, line, headings);
  }

  lemma CaptionThenMark(caption: string, line: Option<nat>)
    requires '|' !in caption
    ensures '|' !in if line.Some? then Referring(caption, line.value) else caption
  {
    if line.Some? {
      ReferringBar(caption, line.value);
    }
  }

  lemma KeptHasNoBar(read: string, path: string, headings: seq<Heading>)
    requires '|' !in read && Strip(read) != ""
    ensures '|' !in ApiCell(Some(read), path, headings)
  {
    var cell := Strip(read);
    TrimIsTrimmed(read, IsSpace);
    StripTwice(read);
    CellOfText(cell, path, headings);
    assert ApiCell(Some(read), path, headings) == ApiCell(Some(cell), path, headings);
    RefreshedHasNoBar(cell, headings);
  }

  lemma NotBlank(s: string)
    requires s != "" && !IsSpace(s[0])
    ensures Strip(s) != ""
  {
    TrimRightFacts(s, IsSpace);
    assert TrimLeft(s, IsSpace) == s;
  }

  lemma FirstPieceNotBlank(s: string)
    requires s != "" && !IsSpace(s[0]) && s[0] != '|'
    ensures Strip(Strip(Split(s, '|')[0])) != ""
  {
    var piece := Split(s, '|')[0];
    assert piece[0] == s[0];
    NotBlank(piece);
    StripTwice(piece);
  }

  lemma BarredNeverSettles(h: Heading, path: string, headings: seq<Heading>)
    requires '|' in Bared(h.text)
    ensures var once := Referring(QuotedCaption(h), h.line);
            ApiCell(Some(Strip(Split(once, '|')[0])), path, headings) != once
  {
    var once := Referring(QuotedCaption(h), h.line);
    assert once[0] == SECTION_SIGN;
    FirstPieceNotBlank(once);
    var read := Strip(Split(once, '|')[0]);
    SplitFacts(once, '|', 0);
    TrimIsTrimmed(Split(once, '|')[0], IsSpace);
    KeptHasNoBar(read, path, headings);
    QuotedCaptionBar(h);
    ReferringBar(QuotedCaption(h), h.line);
  }

  // ---- the exact condition ----

  predicate Settles(existing: Option<string>, path: string, headings: seq<Heading>) {
    if existing.Some? && Strip(existing.value) != ""
    then ExistingSettles(Strip(existing.value), headings)
    else FreshSettles(path, headings)
  }

  /** A cell as a second run reads it out of its row. */
  function ReadBack(cell: string): string {
    Strip(Split(cell, '|')[0])
  }

  lemma OldCellSettles(existing: string, path: string, headings: seq<Heading>)
    requires '|' !in existing && Strip(existing) != ""
    ensures var once := ApiCell(Some(existing), path, headings);
            ApiCell(Some(ReadBack(once)), path, headings) == once <==> Settles(Some(existing), path, headings)
  {
    var cell := Strip(existing);
    var once := ApiCell(Some(existing), path, headings);
    TrimIsTrimmed(existing, IsSpace);
    TrimIsTrimmed(cell, IsSpace);
    KeptHasNoBar(existing, path, headings);
    SplitWhole(once, '|');
    if Contains(cell, MISSING) {
      CellOfText(cell, path, headings);
    } else {
      var line := Resolve(Bare(Caption(cell)), headings);
      RefreshedAs(cell, Caption(cell), line, headings);
      if line.Some? {
        ResolvedSettles(cell, path, headings, line.value);
      } else {
        UnresolvedSettles(cell, path, headings);
      }
    }
  }

  lemma MissingCellSettles(path: string, headings: seq<Heading>)
    ensures ApiCell(Some(ReadBack(MISSING)), path, headings) == MISSING
  {
    assert '|' !in MISSING;
    SplitWhole(MISSING, '|');
    TrimIsTrimmed(MISSING, IsSpace);
    assert MISSING <= MISSING;
    CellOfText(MISSING, path, headings);
  }

  lemma FreshCellSettles(path: string, headings: seq<Heading>)
    ensures var once := FreshCell(path, headings);
            ApiCell(Some(ReadBack(once)), path, headings) == once <==> FreshSettles(path, headings)
  {
    var found := CoveringHeading(path, headings);
    if found.None? {
      MissingCellSettles(path, headings);
    } else {
      var h := found.value;
      if '|' in Bared(h.text) {
        BarredNeverSettles(h, path, headings);
      } else {
        QuotedCaptionBar(h);
        ReferringBar(QuotedCaption(h), h.line);
        SplitWhole(Referring(QuotedCaption(h), h.line), '|');
        NewCellSettles(h, path, headings);
      }
    }
  }

  /**
    The cell a run writes is written again by the next run exactly when `Settles` holds of
    what the first run found.
   */
  lemma CellSettlesExactly(existing: Option<string>, path: string, headings: seq<Heading>)
    requires existing.Some? ==> '|' !in existing.value
    ensures var once := ApiCell(existing, path, headings);
            ApiCell(Some(ReadBack(once)), path, headings) == once <==> Settles(existing, path, headings)
  {
    if existing.Some? && Strip(existing.value) != "" {
      OldCellSettles(existing.value, path, headings);
    } else {
      FreshCellSettles(path, headings);
    }
  }

  // ---- when new cells always settle ----

  /** No two headings read alike without their backticks, and none has white space just inside them. */
  predicate DistinctHeadings(headings: seq<Heading>) {
    && (forall i, j :: 0 <= i < j < |headings| ==> Bared(headings[i].text) != Bared(headings[j].text))
    && (forall i :: 0 <= i < |headings| ==> Strip(Bared(headings[i].text)) == Bared(headings[i].text))
  }

  lemma {:induction false} NamedIsFound(headings: seq<Heading>, i: nat)
    requires DistinctHeadings(headings) && i < |headings|
    ensures FirstNamed(Bared(headings[i].text), headings) == Some(headings[i].line)
  {
    if i > 0 {
      assert Bared(headings[0].text) != Bared(headings[i].text);
      OthersDistinct(headings);
      NamedIsFound(headings[1..], i - 1);
    }
  }

  lemma OthersDistinct(headings: seq<Heading>)
    requires DistinctHeadings(headings) && headings != []
    ensures DistinctHeadings(headings[1..])
  {
  }

  lemma {:induction false} CoveringIsAHeading(path: string, headings: seq<Heading>) returns (i: nat)
    requires CoveringHeading(path, headings).Some?
    ensures i < |headings| && headings[i] == CoveringHeading(path, headings).value && Covers(headings[i], path)
  {
    if Covers(headings[0], path) {
      i := 0;
    } else {
      var j := CoveringIsAHeading(path, headings[1..]);
      i := j + 1;
    }
  }

  lemma QuotedCleans(text: string)
    requires Strip(Bared(text)) == Bared(text)
    ensures Strip(Trim(Strip(Quoted(text)), IsTick)) == Bared(text)
  {
    QuotedFacts(text);
    TrimIsTrimmed(Quoted(text), IsSpace);
    TrimIsTrimmed(Strip(text), IsTick);
    TrimPast("`", Bared(text), "`", IsTick);
  }

  lemma NamedResolves(caption: string, headings: seq<Heading>)
    requires FirstNamed(Strip(Trim(Strip(caption), IsTick)), headings).Some?
    ensures Resolve(caption, headings) == FirstNamed(Strip(Trim(Strip(caption), IsTick)), headings)
  {
  }

  lemma QuotedResolves(headings: seq<Heading>, i: nat)
    requires DistinctHeadings(headings) && i < |headings|
    ensures Resolve(Quoted(headings[i].text), headings) == Some(headings[i].line)
  {
    QuotedCleans(headings[i].text);
    NamedIsFound(headings, i);
    NamedResolves(Quoted(headings[i].text), headings);
  }

  /** With distinct headings and no column bar in them, every new cell is settled at once. */
  lemma DistinctHeadingsSettle(path: string, headings: seq<Heading>)
    requires DistinctHeadings(headings)
    requires forall i :: 0 <= i < |headings| ==> '|' !in Bared(headings[i].text)
    ensures FreshSettles(path, headings)
  {
    if CoveringHeading(path, headings).Some? {
      var i := CoveringIsAHeading(path, headings);
      QuotedResolves(headings, i);
    }
  }
}
