/** How the reference column is read and looked up, without the functions that do it. */
module ApiMapMeaning {
  import opened Wrappers
  import opened Text
  import opened ApiMap
  import opened ApiMapTheorems

  // ---- a trailing reference ----

  /** The cell is the caption with a reference to some line behind it, white space aside. */
  ghost predicate Refers(cell: string, caption: string) {
    && (caption == "" || !IsSpace(caption[|caption| - 1]))
    && exists pad, digits, rest ::
         && cell == caption + pad + "(API.md:" + digits + ")" + rest
         && digits != "" && All(digits, IsDigit) && All(pad, IsSpace) && All(rest, IsSpace)
  }

  lemma ReadReference(caption: string, pad: string, digits: string, rest: string)
    requires caption == "" || !IsSpace(caption[|caption| - 1])
    requires digits != "" && All(digits, IsDigit) && All(pad, IsSpace) && All(rest, IsSpace)
    ensures Unreferred(caption + pad + "(API.md:" + digits + ")" + rest) == Some(caption)
  {
    var stem := caption + pad + "(API.md:";
    var t := stem + digits + ")";
    assert caption + pad + "(API.md:" + digits + ")" + rest == t + rest;
    assert t[|t| - 1] == ')';
    TrimRightPast(t, rest, IsSpace);
    assert t[..|t| - 1] == stem + digits;
    TrimRightPast(stem, digits, IsDigit);
    assert stem[|stem| - 8..] == "(API.md:";
    assert stem[..|stem| - 8] == caption + pad;
    TrimRightPast(caption, pad, IsSpace);
  }

  lemma UnreferredParts(cell: string) returns (t: string, body: string, stem: string)
    requires Unreferred(cell).Some?
    ensures t == TrimRight(cell, IsSpace) && t == body + ")" && stem == TrimRight(body, IsDigit)
    ensures |stem| < |body| && |stem| >= 8 && stem == stem[..|stem| - 8] + "(API.md:"
    ensures Unreferred(cell).value == TrimRight(stem[..|stem| - 8], IsSpace)
  {
    hide TrimRight, IsSpace, IsDigit;
    t := TrimRight(cell, IsSpace);
    body := t[..|t| - 1];
    stem := TrimRight(body, IsDigit);
    EndIs(stem, "(API.md:");
  }

  lemma ReferenceOf(cell: string)
    requires Unreferred(cell).Some?
    ensures Refers(cell, Unreferred(cell).value)
  {
    hide IsSpace, IsDigit, Refers, Unreferred, TrimRight;
    var t, body, stem := UnreferredParts(cell);
    var before := stem[..|stem| - 8];
    TrimRightFacts(cell, IsSpace);
    TrimRightFacts(body, IsDigit);
    TrimRightFacts(before, IsSpace);
    Reassembled(cell, t, body, stem, before, TrimRight(before, IsSpace));
  }

  lemma EndIs(s: string, tail: string)
    requires EndsWith(s, tail)
    ensures s == s[..|s| - |tail|] + tail
  {
  }

  lemma Reassembled(cell: string, t: string, body: string, stem: string, before: string, caption: string)
    requires caption <= before && stem == before + "(API.md:" && stem <= body && t == body + ")" && t <= cell
    requires caption == "" || !IsSpace(caption[|caption| - 1])
    requires |stem| < |body| && All(body[|stem|..], IsDigit) && All(before[|caption|..], IsSpace) && All(cell[|t|..], IsSpace)
    ensures Refers(cell, caption)
  {
    hide IsSpace, IsDigit;
    var pad, digits, rest := before[|caption|..], body[|stem|..], cell[|t|..];
    assert before == caption + pad;
    assert body == stem + digits;
    assert cell == t + rest;
  }

  /** A reference is taken off a cell exactly when the cell has one, and what is left is what precedes it. */
  lemma ReferenceExactly(cell: string, caption: string)
    ensures Unreferred(cell) == Some(caption) <==> Refers(cell, caption)
  {
    if Refers(cell, caption) {
      var pad, digits, rest :|
        && cell == caption + pad + "(API.md:" + digits + ")" + rest
        && digits != "" && All(digits, IsDigit) && All(pad, IsSpace) && All(rest, IsSpace);
      ReadReference(caption, pad, digits, rest);
    }
    if Unreferred(cell) == Some(caption) {
      ReferenceOf(cell);
    }
  }

  // ---- the headings of the reference ----

  /** The line is so many hashes, a space, and a text, white space behind it not counting. */
  ghost predicate Heads(line: string, hashes: nat, text: string) {
    2 <= hashes <= 4 && exists rest :: line == Marks(hashes) + " " + rest && TextOf(rest, text)
  }

  lemma {:induction false} HashesAre(line: string)
    ensures forall i :: 0 <= i < Hashes(line) ==> line[i] == '#'
    ensures Hashes(line) < |line| ==> line[Hashes(line)] != '#'
  {
    if line != [] && line[0] == '#' {
      HashesAre(line[1..]);
    }
  }

  lemma {:induction false} HashesOf(n: nat, rest: string)
    requires rest != "" && rest[0] != '#'
    ensures Hashes(Marks(n) + rest) == n
  {
    var line := Marks(n) + rest;
    if n > 0 {
      assert line[1..] == Marks(n - 1) + rest;
      HashesOf(n - 1, rest);
    } else {
      assert line == rest;
    }
  }

  function Marks(n: nat): string {
    seq(n, i requires 0 <= i < n => '#')
  }

  lemma HeadingParts(n: nat, rest: string)
    ensures var line := Marks(n) + " " + rest; Hashes(line) == n && line[n] == ' ' && line[n + 1..] == rest
  {
    var line := Marks(n) + " " + rest;
    assert line == Marks(n) + (" " + rest);
    HashesOf(n, " " + rest);
  }

  /** The text of a heading: what is left of the rest of its line without trailing white space, but one character at least. */
  ghost predicate TextOf(rest: string, text: string) {
    && rest != "" && text != "" && text <= rest && All(rest[|text|..], IsSpace)
    && (!IsSpace(text[|text| - 1]) || |text| == 1)
  }

  lemma TextExactly(rest: string, text: string)
    requires rest != ""
    ensures var trimmed := TrimRight(rest, IsSpace);
            TextOf(rest, text) <==> text == if trimmed == "" then rest[..1] else trimmed
  {
    var trimmed := TrimRight(rest, IsSpace);
    TrimRightFacts(rest, IsSpace);
    if TextOf(rest, text) {
      TextRead(rest, text);
    }
    if trimmed == "" {
      assert rest[0..] == rest;
      AllTail(rest, IsSpace, 1);
    }
  }

  lemma TextRead(rest: string, text: string)
    requires TextOf(rest, text)
    ensures text == if TrimRight(rest, IsSpace) == "" then rest[..1] else TrimRight(rest, IsSpace)
  {
    assert rest == text + rest[|text|..];
    if !IsSpace(text[|text| - 1]) {
      TrimRightPast(text, rest[|text|..], IsSpace);
    } else {
      assert All(rest, IsSpace);
      TrimRightPast("", rest, IsSpace);
      assert "" + rest == rest;
      assert rest[..1] == text;
    }
  }

  lemma HeadingRead(line: string, number: nat, hashes: nat, text: string)
    requires Heads(line, hashes, text)
    ensures HeadingOf(line, number) == Some(Heading(number, hashes, text))
  {
    hide IsSpace, TextOf;
    var rest :| line == Marks(hashes) + " " + rest && TextOf(rest, text);
    TextHasRest(rest, text);
    HeadingParts(hashes, rest);
    TextExactly(rest, text);
  }

  lemma TextHasRest(rest: string, text: string)
    requires TextOf(rest, text)
    ensures rest != ""
  {
  }

  lemma HeadingHeads(line: string, number: nat)
    requires HeadingOf(line, number).Some?
    ensures var h := HeadingOf(line, number).value; h.line == number && Heads(line, h.hashes, h.text)
  {
    hide IsSpace, TextOf;
    var n := Hashes(line);
    var rest := line[n + 1..];
    var text := HeadingOf(line, number).value.text;
    HashesAre(line);
    assert line[..n] == Marks(n);
    assert line == line[..n] + " " + rest;
    TextExactly(rest, text);
  }

  lemma HeadingOnly(line: string, number: nat, h: Heading)
    ensures HeadingOf(line, number) == Some(h) <==> h.line == number && Heads(line, h.hashes, h.text)
  {
    hide Heads;
    if HeadingOf(line, number).Some? {
      HeadingHeads(line, number);
    }
    if h.line == number && Heads(line, h.hashes, h.text) {
      HeadingRead(line, number, h.hashes, h.text);
    }
  }

  /** The heading is one of the lines, the first having the given number. */
  ghost predicate HeadsOne(lines: seq<string>, number: nat, h: Heading) {
    number <= h.line < number + |lines| && Heads(lines[h.line - number], h.hashes, h.text)
  }

  lemma HeadsFirstOrLater(lines: seq<string>, number: nat, h: Heading)
    requires lines != []
    ensures HeadsOne(lines, number, h) <==>
              (h.line == number && Heads(lines[0], h.hashes, h.text)) || HeadsOne(lines[1..], number + 1, h)
  {
    hide Heads;
    if number < h.line < number + |lines| {
      assert lines[1..][h.line - number - 1] == lines[h.line - number];
    }
  }

  /** The headings of the reference are exactly its heading lines, each under the number of its line, the first being 1. */
  lemma HeadingsExactly(lines: seq<string>, h: Heading)
    ensures h in Headings(lines, 1) <==>
              1 <= h.line <= |lines| && Heads(lines[h.line - 1], h.hashes, h.text)
  {
    hide Heads, Headings;
    HeadingsFrom(lines, 1, h);
  }

  lemma {:induction false} HeadingsFrom(lines: seq<string>, number: nat, h: Heading)
    ensures h in Headings(lines, number) <==> HeadsOne(lines, number, h)
  {
    if lines != [] {
      hide Heads, HeadsOne, HeadingOf;
      HeadingsFrom(lines[1..], number + 1, h);
      HeadingOnly(lines[0], number, h);
      HeadsFirstOrLater(lines, number, h);
    }
  }

  // ---- the heading a caption names ----

  /** The first heading of a kind. */
  ghost predicate IsFirst(headings: seq<Heading>, i: nat, kind: Heading -> bool) {
    i < |headings| && kind(headings[i]) && forall j :: 0 <= j < i ==> !kind(headings[j])
  }

  ghost predicate NoneIs(headings: seq<Heading>, kind: Heading -> bool) {
    forall j :: 0 <= j < |headings| ==> !kind(headings[j])
  }

  lemma FirstOfTail(headings: seq<Heading>, i: nat, kind: Heading -> bool)
    requires headings != [] && !kind(headings[0])
    ensures i > 0 ==> (IsFirst(headings, i, kind) <==> IsFirst(headings[1..], i - 1, kind))
    ensures !IsFirst(headings, 0, kind)
    ensures NoneIs(headings, kind) <==> NoneIs(headings[1..], kind)
  {
    if i > 0 && IsFirst(headings[1..], i - 1, kind) {
      forall j | 0 <= j < i ensures !kind(headings[j]) {
        assert j > 0 ==> headings[j] == headings[1..][j - 1];
      }
    }
    if i > 0 && IsFirst(headings, i, kind) {
      forall j | 0 <= j < i - 1 ensures !kind(headings[1..][j]) {
        assert headings[1..][j] == headings[j + 1];
      }
    }
    if NoneIs(headings[1..], kind) {
      forall j | 0 <= j < |headings| ensures !kind(headings[j]) {
        assert j > 0 ==> headings[j] == headings[1..][j - 1];
      }
    }
  }

  /** Its text, but for white space and backticks, is the label. */
  ghost function Named(clean: string): Heading -> bool {
    (h: Heading) => Trim(Strip(h.text), IsTick) == clean
  }

  /** Its text and the label begin alike, one being the beginning of the other. */
  ghost function Near(clean: string): Heading -> bool {
    (h: Heading) => clean <= h.text || h.text <= clean
  }

  ghost function Under(number: string): Heading -> bool {
    (h: Heading) => number <= h.text
  }

  lemma {:induction false} FirstNamedIs(clean: string, headings: seq<Heading>)
    ensures forall i: nat :: IsFirst(headings, i, Named(clean)) ==> FirstNamed(clean, headings) == Some(headings[i].line)
    ensures NoneIs(headings, Named(clean)) <==> FirstNamed(clean, headings).None?
  {
    if headings != [] && !Named(clean)(headings[0]) {
      FirstNamedIs(clean, headings[1..]);
      forall i: nat ensures i > 0 ==> (IsFirst(headings, i, Named(clean)) <==> IsFirst(headings[1..], i - 1, Named(clean))) {
        FirstOfTail(headings, i, Named(clean));
      }
      FirstOfTail(headings, 0, Named(clean));
    }
  }

  lemma {:induction false} FirstNearIs(clean: string, headings: seq<Heading>)
    ensures forall i: nat :: IsFirst(headings, i, Near(clean)) ==> FirstNear(clean, headings) == Some(headings[i].line)
    ensures NoneIs(headings, Near(clean)) <==> FirstNear(clean, headings).None?
  {
    if headings != [] && !Near(clean)(headings[0]) {
      FirstNearIs(clean, headings[1..]);
      forall i: nat ensures i > 0 ==> (IsFirst(headings, i, Near(clean)) <==> IsFirst(headings[1..], i - 1, Near(clean))) {
        FirstOfTail(headings, i, Near(clean));
      }
      FirstOfTail(headings, 0, Near(clean));
    }
  }

  lemma {:induction false} FirstUnderIs(number: string, headings: seq<Heading>)
    ensures forall i: nat :: IsFirst(headings, i, Under(number)) ==> FirstUnder(number, headings) == Some(headings[i].line)
    ensures NoneIs(headings, Under(number)) <==> FirstUnder(number, headings).None?
  {
    if headings != [] && !Under(number)(headings[0]) {
      FirstUnderIs(number, headings[1..]);
      forall i: nat ensures i > 0 ==> (IsFirst(headings, i, Under(number)) <==> IsFirst(headings[1..], i - 1, Under(number))) {
        FirstOfTail(headings, i, Under(number));
      }
      FirstOfTail(headings, 0, Under(number));
    }
  }

  /** `16`, `16.6`, `16.` or `16.6.`: the number, and the text it stands in. */
  ghost predicate Numbers(lead: string, number: string) {
    && (number == lead || number + "." == lead)
    && exists a, b :: a != "" && All(a, IsDigit) && All(b, IsDigit) && (number == a || (b != "" && number == a + "." + b))
  }

  /** The first word of a label: nothing before it, and white space or nothing after it. */
  ghost predicate Leads(clean: string, lead: string) {
    && lead <= clean
    && (forall i :: 0 <= i < |lead| ==> !IsSpace(lead[i]))
    && (|lead| == |clean| || IsSpace(clean[|lead|]))
  }

  lemma {:induction false} FirstWordIs(clean: string)
    ensures Leads(clean, FirstWord(clean))
    ensures forall lead :: Leads(clean, lead) ==> lead == FirstWord(clean)
  {
    if clean != [] && !IsSpace(clean[0]) {
      FirstWordIs(clean[1..]);
      forall lead | Leads(clean, lead) ensures lead == FirstWord(clean) {
        assert lead[0] == clean[0];
        assert Leads(clean[1..], lead[1..]);
      }
    }
  }

  lemma AllTail(s: string, p: char -> bool, i: nat)
    requires i <= |s| && All(s, p)
    ensures All(s[i..], p) && All(s[..i], p)
  {
  }

  lemma NumberOf(lead: string)
    requires IsSectionNumber(lead)
    ensures Numbers(lead, TrimRight(lead, IsDot))
  {
    var rest := TrimLeft(lead, IsDigit);
    TrimLeftFacts(lead, IsDigit);
    var a := lead[..|lead| - |rest|];
    assert lead == a + rest;
    if rest == "" {
      TrimRightPast(lead, "", IsDot);
      assert lead + "" == lead;
      assert Numbers(lead, lead) by { assert lead == a && All("", IsDigit); }
    } else if rest == "." {
      TrimRightPast(a, ".", IsDot);
      assert Numbers(lead, a) by { assert a + "." == lead && All("", IsDigit); }
    } else {
      var last := TrimLeft(rest[1..], IsDigit);
      TrimLeftFacts(rest[1..], IsDigit);
      var b := rest[1..][..|rest| - 1 - |last|];
      assert rest == "." + b + last;
      DottedNumber(lead, a, b, last);
    }
  }

  lemma DottedNumber(lead: string, a: string, b: string, last: string)
    requires a != "" && b != "" && All(a, IsDigit) && All(b, IsDigit) && last in ["", "."]
    requires lead == a + ("." + b + last)
    ensures Numbers(lead, TrimRight(lead, IsDot))
  {
    var number := a + "." + b;
    assert lead == number + last;
    assert IsDigit(b[|b| - 1]);
    TrimRightPast(number, last, IsDot);
  }

  lemma NumberRead(lead: string, number: string)
    requires Numbers(lead, number)
    ensures IsSectionNumber(lead)
  {
    var a, b :| a != "" && All(a, IsDigit) && All(b, IsDigit) && (number == a || (b != "" && number == a + "." + b));
    var tail := lead[|number|..];
    assert lead == number + tail && tail in ["", "."];
    if number == a {
      TrimLeftPast(a, tail, IsDigit);
    } else {
      var rest := "." + b + tail;
      assert lead == a + rest && rest[1..] == b + tail;
      TrimLeftPast(a, rest, IsDigit);
      TrimLeftPast(b, tail, IsDigit);
    }
  }

  /**
    A label leads to the first heading that bears it; failing that to the first that begins
    alike; failing that, where it begins with a section number, to the first under that
    number; and otherwise nowhere.
   */
  lemma ResolveExactly(caption: string, headings: seq<Heading>, i: nat)
    ensures var clean := Strip(Trim(Strip(caption), IsTick));
            && (IsFirst(headings, i, Named(clean)) ==> Resolve(caption, headings) == Some(headings[i].line))
            && (NoneIs(headings, Named(clean)) && IsFirst(headings, i, Near(clean)) ==>
                  Resolve(caption, headings) == Some(headings[i].line))
            && (NoneIs(headings, Named(clean)) && NoneIs(headings, Near(clean)) ==>
                  forall lead :: Leads(clean, lead) ==>
                    && (forall number :: Numbers(lead, number) && IsFirst(headings, i, Under(number)) ==>
                          Resolve(caption, headings) == Some(headings[i].line))
                    && ((forall number :: Numbers(lead, number) ==> NoneIs(headings, Under(number))) ==>
                          Resolve(caption, headings).None?))
  {
    var clean := Strip(Trim(Strip(caption), IsTick));
    FirstNamedIs(clean, headings);
    FirstNearIs(clean, headings);
    FirstWordIs(clean);
    var lead := FirstWord(clean);
    if IsSectionNumber(lead) {
      NumberOf(lead);
      FirstUnderIs(TrimRight(lead, IsDot), headings);
    }
    forall number | Numbers(lead, number) ensures IsSectionNumber(lead) && number == TrimRight(lead, IsDot) {
      NumberRead(lead, number);
      NumberIsTrimmed(lead, number);
    }
  }

  lemma NumberIsTrimmed(lead: string, number: string)
    requires Numbers(lead, number)
    ensures number == TrimRight(lead, IsDot)
  {
    assert number != "" && IsDigit(number[|number| - 1]);
    TrimRightPast(number, lead[|number|..], IsDot);
    assert lead == number + lead[|number|..];
  }

  // ---- what a caption says without its marks ----

  lemma BareOfSign(rest: string)
    ensures Bare([SECTION_SIGN] + rest) == Strip(rest)
  {
    assert ([SECTION_SIGN] + rest)[1..] == rest;
  }

  lemma BareOfMention(pad: string, dash: char, gap: string, rest: string)
    requires All(pad, IsSpace) && All(gap, IsSpace) && dash in [EM_DASH, '-']
    ensures Bare("mention only" + pad + [dash] + gap + [SECTION_SIGN] + rest) == Strip(rest)
  {
    var signed := [SECTION_SIGN] + rest;
    var dashed := [dash] + (gap + signed);
    var caption := "mention only" + pad + [dash] + gap + [SECTION_SIGN] + rest;
    assert caption == MENTION + (pad + dashed);
    assert caption[|MENTION|..] == pad + dashed;
    TrimLeftPast(pad, dashed, IsSpace);
    assert dashed[1..] == gap + signed;
    TrimLeftPast(gap, signed, IsSpace);
    assert signed[1..] == rest;
  }

  lemma BareOtherwise(caption: string)
    requires caption == "" || caption[0] != SECTION_SIGN
    requires !("mention only" <= caption)
    ensures Bare(caption) == Strip(caption)
  {
  }

  // ---- the heading that covers a new operation ----

  /** A path without parameters is its own spelling. */
  lemma {:induction false} CamelOfPlain(path: string)
    requires '{' !in path
    ensures Camel(path) == path
  {
    if path != "" {
      assert path[0] in path;
      CamelOfPlain(path[1..]);
    }
  }

  lemma ParameterFirst(name: string, after: string)
    requires name != "" && All(name, IsParameterChar)
    ensures Camel("{" + name + "}" + after) == "{" + CamelName(name) + "}" + Camel(after)
  {
    hide CamelName, IsParameterChar;
    var path := "{" + name + "}" + after;
    assert path[1..] == name + ("}" + after);
    NoParameterChar();
    TrimLeftPast(name, "}" + after, IsParameterChar);
    assert path[1..1 + |name|] == name;
    assert ("}" + after)[1..] == after;
  }

  lemma NoParameterChar()
    ensures !IsParameterChar('}')
  {
  }

  lemma {:induction false} CamelAfter(before: string, path: string)
    requires '{' !in before
    ensures Camel(before + path) == before + Camel(path)
  {
    if before == "" {
      assert "" + path == path;
    } else {
      assert before[0] in before;
      assert (before + path)[1..] == before[1..] + path;
      CamelAfter(before[1..], path);
      assert [before[0]] + (before[1..] + Camel(path)) == before + Camel(path);
    }
  }

  /** A parameter in snake case is spelled in camelCase, and what stands before and after it apart from it. */
  lemma CamelOfParameter(before: string, name: string, after: string)
    requires '{' !in before && name != "" && forall i :: 0 <= i < |name| ==> 'a' <= name[i] <= 'z' || name[i] == '_'
    ensures Camel(before + ("{" + name + "}" + after)) == before + ("{" + CamelName(name) + "}" + Camel(after))
  {
    CamelAfter(before, "{" + name + "}" + after);
    ParameterFirst(name, after);
  }

  lemma {:induction false} CamelNameAfter(word: string, rest: string)
    requires '_' !in word
    ensures CamelName(word + rest) == word + CamelName(rest)
  {
    if word == "" {
      assert "" + rest == rest;
    } else {
      assert word[0] in word;
      assert (word + rest)[1..] == word[1..] + rest;
      CamelNameAfter(word[1..], rest);
      assert [word[0]] + (word[1..] + CamelName(rest)) == word + CamelName(rest);
    }
  }

  /** An underscore goes, and the letter behind it becomes a capital. */
  lemma CamelOfName(word: string, c: char, rest: string)
    requires '_' !in word && 'a' <= c <= 'z'
    ensures CamelName(word) == word
    ensures CamelName(word + (['_', c] + rest)) == word + ([(c as int - 'a' as int + 'A' as int) as char] + CamelName(rest))
  {
    CamelNameAfter(word, "");
    assert word + "" == word;
    CamelNameAfter(word, ['_', c] + rest);
    assert (['_', c] + rest)[2..] == rest;
  }

  /** A path as it is or in camelCase, with the common prefix or without it where more than a character is left. */
  ghost predicate Spells(s: string, path: string) {
    || s == path || s == Camel(path)
    || (|s| > 1 && ("/api/v1" + s == path || "/api/v1" + s == Camel(path)))
  }

  lemma ShortIs(path: string, s: string)
    ensures s in WithShort(path) <==> s == path || (|s| > 1 && "/api/v1" + s == path)
  {
    if |s| > 1 && "/api/v1" + s == path {
      assert path[7..] == s;
    }
    if PREFIX <= path {
      assert path == "/api/v1" + path[7..];
    }
  }

  /** A third-level heading that ends with a spelling of the path, with or without a backtick. */
  ghost function Covering(path: string): Heading -> bool {
    (h: Heading) =>
      && h.hashes == 3
      && exists s :: Spells(s, path)
           && (EndsWith(Trim(Strip(h.text), IsTick), s) || EndsWith(Trim(Strip(h.text), IsTick), s + "`"))
  }

  lemma CoversExactly(h: Heading, path: string)
    ensures Covers(h, path) <==> Covering(path)(h)
  {
    forall s ensures s in Spellings(path) <==> Spells(s, path) {
      ShortIs(path, s);
      ShortIs(Camel(path), s);
    }
    hide Spells, Spellings, EndsWith, Trim, Strip;
  }

  lemma {:induction false} CoveringExactly(path: string, headings: seq<Heading>)
    ensures forall i: nat :: IsFirst(headings, i, Covering(path)) ==> CoveringHeading(path, headings) == Some(headings[i])
    ensures NoneIs(headings, Covering(path)) <==> CoveringHeading(path, headings).None?
  {
    if headings != [] {
      CoversExactly(headings[0], path);
      if !Covering(path)(headings[0]) {
        CoveringExactly(path, headings[1..]);
        forall i: nat ensures i > 0 ==> (IsFirst(headings, i, Covering(path)) <==> IsFirst(headings[1..], i - 1, Covering(path))) {
          FirstOfTail(headings, i, Covering(path));
        }
        FirstOfTail(headings, 0, Covering(path));
      }
    }
  }

  // ---- the cell ----

  /**
    The cell of an operation that had one: kept as it is where it says the operation is
    missing, and otherwise its caption with the line looked up again, or alone where the caption
    leads nowhere.
   */
  lemma OldCellExactly(existing: string, path: string, headings: seq<Heading>)
    requires Strip(existing) != ""
    ensures var cell := Strip(existing);
            var now := ApiCell(Some(existing), path, headings);
            && (Contains(cell, "**missing**") ==> now == cell)
            && (!Contains(cell, "**missing**") ==>
                  forall caption :: Refers(cell, caption) || (caption == cell && forall c :: !Refers(cell, c)) ==>
                    match Resolve(Bare(caption), headings)
                    case Some(line) => now == caption + " (API.md:" + Decimal(line) + ")"
                    case None => now == caption)
  {
    var cell := Strip(existing);
    StripTwice(existing);
    forall caption ensures Unreferred(cell) == Some(caption) <==> Refers(cell, caption) {
      ReferenceExactly(cell, caption);
    }
    forall caption | Refers(cell, caption) || (caption == cell && forall c :: !Refers(cell, c)) ensures Caption(cell) == caption {
      if !Refers(cell, caption) && Unreferred(cell).Some? {
        ReferenceExactly(cell, Unreferred(cell).value);
      }
    }
    forall caption: string, line: nat ensures Referring(caption, line) == caption + " (API.md:" + Decimal(line) + ")" {
      assert " (API.md:" == " " + "(API.md:";
    }
  }

  /** The cell of a new operation: its heading, quoted, with its line; or that there is none. */
  lemma NewCellExactly(existing: Option<string>, path: string, headings: seq<Heading>)
    requires existing.Some? ==> Strip(existing.value) == ""
    ensures forall i: nat :: IsFirst(headings, i, Covering(path)) ==>
              ApiCell(existing, path, headings)
              == [SECTION_SIGN] + " `" + Trim(Strip(headings[i].text), IsTick) + "` (API.md:" + Decimal(headings[i].line) + ")"
    ensures NoneIs(headings, Covering(path)) ==> ApiCell(existing, path, headings) == "**missing**"
  {
    CoveringExactly(path, headings);
    forall i: nat | IsFirst(headings, i, Covering(path))
      ensures FreshCell(path, headings)
              == [SECTION_SIGN] + " `" + Trim(Strip(headings[i].text), IsTick) + "` (API.md:" + Decimal(headings[i].line) + ")"
    {
      SpelledOut(Trim(Strip(headings[i].text), IsTick), Decimal(headings[i].line));
    }
  }

  lemma SpelledOut(text: string, line: string)
    ensures [SECTION_SIGN, ' '] + ("`" + text + "`") + " " + ("(API.md:" + line + ")")
            == [SECTION_SIGN] + " `" + text + "` (API.md:" + line + ")"
  {
  }
}
