/** Finding the end of a JavaScript call and the path literal it begins with. */
module Scanner {
  import opened Wrappers
  import opened Text

  // ---- what the scanner computes ----

  /** Just past the brace that closes `depth` open ones, or the end of the text. */
  function BraceEnd(text: string, cursor: nat, depth: nat): (end: nat)
    requires cursor <= |text|
    ensures cursor <= end <= |text|
    decreases |text| - cursor
  {
    if cursor == |text| || depth == 0 then cursor
    else if text[cursor] == '{' then BraceEnd(text, cursor + 1, depth + 1)
    else if text[cursor] == '}' then BraceEnd(text, cursor + 1, depth - 1)
    else BraceEnd(text, cursor + 1, depth)
  }

  /** An interpolation that builds a query string rather than a path segment. */
  predicate IsQueryish(expression: string) {
    Contains(expression, "query(") || Contains(expression, "range(")
    || '?' in expression || '=' in expression || '&' in expression
  }

  function Substituted(expression: string): string {
    if IsQueryish(expression) then "" else "{param}"
  }

  /** The text inside an interpolation that begins at `from` and ends before `end`. */
  function Expression(text: string, from: nat, end: nat): string
    requires from <= end <= |text|
  {
    if from < end then text[from..end - 1] else ""
  }

  datatype Literal = Literal(value: Option<string>, end: nat)

  predicate OpensInterpolation(text: string, index: nat, quote: char)
    requires index < |text|
  {
    text[index] == '$' && quote == '`' && index + 1 < |text| && text[index + 1] == '{'
  }

  function Prefixed(s: string, l: Literal): Literal {
    if l.value.Some? then Literal(Some(s + l.value.value), l.end) else l
  }

  /** The literal whose text begins at `index`: its value, if it ends, and where reading stopped. */
  function LiteralFrom(text: string, index: nat, quote: char): (l: Literal)
    requires index <= |text| + 1
    ensures index <= l.end <= |text| + 1
    ensures l.value.Some? ==> index < l.end <= |text| && text[l.end - 1] == quote
    decreases |text| + 1 - index
  {
    if index >= |text| then Literal(None, index)
    else if text[index] == '\\' then LiteralFrom(text, index + 2, quote)
    else if text[index] == quote then Literal(Some(""), index + 1)
    else if OpensInterpolation(text, index, quote) then
      var cursor := BraceEnd(text, index + 2, 1);
      Prefixed(Substituted(Expression(text, index + 2, cursor)), LiteralFrom(text, cursor, quote))
    else Prefixed([text[index]], LiteralFrom(text, index + 1, quote))
  }

  predicate IsQuote(c: char) { c == '"' || c == '\'' || c == '`' }

  /** Where the call ends, `depth` parentheses being open at `index`. */
  function Scan(text: string, index: nat, depth: int): (end: nat)
    requires index <= |text| + 1
    ensures end <= |text|
    ensures index <= |text| ==> end >= index
    ensures index < |text| ==> end > index
    decreases |text| + 1 - index
  {
    if index >= |text| then |text|
    else if IsQuote(text[index]) then Scan(text, LiteralFrom(text, index + 1, text[index]).end, depth)
    else if text[index] == '(' then Scan(text, index + 1, depth + 1)
    else if text[index] == ')' then
      if depth == 1 then index + 1 else Scan(text, index + 1, depth - 1)
    else Scan(text, index + 1, depth)
  }

  function CallEnd(text: string, openParen: nat): (end: nat)
    requires openParen < |text|
    ensures openParen < end <= |text|
  {
    Scan(text, openParen, 0)
  }

  // ---- the loops ----

  method ReadBraces(text: string, from: nat) returns (cursor: nat)
    requires from <= |text|
    ensures cursor == BraceEnd(text, from, 1)
  {
    var depth: nat := 1;
    cursor := from;
    while cursor < |text| && depth > 0
      invariant cursor <= |text|
      invariant BraceEnd(text, from, 1) == BraceEnd(text, cursor, depth)
    {
      if text[cursor] == '{' {
        depth := depth + 1;
      } else if text[cursor] == '}' {
        depth := depth - 1;
      }
      cursor := cursor + 1;
    }
  }

  lemma PrefixedTwice(a: string, b: string, l: Literal)
    ensures Prefixed(a, Prefixed(b, l)) == Prefixed(a + b, l)
  {
    if l.value.Some? {
      assert a + (b + l.value.value) == (a + b) + l.value.value;
    }
  }

  /** `_read_literal`. */
  method ReadLiteral(text: string, start: nat, quote: char) returns (value: Option<string>, index: nat)
    requires start <= |text| + 1
    ensures Literal(value, index) == LiteralFrom(text, start, quote)
  {
    var out := "";
    index := start;
    ghost var whole := LiteralFrom(text, start, quote);
    assert whole == Prefixed("", whole) by {
      assert whole.value.Some? ==> "" + whole.value.value == whole.value.value;
    }
    while index < |text|
      invariant index <= |text| + 1
      invariant whole == Prefixed(out, LiteralFrom(text, index, quote))
      decreases |text| + 1 - index
    {
      var c := text[index];
      if c == '\\' {
        index := index + 2;
      } else if c == quote {
        assert out + "" == out;
        return Some(out), index + 1;
      } else if OpensInterpolation(text, index, quote) {
        var cursor := ReadBraces(text, index + 2);
        var piece := Substituted(Expression(text, index + 2, cursor));
        PrefixedTwice(out, piece, LiteralFrom(text, cursor, quote));
        out := out + piece;
        index := cursor;
      } else {
        PrefixedTwice(out, [c], LiteralFrom(text, index + 1, quote));
        out := out + [c];
        index := index + 1;
      }
    }
    value := None;
  }

  /** `_call_end`. */
  method FindCallEnd(text: string, openParen: nat) returns (end: nat)
    requires openParen < |text|
    ensures end == CallEnd(text, openParen)
  {
    var depth: int, index: nat := 0, openParen;
    while index < |text|
      invariant index <= |text| + 1
      invariant CallEnd(text, openParen) == Scan(text, index, depth)
      decreases |text| + 1 - index
    {
      var c := text[index];
      if IsQuote(c) {
        var _, next := ReadLiteral(text, index + 1, c);
        index := next;
      } else {
        if c == '(' {
          depth := depth + 1;
        } else if c == ')' {
          depth := depth - 1;
          if depth == 0 {
            return index + 1;
          }
        }
        index := index + 1;
      }
    }
    end := |text|;
  }

  // ---- calls as a grammar ----

  /** The inside of an interpolation: anything, with its braces balanced. */
  datatype Braces = Blank | Other(c: char, rest: Braces) | Nest(inside: Braces, rest: Braces)

  /** The inside of a literal. */
  datatype Parts = Done | Chr(c: char, rest: Parts) | Esc(c: char, rest: Parts) | Interp(body: Braces, rest: Parts)

  /** The inside of a call. */
  datatype Items =
    | End
    | Plain(c: char, rest: Items)
    | Group(inside: Items, rest: Items)
    | Quoted(quote: char, parts: Parts, rest: Items)

  function BracesText(b: Braces): string {
    match b
    case Blank => ""
    case Other(c, rest) => [c] + BracesText(rest)
    case Nest(inside, rest) => "{" + BracesText(inside) + "}" + BracesText(rest)
  }

  function PartsText(p: Parts): string {
    match p
    case Done => ""
    case Chr(c, rest) => [c] + PartsText(rest)
    case Esc(c, rest) => ['\\', c] + PartsText(rest)
    case Interp(body, rest) => "${" + BracesText(body) + "}" + PartsText(rest)
  }

  function ItemsText(i: Items): string {
    match i
    case End => ""
    case Plain(c, rest) => [c] + ItemsText(rest)
    case Group(inside, rest) => "(" + ItemsText(inside) + ")" + ItemsText(rest)
    case Quoted(quote, parts, rest) => [quote] + PartsText(parts) + [quote] + ItemsText(rest)
  }

  predicate BracesOk(b: Braces) {
    match b
    case Blank => true
    case Other(c, rest) => c != '{' && c != '}' && BracesOk(rest)
    case Nest(inside, rest) => BracesOk(inside) && BracesOk(rest)
  }

  /** No bare quote or backslash, and in a template no bare dollar before a brace. */
  predicate PartsOk(p: Parts, quote: char) {
    match p
    case Done => true
    case Chr(c, rest) =>
      && c != quote && c != '\\' && PartsOk(rest, quote)
      && !(quote == '`' && c == '$' && rest.Chr? && rest.c == '{')
    case Esc(_, rest) => PartsOk(rest, quote)
    case Interp(body, rest) => quote == '`' && BracesOk(body) && PartsOk(rest, quote)
  }

  predicate ItemsOk(i: Items) {
    match i
    case End => true
    case Plain(c, rest) => c != '(' && c != ')' && !IsQuote(c) && ItemsOk(rest)
    case Group(inside, rest) => ItemsOk(inside) && ItemsOk(rest)
    case Quoted(quote, parts, rest) => IsQuote(quote) && PartsOk(parts, quote) && ItemsOk(rest)
  }

  /** What the sweep keeps of a literal: escapes dropped, interpolations as a segment or as nothing. */
  function Value(p: Parts): string {
    match p
    case Done => ""
    case Chr(c, rest) => [c] + Value(rest)
    case Esc(_, rest) => Value(rest)
    case Interp(body, rest) => Substituted(BracesText(body)) + Value(rest)
  }

  /**
    What the sweep is to keep of a literal: its characters, nothing for an escape, and for an
    interpolation a parameter segment, unless it builds a query string.
   */
  ghost predicate Keeps(p: Parts, kept: string) {
    match p
    case Done => kept == ""
    case Chr(c, rest) => kept != "" && kept[0] == c && Keeps(rest, kept[1..])
    case Esc(_, rest) => Keeps(rest, kept)
    case Interp(body, rest) =>
      var expression := BracesText(body);
      if Contains(expression, "query(") || Contains(expression, "range(") || exists c :: c in "?=&" && c in expression
      then Keeps(rest, kept)
      else "{param}" <= kept && Keeps(rest, kept[|"{param}"|..])
  }

  lemma {:induction false} ValueIsKept(p: Parts)
    ensures Keeps(p, Value(p))
  {
    match p
    case Done =>
    case Chr(c, rest) =>
      ValueIsKept(rest);
      assert Value(p)[1..] == Value(rest);
    case Esc(_, rest) => ValueIsKept(rest);
    case Interp(body, rest) =>
      ValueIsKept(rest);
      QueryishExactly(BracesText(body));
      if IsQueryish(BracesText(body)) {
        assert Value(p) == Value(rest);
      } else {
        assert Value(p)[|"{param}"|..] == Value(rest);
      }
  }

  lemma QueryishExactly(expression: string)
    ensures IsQueryish(expression) <==>
              Contains(expression, "query(") || Contains(expression, "range(") || exists c :: c in "?=&" && c in expression
  {
    assert '?' in "?=&" && '=' in "?=&" && '&' in "?=&";
  }

  // ---- the scanner agrees with the grammar ----

  predicate At(text: string, i: nat, s: string) {
    i + |s| <= |text| && text[i..i + |s|] == s
  }

  lemma AtSplit(text: string, i: nat, a: string, b: string)
    requires At(text, i, a + b)
    ensures At(text, i, a) && At(text, i + |a|, b)
  {
    assert text[i..i + |a|] == text[i..i + |a + b|][..|a|];
    assert text[i + |a|..i + |a| + |b|] == text[i..i + |a + b|][|a|..];
  }

  lemma AtHead(text: string, i: nat, c: char, b: string)
    requires At(text, i, [c] + b)
    ensures i < |text| && text[i] == c && At(text, i + 1, b)
  {
    AtSplit(text, i, [c], b);
    assert text[i..i + 1][0] == c;
  }

  /** A bracketed stretch and what follows it, position by position. */
  lemma AtBracketed(text: string, i: nat, open: char, body: string, close: char, tail: string)
    requires At(text, i, [open] + body + [close] + tail)
    ensures i + |body| + 2 <= |text| && text[i] == open && At(text, i + 1, body)
    ensures text[i + 1 + |body|] == close && At(text, i + 2 + |body|, tail)
  {
    assert [open] + body + [close] + tail == [open] + (body + ([close] + tail));
    AtHead(text, i, open, body + ([close] + tail));
    AtSplit(text, i + 1, body, [close] + tail);
    AtHead(text, i + 1 + |body|, close, tail);
  }

  lemma {:induction false} BracesSkipped(text: string, i: nat, b: Braces, depth: nat)
    requires BracesOk(b) && At(text, i, BracesText(b)) && depth > 0
    ensures i + |BracesText(b)| <= |text|
    ensures BraceEnd(text, i, depth) == BraceEnd(text, i + |BracesText(b)|, depth)
    decreases b
  {
    match b
    case Blank =>
    case Other(c, rest) =>
      AtHead(text, i, c, BracesText(rest));
      BracesSkipped(text, i + 1, rest, depth);
    case Nest(_, _) =>
      NestCase(text, i, b, depth);
  }

  lemma NestText(b: Braces)
    requires b.Nest?
    ensures BracesText(b) == ['{'] + BracesText(b.inside) + ['}'] + BracesText(b.rest)
    ensures |BracesText(b)| == 2 + |BracesText(b.inside)| + |BracesText(b.rest)|
  {
  }

  lemma {:induction false} NestCase(text: string, i: nat, b: Braces, depth: nat)
    requires b.Nest? && BracesOk(b) && At(text, i, BracesText(b)) && depth > 0
    ensures i + |BracesText(b)| <= |text|
    ensures BraceEnd(text, i, depth) == BraceEnd(text, i + |BracesText(b)|, depth)
    decreases b, 0
  {
    hide BraceEnd;
    var body, tail := BracesText(b.inside), BracesText(b.rest);
    NestText(b);
    AtBracketed(text, i, '{', body, '}', tail);
    BracesSkipped(text, i + 1, b.inside, depth + 1);
    BracesSkipped(text, i + 2 + |body|, b.rest, depth);
    NestSkipped(text, i, body, depth);
  }

  lemma NestSkipped(text: string, i: nat, body: string, depth: nat)
    requires i + |body| + 2 <= |text| && depth > 0 && text[i] == '{' && text[i + 1 + |body|] == '}'
    requires BraceEnd(text, i + 1, depth + 1) == BraceEnd(text, i + 1 + |body|, depth + 1)
    ensures BraceEnd(text, i, depth) == BraceEnd(text, i + 2 + |body|, depth)
  {
  }

  /** An interpolation is left just past its closing brace, with its text in hand. */
  lemma InterpolationRead(text: string, i: nat, body: Braces, after: string)
    requires BracesOk(body) && At(text, i, BracesText(body) + (['}'] + after))
    ensures var end := i + |BracesText(body)| + 1;
            && end <= |text| && BraceEnd(text, i, 1) == end
            && Expression(text, i, end) == BracesText(body)
            && At(text, end, after)
  {
    hide BraceEnd, BracesText;
    var n := |BracesText(body)|;
    AtSplit(text, i, BracesText(body), ['}'] + after);
    AtHead(text, i + n, '}', after);
    BracesSkipped(text, i, body, 1);
    LastBrace(text, i + n);
  }

  lemma LastBrace(text: string, i: nat)
    requires i < |text| && text[i] == '}'
    ensures BraceEnd(text, i, 1) == i + 1
  {
    assert BraceEnd(text, i, 1) == BraceEnd(text, i + 1, 0);
  }

  lemma {:induction false} LiteralRead(text: string, i: nat, parts: Parts, quote: char)
    requires IsQuote(quote) && PartsOk(parts, quote) && At(text, i, PartsText(parts) + [quote])
    ensures LiteralFrom(text, i, quote) == Literal(Some(Value(parts)), i + |PartsText(parts)| + 1)
    decreases parts
  {
    match parts
    case Done =>
      assert PartsText(parts) + [quote] == [quote] + "";
      AtHead(text, i, quote, "");
    case Chr(_, rest) =>
      ChrRead(text, i, parts, quote);
      LiteralRead(text, i + 1, rest, quote);
    case Esc(_, rest) =>
      EscRead(text, i, parts, quote);
      LiteralRead(text, i + 2, rest, quote);
    case Interp(_, _) =>
      InterpCase(text, i, parts, quote);
  }

  lemma {:induction false} InterpCase(text: string, i: nat, parts: Parts, quote: char)
    requires parts.Interp? && IsQuote(quote) && PartsOk(parts, quote) && At(text, i, PartsText(parts) + [quote])
    ensures LiteralFrom(text, i, quote) == Literal(Some(Value(parts)), i + |PartsText(parts)| + 1)
    decreases parts, 0
  {
    hide LiteralFrom;
    var next := i + 3 + |BracesText(parts.body)|;
    InterpRead(text, i, parts, quote);
    LiteralRead(text, next, parts.rest, quote);
    InterpJoined(i, parts, LiteralFrom(text, next, quote));
  }

  lemma InterpJoined(i: nat, parts: Parts, rest: Literal)
    requires parts.Interp?
    requires rest == Literal(Some(Value(parts.rest)), i + 3 + |BracesText(parts.body)| + |PartsText(parts.rest)| + 1)
    ensures Prefixed(Substituted(BracesText(parts.body)), rest) == Literal(Some(Value(parts)), i + |PartsText(parts)| + 1)
  {
    InterpLength(parts);
  }

  lemma InterpLength(parts: Parts)
    requires parts.Interp?
    ensures |PartsText(parts)| == 3 + |BracesText(parts.body)| + |PartsText(parts.rest)|
  {
  }

  lemma ChrRead(text: string, i: nat, parts: Parts, quote: char)
    requires parts.Chr? && IsQuote(quote) && PartsOk(parts, quote) && At(text, i, PartsText(parts) + [quote])
    ensures At(text, i + 1, PartsText(parts.rest) + [quote])
    ensures LiteralFrom(text, i, quote) == Prefixed([parts.c], LiteralFrom(text, i + 1, quote))
  {
    var next := PartsText(parts.rest) + [quote];
    assert PartsText(parts) + [quote] == [parts.c] + next;
    AtHead(text, i, parts.c, next);
    NotOpening(text, i, parts, quote);
  }

  lemma EscRead(text: string, i: nat, parts: Parts, quote: char)
    requires parts.Esc? && At(text, i, PartsText(parts) + [quote])
    ensures i + 2 <= |text| && At(text, i + 2, PartsText(parts.rest) + [quote])
    ensures LiteralFrom(text, i, quote) == LiteralFrom(text, i + 2, quote)
  {
    var next := PartsText(parts.rest) + [quote];
    assert PartsText(parts) + [quote] == ['\\'] + ([parts.c] + next);
    AtHead(text, i, '\\', [parts.c] + next);
    AtHead(text, i + 1, parts.c, next);
  }

  lemma TwoAtHead(text: string, i: nat, c: char, d: char, tail: string)
    requires At(text, i, [c] + ([d] + tail))
    ensures i + 2 <= |text| && text[i] == c && text[i + 1] == d && At(text, i + 2, tail)
  {
    AtHead(text, i, c, [d] + tail);
    AtHead(text, i + 1, d, tail);
  }

  lemma InterpRead(text: string, i: nat, parts: Parts, quote: char)
    requires parts.Interp? && PartsOk(parts, quote) && At(text, i, PartsText(parts) + [quote])
    ensures var next := i + 3 + |BracesText(parts.body)|;
            && next <= |text| && At(text, next, PartsText(parts.rest) + [quote])
            && LiteralFrom(text, i, quote)
               == Prefixed(Substituted(BracesText(parts.body)), LiteralFrom(text, next, quote))
  {
    hide LiteralFrom, BraceEnd;
    var next := PartsText(parts.rest) + [quote];
    InterpText(parts, quote);
    TwoAtHead(text, i, '$', '{', BracesText(parts.body) + (['}'] + next));
    InterpolationRead(text, i + 2, parts.body, next);
    InterpStep(text, i, i + 3 + |BracesText(parts.body)|, BracesText(parts.body));
  }

  lemma InterpStep(text: string, i: nat, end: nat, body: string)
    requires i + 2 <= end <= |text| && text[i] == '$' && text[i + 1] == '{'
    requires BraceEnd(text, i + 2, 1) == end && Expression(text, i + 2, end) == body
    ensures LiteralFrom(text, i, '`') == Prefixed(Substituted(body), LiteralFrom(text, end, '`'))
  {
  }

  lemma InterpText(parts: Parts, quote: char)
    requires parts.Interp?
    ensures PartsText(parts) + [quote]
            == ['$'] + (['{'] + (BracesText(parts.body) + (['}'] + (PartsText(parts.rest) + [quote]))))
  {
    var body, rest := BracesText(parts.body), PartsText(parts.rest);
    assert PartsText(parts) == "${" + body + "}" + rest;
    assert "${" + body + "}" + rest + [quote] == ['$'] + (['{'] + (body + (['}'] + (rest + [quote]))));
  }

  /** A plain character of a literal opens no interpolation. */
  lemma NotOpening(text: string, i: nat, parts: Parts, quote: char)
    requires parts.Chr? && PartsOk(parts, quote) && i < |text| && text[i] == parts.c
    requires IsQuote(quote) && At(text, i + 1, PartsText(parts.rest) + [quote])
    ensures !OpensInterpolation(text, i, quote)
  {
    var next := PartsText(parts.rest) + [quote];
    assert text[i + 1] == text[i + 1..i + 1 + |next|][0] == next[0];
  }

  lemma {:induction false} ItemsSkipped(text: string, i: nat, items: Items, depth: int)
    requires ItemsOk(items) && At(text, i, ItemsText(items)) && depth > 0
    ensures i + |ItemsText(items)| <= |text|
    ensures Scan(text, i, depth) == Scan(text, i + |ItemsText(items)|, depth)
    decreases items
  {
    hide Scan;
    match items
    case End =>
    case Plain(_, _) => PlainCase(text, i, items, depth);
    case Group(_, _) => GroupCase(text, i, items, depth);
    case Quoted(_, _, _) => QuotedCase(text, i, items, depth);
  }

  lemma {:induction false} PlainCase(text: string, i: nat, items: Items, depth: int)
    requires items.Plain? && ItemsOk(items) && At(text, i, ItemsText(items)) && depth > 0
    ensures i + |ItemsText(items)| <= |text|
    ensures Scan(text, i, depth) == Scan(text, i + |ItemsText(items)|, depth)
    decreases items, 0
  {
    hide Scan;
    AtHead(text, i, items.c, ItemsText(items.rest));
    PlainStep(text, i, depth);
    ItemsSkipped(text, i + 1, items.rest, depth);
  }

  lemma {:induction false} QuotedCase(text: string, i: nat, items: Items, depth: int)
    requires items.Quoted? && ItemsOk(items) && At(text, i, ItemsText(items)) && depth > 0
    ensures i + |ItemsText(items)| <= |text|
    ensures Scan(text, i, depth) == Scan(text, i + |ItemsText(items)|, depth)
    decreases items, 0
  {
    hide Scan, At, PartsText;
    QuotedSkipped(text, i, items, depth);
    ItemsSkipped(text, i + 2 + |PartsText(items.parts)|, items.rest, depth);
  }

  lemma PlainStep(text: string, i: nat, depth: int)
    requires i < |text| && text[i] != '(' && text[i] != ')' && !IsQuote(text[i])
    ensures Scan(text, i, depth) == Scan(text, i + 1, depth)
  {
  }

  lemma GroupText(items: Items)
    requires items.Group?
    ensures ItemsText(items) == ['('] + ItemsText(items.inside) + [')'] + ItemsText(items.rest)
    ensures |ItemsText(items)| == 2 + |ItemsText(items.inside)| + |ItemsText(items.rest)|
  {
  }

  lemma {:induction false} GroupCase(text: string, i: nat, items: Items, depth: int)
    requires items.Group? && ItemsOk(items) && At(text, i, ItemsText(items)) && depth > 0
    ensures i + |ItemsText(items)| <= |text|
    ensures Scan(text, i, depth) == Scan(text, i + |ItemsText(items)|, depth)
    decreases items, 0
  {
    hide Scan;
    var body, tail := ItemsText(items.inside), ItemsText(items.rest);
    GroupText(items);
    AtBracketed(text, i, '(', body, ')', tail);
    ItemsSkipped(text, i + 1, items.inside, depth + 1);
    ItemsSkipped(text, i + 2 + |body|, items.rest, depth);
    GroupSkipped(text, i, body, depth);
  }

  lemma GroupSkipped(text: string, i: nat, body: string, depth: int)
    requires i + |body| + 2 <= |text| && depth > 0 && text[i] == '(' && text[i + 1 + |body|] == ')'
    requires Scan(text, i + 1, depth + 1) == Scan(text, i + 1 + |body|, depth + 1)
    ensures Scan(text, i, depth) == Scan(text, i + 2 + |body|, depth)
  {
  }

  lemma QuotedSkipped(text: string, i: nat, items: Items, depth: int)
    requires items.Quoted? && ItemsOk(items) && At(text, i, ItemsText(items))
    ensures var next := i + 2 + |PartsText(items.parts)|;
            next <= |text| && At(text, next, ItemsText(items.rest)) && Scan(text, i, depth) == Scan(text, next, depth)
  {
    hide Scan, LiteralFrom;
    var quote := items.quote;
    QuotedText(items);
    QuotedAt(text, i, quote, PartsText(items.parts) + [quote], ItemsText(items.rest));
    LiteralRead(text, i + 1, items.parts, quote);
    QuoteStep(text, i, depth);
  }

  lemma QuotedAt(text: string, i: nat, quote: char, body: string, tail: string)
    requires At(text, i, [quote] + (body + tail))
    ensures i + 1 + |body| <= |text| && text[i] == quote
    ensures At(text, i + 1, body) && At(text, i + 1 + |body|, tail)
  {
    AtHead(text, i, quote, body + tail);
    AtSplit(text, i + 1, body, tail);
  }

  lemma QuoteStep(text: string, i: nat, depth: int)
    requires i < |text| && IsQuote(text[i])
    ensures Scan(text, i, depth) == Scan(text, LiteralFrom(text, i + 1, text[i]).end, depth)
  {
  }

  lemma QuotedText(items: Items)
    requires items.Quoted?
    ensures ItemsText(items) == [items.quote] + ((PartsText(items.parts) + [items.quote]) + ItemsText(items.rest))
  {
  }

  /** A call's own text. */
  function CallText(items: Items): string {
    "(" + ItemsText(items) + ")"
  }

  lemma AtMiddle(before: string, s: string, after: string)
    ensures At(before + s + after, |before|, s)
  {
  }

  /** Wherever a well-formed call stands, its end is found exactly, whatever precedes and follows it. */
  lemma CallEndIsExact(before: string, items: Items, after: string)
    requires ItemsOk(items)
    ensures CallEnd(before + CallText(items) + after, |before|) == |before| + |CallText(items)|
  {
    var text := before + CallText(items) + after;
    AtMiddle(before, CallText(items), after);
    CallSkipped(text, |before|, items);
  }

  lemma CallSkipped(text: string, i: nat, items: Items)
    requires ItemsOk(items) && At(text, i, CallText(items))
    ensures i < |text| && CallEnd(text, i) == i + |CallText(items)|
  {
    hide Scan, CallEnd;
    var body := ItemsText(items);
    assert CallText(items) == ['('] + body + [')'] + "";
    AtBracketed(text, i, '(', body, ')', "");
    ItemsSkipped(text, i + 1, items, 1);
    CloseRead(text, i, i + 1 + |body|);
  }

  lemma CloseRead(text: string, i: nat, close: nat)
    requires i < close < |text| && text[i] == '(' && text[close] == ')'
    requires Scan(text, i + 1, 1) == Scan(text, close, 1)
    ensures CallEnd(text, i) == close + 1
  {
  }

  /** A literal in a text is read to its closing quote, and yields the value the sweep is to keep. */
  lemma LiteralIsExact(before: string, parts: Parts, quote: char, after: string)
    requires IsQuote(quote) && PartsOk(parts, quote)
    ensures LiteralFrom(before + (PartsText(parts) + [quote]) + after, |before|, quote)
            == Literal(Some(Value(parts)), |before| + |PartsText(parts)| + 1)
    ensures Keeps(parts, Value(parts))
  {
    ValueIsKept(parts);
    AtMiddle(before, PartsText(parts) + [quote], after);
    LiteralRead(before + (PartsText(parts) + [quote]) + after, |before|, parts, quote);
  }

  // ---- the method of a call ----

  predicate IsLetter(c: char) { 'a' <= c <= 'z' || 'A' <= c <= 'Z' }

  function LowerChar(c: char): char {
    if 'A' <= c <= 'Z' then (c as int + 32) as char else c
  }

  function Lower(s: string): string {
    if s == [] then [] else [LowerChar(s[0])] + Lower(s[1..])
  }

  predicate IsShortQuote(c: char) { c == '"' || c == '\'' }

  /** A quoted word at the head of a text. */
  function QuotedWord(s: string): Option<string> {
    if s == "" || !IsShortQuote(s[0]) then None
    else
      var rest := TrimLeft(s[1..], IsLetter);
      var word := s[1..|s| - |rest|];
      if word != "" && rest != "" && IsShortQuote(rest[0]) then Some(word) else None
  }

  /** The first `method:` followed by a quoted word. */
  function MethodIn(s: string): Option<string> {
    var here := if "method:" <= s then QuotedWord(TrimLeft(s[7..], IsSpace)) else None;
    if here.Some? then here else if s == "" then None else MethodIn(s[1..])
  }

  const NAMED: map<string, string> := map["post" := "post", "put" := "put", "patch" := "patch", "del" := "delete"]

  function MethodOf(text: string, openParen: nat, fn: string): string
    requires openParen < |text|
  {
    if fn in NAMED then NAMED[fn]
    else
      var found := MethodIn(text[openParen..CallEnd(text, openParen)]);
      if found.Some? then Lower(found.value) else "get"
  }

  /** At this place the text says `method:` and a quoted word of letters, white space allowed between. */
  ghost predicate SaysMethod(s: string, i: nat, word: string) {
    i <= |s| && exists pad, open: char, close: char, rest ::
      && s[i..] == "method:" + pad + [open] + word + [close] + rest
      && All(pad, IsSpace) && open in "'\"" && close in "'\""
      && word != "" && forall c :: c in word ==> 'a' <= c <= 'z' || 'A' <= c <= 'Z'
  }

  lemma WordRead(open: char, word: string, close: char, rest: string)
    requires open in "'\"" && close in "'\"" && word != "" && forall c :: c in word ==> 'a' <= c <= 'z' || 'A' <= c <= 'Z'
    ensures QuotedWord([open] + word + [close] + rest) == Some(word)
  {
    var s := [open] + word + [close] + rest;
    assert s[1..] == word + ([close] + rest);
    assert All(word, IsLetter) by {
      assert forall i :: 0 <= i < |word| ==> word[i] in word;
    }
    TrimLeftPast(word, [close] + rest, IsLetter);
    assert s[1..|s| - |[close] + rest|] == word;
  }

  lemma MethodRead(s: string, word: string)
    requires SaysMethod(s, 0, word)
    ensures MethodIn(s) == Some(word)
  {
    hide IsSpace, QuotedWord, MethodIn;
    var pad, open: char, close: char, rest :|
      && s[0..] == "method:" + pad + [open] + word + [close] + rest
      && All(pad, IsSpace) && open in "'\"" && close in "'\"";
    var quoted := [open] + word + [close] + rest;
    assert s == "method:" + (pad + quoted);
    WordRead(open, word, close, rest);
    QuotedRead(s, pad, quoted);
  }

  lemma QuotedRead(s: string, pad: string, quoted: string)
    requires s == "method:" + (pad + quoted) && All(pad, IsSpace) && QuotedWord(quoted).Some?
    ensures MethodIn(s) == QuotedWord(quoted)
  {
    hide IsSpace, IsLetter;
    assert s[7..] == pad + quoted;
    assert !IsSpace(quoted[0]) by { QuoteIsVisible(quoted[0]); }
    TrimLeftPast(pad, quoted, IsSpace);
  }

  lemma QuoteIsVisible(c: char)
    requires IsShortQuote(c)
    ensures !IsSpace(c)
  {
  }

  lemma WordSaid(quoted: string) returns (close: char, rest: string)
    requires QuotedWord(quoted).Some?
    ensures var word := QuotedWord(quoted).value;
            && quoted == [quoted[0]] + word + [close] + rest
            && quoted[0] in "'\"" && close in "'\""
            && word != "" && forall c :: c in word ==> 'a' <= c <= 'z' || 'A' <= c <= 'Z'
  {
    var tail := TrimLeft(quoted[1..], IsLetter);
    var word := quoted[1..|quoted| - |tail|];
    TrimLeftFacts(quoted[1..], IsLetter);
    close, rest := tail[0], tail[1..];
    assert word == quoted[1..][..|quoted| - 1 - |tail|];
    assert quoted[1..] == word + tail;
  }

  lemma MethodSaid(s: string)
    requires "method:" <= s && QuotedWord(TrimLeft(s[7..], IsSpace)).Some?
    ensures SaysMethod(s, 0, QuotedWord(TrimLeft(s[7..], IsSpace)).value)
  {
    hide QuotedWord, IsSpace;
    var quoted := TrimLeft(s[7..], IsSpace);
    TrimLeftFacts(s[7..], IsSpace);
    var pad := s[7..][..|s| - 7 - |quoted|];
    var close, rest := WordSaid(quoted);
    assert s[7..] == pad + quoted;
    SaidBy(s, pad, quoted[0], QuotedWord(quoted).value, close, rest);
  }

  lemma SaidBy(s: string, pad: string, open: char, word: string, close: char, rest: string)
    requires "method:" <= s && s[7..] == pad + ([open] + word + [close] + rest)
    requires All(pad, IsSpace) && open in "'\"" && close in "'\""
    requires word != "" && forall c :: c in word ==> 'a' <= c <= 'z' || 'A' <= c <= 'Z'
    ensures SaysMethod(s, 0, word)
  {
    hide IsSpace;
    assert s[0..] == "method:" + pad + [open] + word + [close] + rest;
  }

  lemma SaidLater(s: string, i: nat, word: string)
    requires i > 0
    ensures SaysMethod(s, i, word) <==> s != "" && SaysMethod(s[1..], i - 1, word)
  {
    if i <= |s| {
      assert s[1..][i - 1..] == s[i..];
    }
  }

  /** The first place that says a method gives it, and where no place does there is none. */
  lemma {:induction false} MethodInExactly(s: string)
    ensures forall i: nat, word ::
              SaysMethod(s, i, word) && (forall j: nat, other :: j < i ==> !SaysMethod(s, j, other)) ==> MethodIn(s) == Some(word)
    ensures (forall i: nat, word :: !SaysMethod(s, i, word)) ==> MethodIn(s).None?
  {
    forall i: nat, word | SaysMethod(s, i, word) && (forall j: nat, other :: j < i ==> !SaysMethod(s, j, other))
      ensures MethodIn(s) == Some(word)
    {
      MethodFoundAt(s, i, word);
    }
    if MethodIn(s).Some? {
      var i := SomewhereSaid(s);
    }
  }

  lemma {:induction false} MethodFoundAt(s: string, i: nat, word: string)
    requires SaysMethod(s, i, word) && forall j: nat, other :: j < i ==> !SaysMethod(s, j, other)
    ensures MethodIn(s) == Some(word)
    decreases i
  {
    if i == 0 {
      MethodRead(s, word);
    } else {
      SaidLater(s, i, word);
      if "method:" <= s && QuotedWord(TrimLeft(s[7..], IsSpace)).Some? {
        MethodSaid(s);
        assert false;
      }
      forall j: nat, other | j < i - 1 ensures !SaysMethod(s[1..], j, other) {
        SaidLater(s, j + 1, other);
        assert !SaysMethod(s, j + 1, other);
      }
      MethodFoundAt(s[1..], i - 1, word);
    }
  }

  lemma {:induction false} SomewhereSaid(s: string) returns (i: nat)
    requires MethodIn(s).Some?
    ensures SaysMethod(s, i, MethodIn(s).value)
  {
    if "method:" <= s && QuotedWord(TrimLeft(s[7..], IsSpace)).Some? {
      MethodSaid(s);
      i := 0;
    } else {
      i := SomewhereSaid(s[1..]);
      i := i + 1;
      SaidLater(s, i, MethodIn(s).value);
    }
  }

  /** The word in lower case, letter by letter. */
  ghost predicate InLowerCase(word: string, lower: string) {
    && |lower| == |word|
    && forall k :: 0 <= k < |word| ==>
         if 'A' <= word[k] <= 'Z' then lower[k] as int == word[k] as int + 'a' as int - 'A' as int else lower[k] == word[k]
  }

  lemma {:induction false} LowerIs(word: string)
    ensures InLowerCase(word, Lower(word))
  {
    if word != [] {
      LowerIs(word[1..]);
    }
  }

  /**
    A call is by the method its function names; of any other function, by the first one its own
    text says, in lower case, and where it says none, it reads.
   */
  lemma MethodExactly(text: string, openParen: nat, fn: string)
    requires openParen < |text|
    ensures var call := text[openParen..CallEnd(text, openParen)];
            var verb := MethodOf(text, openParen, fn);
            if fn in ["post", "put", "patch", "del"] then verb == (if fn == "del" then "delete" else fn)
            else
              && (forall i: nat, word ::
                    SaysMethod(call, i, word) && (forall j: nat, other :: j < i ==> !SaysMethod(call, j, other)) ==>
                      InLowerCase(word, verb))
              && ((forall i: nat, word :: !SaysMethod(call, i, word)) ==> verb == "get")
  {
    var call := text[openParen..CallEnd(text, openParen)];
    MethodInExactly(call);
    var found := MethodIn(call);
    if found.Some? {
      LowerIs(found.value);
    }
  }

  /** A call's method is a matter of its own text: nothing before or after it can change it. */
  lemma MethodIsItsOwn(before: string, items: Items, after: string, fn: string)
    requires ItemsOk(items)
    ensures MethodOf(before + CallText(items) + after, |before|, fn) == MethodOf(CallText(items), 0, fn)
  {
    var text := before + CallText(items) + after;
    CallEndIsExact(before, items, after);
    CallEndIsExact("", items, "");
    assert "" + CallText(items) + "" == CallText(items);
    assert text[|before|..|before| + |CallText(items)|] == CallText(items);
    assert CallText(items)[0..|CallText(items)|] == CallText(items);
  }
}
