/**
  Which part of the API reference covers an operation: the headings of the reference,
  the caption a table cell carries, and the line number the caption is resolved to.
 */
module ApiMap {
  import opened Wrappers
  import opened Text

  const MISSING := "**missing**"
  const SECTION_SIGN: char := '\U{00A7}'
  const EM_DASH: char := '\U{2014}'

  // ---- headings ----

  datatype Heading = Heading(line: nat, hashes: nat, text: string)

  function Hashes(line: string): (n: nat)
    ensures n <= |line|
  {
    if line != [] && line[0] == '#' then 1 + Hashes(line[1..]) else 0
  }

  /** Two to four hashes, a space, and a text without its trailing white space. */
  function HeadingOf(line: string, number: nat): Option<Heading> {
    var n := Hashes(line);
    if 2 <= n <= 4 && n + 1 < |line| && line[n] == ' ' then
      var rest := line[n + 1..];
      var text := TrimRight(rest, IsSpace);
      Some(Heading(number, n, if text == "" then rest[..1] else text))
    else None
  }

  /** The headings of the reference, its first line having the given number. */
  function Headings(lines: seq<string>, number: nat): seq<Heading> {
    if lines == [] then []
    else
      (match HeadingOf(lines[0], number) case Some(h) => [h] case None => [])
      + Headings(lines[1..], number + 1)
  }

  /** A heading's text without its backticks. */
  function Bared(text: string): string {
    Trim(Strip(text), IsTick)
  }

  // ---- spellings of a route ----

  function UpperChar(c: char): char {
    if 'a' <= c <= 'z' then (c as int - 32) as char else c
  }

  predicate IsParameterChar(c: char) { 'a' <= c <= 'z' || c == '_' }

  function CamelName(name: string): string {
    if |name| >= 2 && name[0] == '_' then [UpperChar(name[1])] + CamelName(name[2..])
    else if name == [] then []
    else [name[0]] + CamelName(name[1..])
  }

  /** Every `{snake_name}` of a path in camelCase. */
  function Camel(path: string): string
    decreases |path|
  {
    if path == [] then []
    else if path[0] != '{' then [path[0]] + Camel(path[1..])
    else
      var rest := TrimLeft(path[1..], IsParameterChar);
      var n := |path| - 1 - |rest|;
      if n > 0 && rest != [] && rest[0] == '}'
      then "{" + CamelName(path[1..1 + n]) + "}" + Camel(rest[1..])
      else [path[0]] + Camel(path[1..])
  }

  const PREFIX := "/api/v1"

  /** A path as written, and without the common prefix where something is left. */
  function WithShort(path: string): set<string> {
    if PREFIX <= path && |path| > |PREFIX| + 1 then {path, path[|PREFIX|..]} else {path}
  }

  function Spellings(path: string): set<string> {
    WithShort(path) + WithShort(Camel(path))
  }

  // ---- from a caption to a line ----

  function FirstNamed(clean: string, headings: seq<Heading>): Option<nat> {
    if headings == [] then None
    else if Bared(headings[0].text) == clean then Some(headings[0].line)
    else FirstNamed(clean, headings[1..])
  }

  function FirstNear(clean: string, headings: seq<Heading>): Option<nat> {
    if headings == [] then None
    else if clean <= headings[0].text || headings[0].text <= clean then Some(headings[0].line)
    else FirstNear(clean, headings[1..])
  }

  function FirstUnder(number: string, headings: seq<Heading>): Option<nat> {
    if headings == [] then None
    else if number <= headings[0].text then Some(headings[0].line)
    else FirstUnder(number, headings[1..])
  }

  function FirstWord(s: string): string {
    if s == [] || IsSpace(s[0]) then [] else [s[0]] + FirstWord(s[1..])
  }

  /** `16`, `16.6`, with or without a full stop after. */
  predicate IsSectionNumber(s: string) {
    var rest := TrimLeft(s, IsDigit);
    |rest| < |s| &&
    (rest == "" || rest == "." ||
     (rest[0] == '.' &&
      var last := TrimLeft(rest[1..], IsDigit);
      |last| < |rest| - 1 && (last == "" || last == ".")))
  }

  /** `_resolve`: by name, then by a shared beginning, then by section number. */
  function Resolve(caption: string, headings: seq<Heading>): Option<nat> {
    var clean := Strip(Trim(Strip(caption), IsTick));
    var named := FirstNamed(clean, headings);
    if named.Some? then named
    else
      var near := FirstNear(clean, headings);
      if near.Some? then near
      else
        var lead := FirstWord(clean);
        if IsSectionNumber(lead) then FirstUnder(TrimRight(lead, IsDot), headings) else None
  }

  // ---- cells ----

  function Mark(line: nat): string {
    "(API.md:" + Decimal(line) + ")"
  }

  /** A caption with the reference to a line. */
  function Referring(caption: string, line: nat): string {
    caption + " " + Mark(line)
  }

  /** What precedes a trailing reference, if there is one. */
  function Unreferred(cell: string): Option<string> {
    var t := TrimRight(cell, IsSpace);
    if t == [] || t[|t| - 1] != ')' then None
    else
      var body := t[..|t| - 1];
      var stem := TrimRight(body, IsDigit);
      if |stem| < |body| && EndsWith(stem, "(API.md:")
      then Some(TrimRight(stem[..|stem| - 8], IsSpace))
      else None
  }

  function Caption(cell: string): string {
    var u := Unreferred(cell);
    if u.Some? then u.value else cell
  }

  function AfterMention(s: string): Option<string> {
    var dash := TrimLeft(s, IsSpace);
    if dash == [] || dash[0] !in [EM_DASH, '-'] then None
    else
      var sign := TrimLeft(dash[1..], IsSpace);
      if sign == [] || sign[0] != SECTION_SIGN then None else Some(sign[1..])
  }

  const MENTION := "mention only"

  /** A caption without its `mention only --` and its section sign. */
  function Bare(caption: string): string {
    var mention := if MENTION <= caption then AfterMention(caption[|MENTION|..]) else None;
    Strip(if mention.Some? then mention.value
          else if caption != [] && caption[0] == SECTION_SIGN then caption[1..]
          else caption)
  }

  /** An existing cell with its line number looked up again, or dropped. */
  function Refreshed(cell: string, headings: seq<Heading>): string {
    var caption := Caption(cell);
    var line := Resolve(Bare(caption), headings);
    if line.Some? then Referring(caption, line.value) else caption
  }

  predicate Covers(h: Heading, path: string) {
    h.hashes == 3 && exists s :: s in Spellings(path) && (EndsWith(Bared(h.text), s) || EndsWith(Bared(h.text), s + "`"))
  }

  function CoveringHeading(path: string, headings: seq<Heading>): Option<Heading> {
    if headings == [] then None
    else if Covers(headings[0], path) then Some(headings[0])
    else CoveringHeading(path, headings[1..])
  }

  function Quoted(text: string): string {
    "`" + Bared(text) + "`"
  }

  function Signed(quoted: string): string {
    [SECTION_SIGN, ' '] + quoted
  }

  function QuotedCaption(h: Heading): string {
    Signed(Quoted(h.text))
  }

  function FreshCell(path: string, headings: seq<Heading>): string {
    var h := CoveringHeading(path, headings);
    if h.Some? then Referring(QuotedCaption(h.value), h.value.line) else MISSING
  }

  /** `_api_md_cell`. */
  function ApiCell(existing: Option<string>, path: string, headings: seq<Heading>): string {
    if existing.Some? && Strip(existing.value) != "" then
      var cell := Strip(existing.value);
      if Contains(cell, MISSING) then cell else Refreshed(cell, headings)
    else FreshCell(path, headings)
  }
}
