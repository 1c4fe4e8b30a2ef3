/** Strings as the tooling scripts use them: trimming, splitting, joining, and decimal numbers. */
module Text {

  // ---- numbers ----

  function Digit(n: nat): char
    requires n < 10
  {
    ('0' as int + n) as char
  }

  predicate IsDigit(c: char) { '0' <= c <= '9' }

  function Decimal(n: nat): (r: string)
    ensures r != []
    ensures forall i :: 0 <= i < |r| ==> IsDigit(r[i])
  {
    if n < 10 then [Digit(n)] else Decimal(n / 10) + [Digit(n % 10)]
  }

  function Undecimal(s: string): nat
    requires forall i :: 0 <= i < |s| ==> IsDigit(s[i])
  {
    if s == [] then 0
    else
      var last := s[|s| - 1];
      assert IsDigit(last);
      10 * Undecimal(s[..|s| - 1]) + (last as nat - '0' as nat)
  }

  /** A printed number reads back as itself. */
  lemma {:induction false} DecimalRoundTrip(n: nat)
    ensures Undecimal(Decimal(n)) == n
  {
    if n < 10 {
      assert Decimal(n)[..0] == [];
    } else {
      DecimalRoundTrip(n / 10);
      assert Decimal(n)[..|Decimal(n)| - 1] == Decimal(n / 10);
    }
  }

  // ---- trimming ----

  predicate IsSpace(c: char) {
    var code := c as int;
    9 <= code <= 13 || 28 <= code <= 32 || code in {133, 160, 5760, 8232, 8233, 8239, 8287, 12288} || 8192 <= code <= 8202
  }

  predicate IsBreak(c: char) {
    var code := c as int;
    10 <= code <= 13 || 28 <= code <= 30 || code in {133, 8232, 8233}
  }

  predicate IsBar(c: char) { c == '|' }

  predicate IsTick(c: char) { c == '`' }

  predicate IsDot(c: char) { c == '.' }

  function TrimLeft(s: string, p: char -> bool): (r: string)
    ensures |r| <= |s|
  {
    if s != [] && p(s[0]) then TrimLeft(s[1..], p) else s
  }

  function TrimRight(s: string, p: char -> bool): (r: string)
    ensures |r| <= |s|
  {
    if s != [] && p(s[|s| - 1]) then TrimRight(s[..|s| - 1], p) else s
  }

  function Trim(s: string, p: char -> bool): string {
    TrimRight(TrimLeft(s, p), p)
  }

  function Strip(s: string): string {
    Trim(s, IsSpace)
  }

  predicate Trimmed(s: string, p: char -> bool) {
    s == [] || (!p(s[0]) && !p(s[|s| - 1]))
  }

  predicate All(s: string, p: char -> bool) {
    forall i :: 0 <= i < |s| ==> p(s[i])
  }

  /** What is dropped on the left is droppable, and what is left does not begin with more of it. */
  lemma {:induction false} TrimLeftFacts(s: string, p: char -> bool)
    ensures var r := TrimLeft(s, p);
            r == s[|s| - |r|..] && (r == [] || !p(r[0])) && All(s[..|s| - |r|], p)
  {
    if s != [] && p(s[0]) {
      TrimLeftFacts(s[1..], p);
      var k := |s| - |TrimLeft(s, p)|;
      assert s[..k] == [s[0]] + s[1..][..k - 1];
    }
  }

  lemma {:induction false} TrimRightFacts(s: string, p: char -> bool)
    ensures var r := TrimRight(s, p);
            r <= s && (r == [] || !p(r[|r| - 1])) && All(s[|r|..], p)
  {
    if s != [] && p(s[|s| - 1]) {
      var n := |s| - 1;
      TrimRightFacts(s[..n], p);
      var k := |TrimRight(s, p)|;
      assert s[k..] == s[..n][k..] + [s[n]];
    }
  }

  lemma SliceMember(s: string, i: nat, j: nat, c: char)
    requires i <= j <= |s| && c in s[i..j]
    ensures c in s
  {
  }

  /** A trimmed string is a stretch of the string it came from. */
  lemma TrimIsSlice(s: string, p: char -> bool) returns (i: nat, j: nat)
    ensures i <= j <= |s| && Trim(s, p) == s[i..j]
    ensures All(s[..i], p) && All(s[j..], p)
  {
    var l := TrimLeft(s, p);
    TrimLeftFacts(s, p);
    TrimRightFacts(l, p);
    i := |s| - |l|;
    j := i + |Trim(s, p)|;
    assert s[i..j] == l[..j - i] && s[j..] == l[j - i..];
  }

  lemma TrimIsTrimmed(s: string, p: char -> bool)
    ensures Trimmed(Trim(s, p), p)
    ensures Trimmed(s, p) ==> Trim(s, p) == s
    ensures forall c :: c in Trim(s, p) ==> c in s
  {
    var l := TrimLeft(s, p);
    TrimLeftFacts(s, p);
    TrimRightFacts(l, p);
    assert Trim(s, p) != [] ==> Trim(s, p)[0] == l[0];
    var i, j := TrimIsSlice(s, p);
    forall c | c in Trim(s, p) ensures c in s {
      SliceMember(s, i, j, c);
    }
  }

  lemma AllConcat(a: string, b: string, p: char -> bool)
    requires All(a, p) && All(b, p)
    ensures All(a + b, p)
  {
  }

  lemma {:induction false} TrimLeftPast(a: string, s: string, p: char -> bool)
    requires All(a, p)
    requires s == [] || !p(s[0])
    ensures TrimLeft(a + s, p) == s
  {
    if a != [] {
      assert (a + s)[1..] == a[1..] + s;
      TrimLeftPast(a[1..], s, p);
    } else {
      assert a + s == s;
    }
  }

  lemma {:induction false} TrimRightPast(s: string, b: string, p: char -> bool)
    requires All(b, p)
    requires s == [] || !p(s[|s| - 1])
    ensures TrimRight(s + b, p) == s
    decreases |b|
  {
    if b != [] {
      assert (s + b)[..|s + b| - 1] == s + b[..|b| - 1];
      TrimRightPast(s, b[..|b| - 1], p);
    } else {
      assert s + b == s;
    }
  }

  /** A trimmed middle between droppable ends is what trimming leaves. */
  lemma TrimPast(a: string, s: string, b: string, p: char -> bool)
    requires All(a, p) && All(b, p) && Trimmed(s, p)
    ensures Trim(a + s + b, p) == s
  {
    if s == [] {
      AllConcat(a, b, p);
      assert a + s + b == (a + b) + [];
      TrimLeftPast(a + b, [], p);
    } else {
      assert a + s + b == a + (s + b);
      TrimLeftPast(a, s + b, p);
      TrimRightPast(s, b, p);
    }
  }

  lemma TrimSplit(s: string, p: char -> bool) returns (a: string, b: string)
    ensures s == a + Trim(s, p) + b
    ensures All(a, p) && All(b, p)
  {
    var i, j := TrimIsSlice(s, p);
    a, b := s[..i], s[j..];
  }

  lemma Regroup(a: string, x: string, m: string, y: string, b: string)
    ensures a + (x + m + y) + b == (a + x) + m + (y + b)
  {
  }

  /** Droppable characters around a string change nothing. */
  lemma TrimPadded(a: string, s: string, b: string, p: char -> bool)
    requires All(a, p) && All(b, p)
    ensures Trim(a + s + b, p) == Trim(s, p)
  {
    var x, y := TrimSplit(s, p);
    var m := Trim(s, p);
    TrimIsTrimmed(s, p);
    AllConcat(a, x, p);
    AllConcat(y, b, p);
    Regroup(a, x, m, y, b);
    TrimPast(a + x, m, y + b, p);
  }

  lemma StripTwice(s: string)
    ensures Strip(Strip(s)) == Strip(s)
  {
    TrimIsTrimmed(s, IsSpace);
    TrimIsTrimmed(Strip(s), IsSpace);
  }

  // ---- parts of strings ----

  predicate EndsWith(s: string, tail: string) {
    |tail| <= |s| && s[|s| - |tail|..] == tail
  }

  predicate Contains(s: string, part: string) {
    part <= s || (s != [] && Contains(s[1..], part))
  }

  lemma InConcat(c: char, a: string, b: string)
    ensures c in a + b <==> c in a || c in b
  {
  }

  lemma PrefixAt(s: string, part: string, i: nat)
    requires i < |part|
    ensures part <= s ==> i < |s| && part[i] == s[i]
  {
  }

  lemma PrefixBefore(s: string, tail: string, part: string)
    requires part != [] && part[|part| - 1] !in tail
    ensures part <= s + tail <==> part <= s
  {
    PrefixAt(s + tail, part, |part| - 1);
  }

  /** A word that ends in a letter absent from the tail was there before the tail was added. */
  lemma {:induction false} ContainsBefore(s: string, tail: string, part: string)
    requires part != [] && part[|part| - 1] !in tail
    ensures Contains(s + tail, part) == Contains(s, part)
  {
    PrefixBefore(s, tail, part);
    if part <= s {
    } else if s == [] {
      AbsentFrom(tail, part);
      assert s + tail == tail;
    } else {
      assert (s + tail)[1..] == s[1..] + tail;
      ContainsBefore(s[1..], tail, part);
    }
  }

  lemma {:induction false} AbsentFrom(s: string, part: string)
    requires part != [] && part[|part| - 1] !in s
    ensures !Contains(s, part)
  {
    PrefixAt(s, part, |part| - 1);
    if s != [] {
      AbsentFrom(s[1..], part);
    }
  }

  /** Likewise for a word whose first letter is absent from what was put in front. */
  lemma {:induction false} ContainsAfter(a: string, s: string, part: string)
    requires part != [] && part[0] !in a
    ensures Contains(a + s, part) == Contains(s, part)
  {
    if a == [] {
      assert a + s == s;
    } else {
      PrefixAt(a + s, part, 0);
      assert (a + s)[0] == a[0] && a[0] in a;
      assert (a + s)[1..] == a[1..] + s;
      ContainsAfter(a[1..], s, part);
    }
  }

  lemma {:induction false} ContainsGrows(a: string, s: string, b: string, part: string)
    requires Contains(s, part)
    ensures Contains(a + s + b, part)
  {
    if a != [] {
      assert (a + s + b)[1..] == a[1..] + s + b;
      ContainsGrows(a[1..], s, b, part);
    } else if part <= s {
      assert part <= a + s + b;
    } else {
      assert (a + s + b)[1..] == [] + s[1..] + b;
      ContainsGrows([], s[1..], b, part);
    }
  }

  // ---- the order of strings ----

  predicate StringLess(a: string, b: string) {
    b != [] && (a == [] || a[0] < b[0] || (a[0] == b[0] && StringLess(a[1..], b[1..])))
  }

  /** A string comes first that ends, or has the lesser character, where the two first differ. */
  lemma {:induction false} StringLessExactly(a: string, b: string)
    ensures StringLess(a, b) <==>
              exists k :: 0 <= k <= |a| && k < |b| && a[..k] == b[..k] && (k == |a| || a[k] < b[k])
  {
    if a != "" && b != "" && a[0] == b[0] {
      StringLessExactly(a[1..], b[1..]);
      if k :| 0 <= k <= |a| && k < |b| && a[..k] == b[..k] && (k == |a| || a[k] < b[k]) {
        assert k > 0;
        assert a[1..][..k - 1] == a[..k][1..] && b[1..][..k - 1] == b[..k][1..];
      }
      if k :| 0 <= k <= |a[1..]| && k < |b[1..]| && a[1..][..k] == b[1..][..k] && (k == |a[1..]| || a[1..][k] < b[1..][k]) {
        assert a[..k + 1] == [a[0]] + a[1..][..k] && b[..k + 1] == [b[0]] + b[1..][..k];
      }
    } else if b != "" && (a == "" || a[0] < b[0]) {
      assert a[..0] == b[..0];
    }
  }

  lemma {:induction false} StringOrder(a: string, b: string)
    ensures StringLess(a, b) || a == b || StringLess(b, a)
    ensures !(StringLess(a, b) && StringLess(b, a))
  {
    if a != [] && b != [] {
      StringOrder(a[1..], b[1..]);
      if a[0] == b[0] && a[1..] == b[1..] {
        assert a == [a[0]] + a[1..] && b == [b[0]] + b[1..];
      }
    }
  }

  lemma {:induction false} StringLessTransitive(a: string, b: string, c: string)
    requires StringLess(a, b) && StringLess(b, c)
    ensures StringLess(a, c)
  {
    if a != [] && a[0] == b[0] == c[0] {
      StringLessTransitive(a[1..], b[1..], c[1..]);
    }
  }

  lemma {:induction false} StringIrreflexive(a: string)
    ensures !StringLess(a, a)
  {
    if a != [] {
      StringIrreflexive(a[1..]);
    }
  }

  // ---- splitting and joining ----

  function Split(s: string, sep: char): (parts: seq<string>)
    ensures |parts| > 0
  {
    if s == [] then [[]]
    else
      var rest := Split(s[1..], sep);
      if s[0] == sep then [[]] + rest else [[s[0]] + rest[0]] + rest[1..]
  }

  /** The parts are without the separator, and made of the string's own characters. */
  lemma {:induction false} SplitFacts(s: string, sep: char, i: nat)
    requires i < |Split(s, sep)|
    ensures sep !in Split(s, sep)[i]
    ensures forall c :: c in Split(s, sep)[i] ==> c in s
  {
    if s != [] {
      var rest := Split(s[1..], sep);
      if s[0] == sep {
        if i > 0 {
          SplitFacts(s[1..], sep, i - 1);
          assert Split(s, sep)[i] == rest[i - 1];
        }
      } else {
        SplitFacts(s[1..], sep, i);
        if i == 0 {
          assert Split(s, sep)[0] == [s[0]] + rest[0];
        } else {
          assert Split(s, sep)[i] == rest[i];
        }
      }
    }
  }

  lemma {:induction false} SplitFirst(a: string, rest: string, sep: char)
    requires sep !in a
    ensures Split(a + [sep] + rest, sep) == [a] + Split(rest, sep)
  {
    var s := a + [sep] + rest;
    if a == [] {
      assert s[1..] == rest;
    } else {
      assert s[0] == a[0] && a[0] in a;
      assert s[1..] == a[1..] + [sep] + rest;
      SplitFirst(a[1..], rest, sep);
      assert [a[0]] + a[1..] == a;
    }
  }

  lemma {:induction false} SplitWhole(a: string, sep: char)
    requires sep !in a
    ensures Split(a, sep) == [a]
  {
    if a != [] {
      assert a[0] in a;
      SplitWhole(a[1..], sep);
      assert [a[0]] + a[1..] == a;
    }
  }

  function Join(parts: seq<string>, glue: string): string {
    if parts == [] then ""
    else if |parts| == 1 then parts[0]
    else parts[0] + glue + Join(parts[1..], glue)
  }

  // ---- lines ----

  function LineEnd(text: string): (k: nat)
    ensures k <= |text|
    ensures k < |text| ==> IsBreak(text[k])
    ensures forall i :: 0 <= i < k ==> !IsBreak(text[i])
  {
    if text == [] || IsBreak(text[0]) then 0 else 1 + LineEnd(text[1..])
  }

  /** How long the break at `k` is: CR LF is one break. */
  function BreakLength(text: string, k: nat): (n: nat)
    requires k < |text|
    ensures n > 0 && k + n <= |text|
  {
    if text[k] == '\r' && k + 1 < |text| && text[k + 1] == '\n' then 2 else 1
  }

  function SplitLines(text: string): (lines: seq<string>)
    decreases |text|
  {
    if text == [] then []
    else
      var k := LineEnd(text);
      if k == |text| then [text] else [text[..k]] + SplitLines(text[k + BreakLength(text, k)..])
  }

  predicate Unbroken(s: string) {
    forall c :: c in s ==> !IsBreak(c)
  }

  lemma {:induction false} LineEndIs(line: string, c: char, rest: string)
    requires Unbroken(line) && IsBreak(c)
    ensures LineEnd(line + [c] + rest) == |line|
  {
    if line != "" {
      assert line[0] in line;
      assert (line + [c] + rest)[1..] == line[1..] + [c] + rest;
      LineEndIs(line[1..], c, rest);
    }
  }

  /** A line ends at any break, CR LF being a single one, and what follows is split by itself. */
  lemma SplitAtBreak(line: string, c: char, rest: string)
    requires Unbroken(line) && IsBreak(c)
    ensures SplitLines(line + [c] + rest)
            == [line] + SplitLines(if c == '\r' && rest != "" && rest[0] == '\n' then rest[1..] else rest)
  {
    hide IsBreak;
    var text := line + [c] + rest;
    LineEndIs(line, c, rest);
    assert text[..|line|] == line && text[|line|] == c;
    AfterBreak(line, c, rest);
  }

  lemma AfterBreak(line: string, c: char, rest: string)
    ensures var text := line + [c] + rest;
            text[|line| + BreakLength(text, |line|)..] == if c == '\r' && rest != "" && rest[0] == '\n' then rest[1..] else rest
  {
    var text := line + [c] + rest;
    assert text[|line| + 1..] == rest;
    if rest != "" {
      assert text[|line| + 1] == rest[0] && text[|line| + 2..] == rest[1..];
    }
  }

  lemma {:induction false} SplitLinesUnbroken(text: string)
    ensures forall i :: 0 <= i < |SplitLines(text)| ==> Unbroken(SplitLines(text)[i])
    decreases |text|
  {
    if text != [] {
      var k := LineEnd(text);
      UnbrokenUpTo(text, k);
      if k < |text| {
        SplitLinesUnbroken(text[k + BreakLength(text, k)..]);
      }
    }
  }

  lemma UnbrokenUpTo(text: string, k: nat)
    requires k <= |text| && forall i :: 0 <= i < k ==> !IsBreak(text[i])
    ensures Unbroken(text[..k])
    ensures k == |text| ==> Unbroken(text)
  {
  }

  lemma {:induction false} LineEndAt(line: string, rest: string)
    requires Unbroken(line)
    ensures LineEnd(line + "\n" + rest) == |line|
    ensures LineEnd(line) == |line|
  {
    if line != [] {
      assert (line + "\n" + rest)[1..] == line[1..] + "\n" + rest;
      forall c | c in line[1..] ensures !IsBreak(c) { assert c in line; }
      LineEndAt(line[1..], rest);
    }
  }

  lemma SplitLinesFirst(line: string, rest: string)
    requires Unbroken(line)
    ensures SplitLines(line + "\n" + rest) == [line] + SplitLines(rest)
    ensures line != "" ==> SplitLines(line) == [line]
  {
    LineEndAt(line, rest);
    var text := line + "\n" + rest;
    assert text[|line|] == '\n';
    assert text[|line| + 1..] == rest && text[..|line|] == line;
  }

  /** Joined lines split back into themselves, but for a last line that is empty and unterminated. */
  lemma {:induction false} JoinedLines(lines: seq<string>, terminated: bool)
    requires forall i :: 0 <= i < |lines| ==> Unbroken(lines[i])
    requires terminated ==> lines != []
    ensures SplitLines(Join(lines, "\n") + Ending(terminated))
            == if terminated || lines == [] || lines[|lines| - 1] != "" then lines else lines[..|lines| - 1]
  {
    if |lines| == 1 {
      OneJoined(lines[0], terminated);
    } else if |lines| > 1 {
      JoinedLines(lines[1..], terminated);
      MoreJoined(lines, terminated);
    }
  }

  lemma MoreJoined(lines: seq<string>, terminated: bool)
    requires |lines| > 1 && Unbroken(lines[0])
    ensures SplitLines(Join(lines, "\n") + Ending(terminated))
            == [lines[0]] + SplitLines(Join(lines[1..], "\n") + Ending(terminated))
  {
    FirstJoined(lines, Ending(terminated));
    SplitLinesFirst(lines[0], Join(lines[1..], "\n") + Ending(terminated));
  }

  function Ending(terminated: bool): string {
    if terminated then "\n" else ""
  }

  lemma FirstJoined(lines: seq<string>, tail: string)
    requires |lines| > 1
    ensures Join(lines, "\n") + tail == lines[0] + "\n" + (Join(lines[1..], "\n") + tail)
  {
  }

  lemma OneJoined(line: string, terminated: bool)
    requires Unbroken(line)
    ensures SplitLines(line + Ending(terminated)) == if terminated || line != "" then [line] else []
  {
    SplitLinesFirst(line, "");
    assert line + "\n" == line + "\n" + "" && line + "" == line;
  }
}
