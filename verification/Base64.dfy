/** Unpadded base64url (section 5 of RFC 4648) and the lenient decoder that undoes it. */
module Base64 {
  import opened Wrappers
  import opened Text

  type Byte = n: nat | n < 256
  type Sextet = n: nat | n < 64

  function CharOf(v: Sextet): char {
    if v < 26 then ('A' as int + v) as char
    else if v < 52 then ('a' as int + v - 26) as char
    else if v < 62 then ('0' as int + v - 52) as char
    else if v == 62 then '-' else '_'
  }

  /** The decoder takes both spellings of the last two digits. */
  function SextetOf(c: char): Option<Sextet> {
    if 'A' <= c <= 'Z' then Some(c as int - 'A' as int)
    else if 'a' <= c <= 'z' then Some(c as int - 'a' as int + 26)
    else if '0' <= c <= '9' then Some(c as int - '0' as int + 52)
    else if c == '-' || c == '+' then Some(62)
    else if c == '_' || c == '/' then Some(63)
    else None
  }

  lemma DigitReads(v: Sextet)
    ensures SextetOf(CharOf(v)) == Some(v) && CharOf(v) != '=' && CharOf(v) != '.' && CharOf(v) as int < 128
  {
  }

  // ---- encoding ----

  function First(a: Byte): Sextet { a / 4 }

  function Second(a: Byte, b: Byte): Sextet { (a % 4) * 16 + b / 16 }

  function Third(b: Byte, c: Byte): Sextet { (b % 16) * 4 + c / 64 }

  function Fourth(c: Byte): Sextet { c % 64 }

  /** Four characters for every three bytes, the last group filled up with `=`. */
  function Padded(bytes: seq<Byte>): string {
    if bytes == [] then ""
    else if |bytes| == 1 then [CharOf(First(bytes[0])), CharOf(Second(bytes[0], 0)), '=', '=']
    else if |bytes| == 2 then
      [CharOf(First(bytes[0])), CharOf(Second(bytes[0], bytes[1])), CharOf(Third(bytes[1], 0)), '=']
    else
      [CharOf(First(bytes[0])), CharOf(Second(bytes[0], bytes[1])), CharOf(Third(bytes[1], bytes[2])), CharOf(Fourth(bytes[2]))]
      + Padded(bytes[3..])
  }

  predicate IsPadding(c: char) { c == '=' }

  function Encode(bytes: seq<Byte>): string {
    TrimRight(Padded(bytes), IsPadding)
  }

  // ---- decoding ----

  datatype Decoder = Reading(quad: nat, left: nat, pads: nat, out: seq<Byte>) | Finished(out: seq<Byte>)

  /** A digit is shifted in; a byte comes out with every digit but the first of four. */
  function Shift(d: Decoder, v: Sextet): Decoder
    requires d.Reading?
  {
    if d.quad == 0 then Reading(1, v, 0, d.out)
    else if d.quad == 1 then Reading(2, v % 16, 0, d.out + [(d.left * 4 + v / 16) % 256])
    else if d.quad == 2 then Reading(3, v % 4, 0, d.out + [(d.left * 16 + v / 4) % 256])
    else Reading(0, 0, 0, d.out + [(d.left * 64 + v) % 256])
  }

  /** Padding ends the input once it completes a group; characters that are no digits are skipped. */
  function Feed(d: Decoder, c: char): Decoder {
    if d.Finished? then d
    else if c == '=' then
      if d.quad >= 2 then (if d.quad + d.pads + 1 >= 4 then Finished(d.out) else d.(pads := d.pads + 1)) else d
    else
      var v := SextetOf(c);
      if v.Some? then Shift(d, v.value) else d
  }

  function FeedAll(d: Decoder, text: string): Decoder
    decreases |text|
  {
    if text == "" then d else FeedAll(Feed(d, text[0]), text[1..])
  }

  /** The lenient decoder: it fails on a character outside ASCII and on an unfinished group. */
  function Decode(text: string): Option<seq<Byte>> {
    if exists c :: c in text && c as int >= 128 then None
    else
      var d := FeedAll(Reading(0, 0, 0, []), text);
      if d.Finished? || d.quad == 0 then Some(d.out) else None
  }

  // ---- the round trip ----

  /** What is left of the padded text when its padding is taken off. */
  function Bare(bytes: seq<Byte>): string {
    if bytes == [] then ""
    else if |bytes| == 1 then [CharOf(First(bytes[0])), CharOf(Second(bytes[0], 0))]
    else if |bytes| == 2 then
      [CharOf(First(bytes[0])), CharOf(Second(bytes[0], bytes[1])), CharOf(Third(bytes[1], 0))]
    else
      [CharOf(First(bytes[0])), CharOf(Second(bytes[0], bytes[1])), CharOf(Third(bytes[1], bytes[2])), CharOf(Fourth(bytes[2]))]
      + Bare(bytes[3..])
  }

  function Padding(n: nat): string {
    if n % 3 == 0 then "" else if n % 3 == 1 then "==" else "="
  }

  lemma {:induction false} PaddedIsBare(bytes: seq<Byte>)
    ensures Padded(bytes) == Bare(bytes) + Padding(|bytes|)
  {
    if |bytes| < 3 {
      ShortIsBare(bytes);
    } else {
      PaddedIsBare(bytes[3..]);
      var group := [CharOf(First(bytes[0])), CharOf(Second(bytes[0], bytes[1])),
                    CharOf(Third(bytes[1], bytes[2])), CharOf(Fourth(bytes[2]))];
      Regrouped(group, Bare(bytes[3..]), Padding(|bytes| - 3));
    }
  }

  lemma Regrouped(a: string, b: string, c: string)
    ensures a + (b + c) == (a + b) + c
  {
  }

  lemma ShortIsBare(bytes: seq<Byte>)
    requires |bytes| < 3
    ensures Padded(bytes) == Bare(bytes) + Padding(|bytes|)
  {
    if |bytes| == 2 {
      assert Padding(2) == "=";
    } else if |bytes| == 1 {
      assert Padding(1) == "==";
    }
  }

  predicate IsDigitChar(c: char) { c != '=' && c != '.' && c as int < 128 }

  lemma {:induction false} BareIsDigits(bytes: seq<Byte>)
    ensures All(Bare(bytes), IsDigitChar)
  {
    if |bytes| >= 3 {
      BareIsDigits(bytes[3..]);
      DigitReads(First(bytes[0]));
      DigitReads(Second(bytes[0], bytes[1]));
      DigitReads(Third(bytes[1], bytes[2]));
      DigitReads(Fourth(bytes[2]));
    } else if |bytes| == 2 {
      DigitReads(First(bytes[0]));
      DigitReads(Second(bytes[0], bytes[1]));
      DigitReads(Third(bytes[1], 0));
    } else if |bytes| == 1 {
      DigitReads(First(bytes[0]));
      DigitReads(Second(bytes[0], 0));
    }
  }

  /** Taking the padding off loses nothing else. */
  lemma EncodeIsBare(bytes: seq<Byte>)
    ensures Encode(bytes) == Bare(bytes) && All(Encode(bytes), IsDigitChar)
  {
    PaddedIsBare(bytes);
    BareIsDigits(bytes);
    TrimRightPast(Bare(bytes), Padding(|bytes|), IsPadding);
  }

  lemma HighBits(a: Byte, b: Byte)
    ensures First(a) * 4 + Second(a, b) / 16 == a
    ensures Second(a, b) % 16 == b / 16
  {
    assert Second(a, b) / 16 == a % 4;
  }

  lemma MiddleBits(b: Byte, c: Byte)
    ensures (b / 16) * 16 + Third(b, c) / 4 == b
    ensures Third(b, c) % 4 == c / 64
  {
    assert Third(b, c) / 4 == b % 16;
  }

  lemma LowBits(c: Byte)
    ensures (c / 64) * 64 + Fourth(c) == c
  {
  }

  lemma FeedDigit(d: Decoder, v: Sextet, rest: string)
    requires d.Reading?
    ensures FeedAll(d, [CharOf(v)] + rest) == FeedAll(Shift(d, v), rest)
  {
    DigitReads(v);
    assert ([CharOf(v)] + rest)[1..] == rest;
  }

  lemma FirstDigit(out: seq<Byte>, v: Sextet, rest: string)
    ensures FeedAll(Reading(0, 0, 0, out), [CharOf(v)] + rest) == FeedAll(Reading(1, v, 0, out), rest)
  {
    FeedDigit(Reading(0, 0, 0, out), v, rest);
  }

  lemma SecondDigit(out: seq<Byte>, a: Byte, b: Byte, rest: string)
    ensures FeedAll(Reading(1, First(a), 0, out), [CharOf(Second(a, b))] + rest)
            == FeedAll(Reading(2, b / 16, 0, out + [a]), rest)
  {
    hide CharOf, FeedAll;
    HighBits(a, b);
    FeedDigit(Reading(1, First(a), 0, out), Second(a, b), rest);
  }

  lemma ThirdDigit(out: seq<Byte>, b: Byte, c: Byte, rest: string)
    ensures FeedAll(Reading(2, b / 16, 0, out), [CharOf(Third(b, c))] + rest)
            == FeedAll(Reading(3, c / 64, 0, out + [b]), rest)
  {
    hide CharOf, FeedAll;
    MiddleBits(b, c);
    FeedDigit(Reading(2, b / 16, 0, out), Third(b, c), rest);
  }

  lemma FourthDigit(out: seq<Byte>, c: Byte, rest: string)
    ensures FeedAll(Reading(3, c / 64, 0, out), [CharOf(Fourth(c))] + rest)
            == FeedAll(Reading(0, 0, 0, out + [c]), rest)
  {
    hide CharOf, FeedAll;
    LowBits(c);
    FeedDigit(Reading(3, c / 64, 0, out), Fourth(c), rest);
  }

  lemma FourChars(w: char, x: char, y: char, z: char, rest: string)
    ensures [w, x, y, z] + rest == [w] + ([x] + ([y] + ([z] + rest)))
    ensures [w, x, y] + rest == [w] + ([x] + ([y] + rest))
    ensures [w, x] + rest == [w] + ([x] + rest)
  {
  }

  /** Four digits give their three bytes back. */
  lemma GroupRead(out: seq<Byte>, a: Byte, b: Byte, c: Byte, rest: string)
    ensures FeedAll(Reading(0, 0, 0, out),
                    [CharOf(First(a)), CharOf(Second(a, b)), CharOf(Third(b, c)), CharOf(Fourth(c))] + rest)
            == FeedAll(Reading(0, 0, 0, out + [a] + [b] + [c]), rest)
  {
    var w, x, y, z := CharOf(First(a)), CharOf(Second(a, b)), CharOf(Third(b, c)), CharOf(Fourth(c));
    FourChars(w, x, y, z, rest);
    FirstDigit(out, First(a), [x] + ([y] + ([z] + rest)));
    SecondDigit(out, a, b, [y] + ([z] + rest));
    ThirdDigit(out + [a], b, c, [z] + rest);
    FourthDigit(out + [a] + [b], c, rest);
  }

  lemma PadsRead(quad: nat, left: nat, out: seq<Byte>)
    requires quad < 4
    ensures FeedAll(Reading(quad, left, 0, out), "==")
            == if quad >= 2 then Finished(out) else Reading(quad, left, 0, out)
  {
    assert "=="[1..] == "=" && "="[1..] == "";
    var d := Reading(quad, left, 0, out);
    assert FeedAll(Feed(Feed(d, '='), '='), "") == Feed(Feed(d, '='), '=');
  }

  lemma TwoRead(out: seq<Byte>, a: Byte, b: Byte)
    ensures FeedAll(Reading(0, 0, 0, out), [CharOf(First(a)), CharOf(Second(a, b)), CharOf(Third(b, 0))] + "==")
            == Finished(out + [a] + [b])
  {
    var w, x, y := CharOf(First(a)), CharOf(Second(a, b)), CharOf(Third(b, 0));
    FourChars(w, x, y, y, "==");
    FirstDigit(out, First(a), [x] + ([y] + "=="));
    SecondDigit(out, a, b, [y] + "==");
    ThirdDigit(out + [a], b, 0, "==");
    PadsRead(3, 0, out + [a] + [b]);
  }

  lemma OneRead(out: seq<Byte>, a: Byte)
    ensures FeedAll(Reading(0, 0, 0, out), [CharOf(First(a)), CharOf(Second(a, 0))] + "==") == Finished(out + [a])
  {
    var w, x := CharOf(First(a)), CharOf(Second(a, 0));
    FourChars(w, x, x, x, "==");
    FirstDigit(out, First(a), [x] + "==");
    SecondDigit(out, a, 0, "==");
    PadsRead(2, 0, out + [a]);
  }

  predicate Holds(d: Decoder, out: seq<Byte>) {
    d.out == out && (d.Finished? || d.quad == 0)
  }

  lemma {:induction false} BareRead(out: seq<Byte>, bytes: seq<Byte>)
    ensures Holds(FeedAll(Reading(0, 0, 0, out), Bare(bytes) + "=="), out + bytes)
    decreases |bytes|
  {
    if bytes == [] {
      assert Bare(bytes) + "==" == "==";
      PadsRead(0, 0, out);
      assert out + bytes == out;
    } else if |bytes| == 1 {
      OneRead(out, bytes[0]);
      assert out + bytes == out + [bytes[0]];
    } else if |bytes| == 2 {
      TwoRead(out, bytes[0], bytes[1]);
      assert out + bytes == out + [bytes[0]] + [bytes[1]];
    } else {
      LongRead(out, bytes);
    }
  }

  lemma {:induction false} LongRead(out: seq<Byte>, bytes: seq<Byte>)
    requires |bytes| >= 3
    ensures Holds(FeedAll(Reading(0, 0, 0, out), Bare(bytes) + "=="), out + bytes)
    decreases |bytes|, 0
  {
    var a, b, c, more := bytes[0], bytes[1], bytes[2], bytes[3..];
    var group := [CharOf(First(a)), CharOf(Second(a, b)), CharOf(Third(b, c)), CharOf(Fourth(c))];
    GroupRead(out, a, b, c, Bare(more) + "==");
    assert Bare(bytes) + "==" == group + (Bare(more) + "==");
    BareRead(out + [a] + [b] + [c], more);
    ThreeThen(out, bytes);
  }

  lemma ThreeThen(out: seq<Byte>, bytes: seq<Byte>)
    requires |bytes| >= 3
    ensures out + bytes == out + [bytes[0]] + [bytes[1]] + [bytes[2]] + bytes[3..]
  {
  }

  /**
    For every length of input: take the padding off the encoded text, put exactly two `=`
    back, and the bytes come out again.
   */
  lemma RoundTrip(bytes: seq<Byte>)
    ensures Decode(Encode(bytes) + "==") == Some(bytes)
  {
    EncodeIsBare(bytes);
    BareRead([], bytes);
    assert [] + bytes == bytes;
    forall c | c in Encode(bytes) + "==" ensures c as int < 128 {
      assert c in Encode(bytes) || c in "==";
    }
  }

  // ---- what else the decoder takes ----

  lemma {:induction false} FeedOver(d: Decoder, a: string, b: string)
    ensures FeedAll(d, a + b) == FeedAll(FeedAll(d, a), b)
    decreases |a|
  {
    if a == "" {
      assert a + b == b;
    } else {
      assert (a + b)[1..] == a[1..] + b;
      FeedOver(Feed(d, a[0]), a[1..], b);
    }
  }

  lemma FeedThen(d: Decoder, a: string, c: char, b: string)
    ensures FeedAll(d, a + [c] + b) == FeedAll(Feed(FeedAll(d, a), c), b)
  {
    assert a + [c] + b == a + ([c] + b);
    FeedOver(d, a, [c] + b);
    assert ([c] + b)[1..] == b;
  }

  /** A character of ASCII outside the alphabet is as good as absent, wherever it stands. */
  lemma StrangersAreSkipped(a: string, c: char, b: string)
    requires c as int < 128 && c !in "-_+/="
    requires !('A' <= c <= 'Z') && !('a' <= c <= 'z') && !('0' <= c <= '9')
    ensures Decode(a + [c] + b) == Decode(a + b)
  {
    assert SextetOf(c).None? && c != '=' by {
      assert '-' in "-_+/=" && '_' in "-_+/=" && '+' in "-_+/=" && '/' in "-_+/=" && '=' in "-_+/=";
    }
    var start := Reading(0, 0, 0, []);
    FeedThen(start, a, c, b);
    FeedOver(start, a, b);
    SameCharacters(a, c, b);
  }

  lemma SameCharacters(a: string, c: char, b: string)
    requires c as int < 128
    ensures (exists x :: x in a + [c] + b && x as int >= 128) <==> exists x :: x in a + b && x as int >= 128
  {
    if x :| x in a + [c] + b && x as int >= 128 {
      assert x in a + b;
    }
    if x :| x in a + b && x as int >= 128 {
      assert x in a + [c] + b;
    }
  }

  /** The two digits both alphabets spell differently are taken in either spelling. */
  lemma EitherAlphabet(a: string, b: string)
    ensures Decode(a + "+" + b) == Decode(a + "-" + b)
    ensures Decode(a + "/" + b) == Decode(a + "_" + b)
  {
    var start := Reading(0, 0, 0, []);
    FeedThen(start, a, '+', b);
    FeedThen(start, a, '-', b);
    FeedThen(start, a, '/', b);
    FeedThen(start, a, '_', b);
    SameCharacters(a, '+', b);
    SameCharacters(a, '-', b);
    SameCharacters(a, '/', b);
    SameCharacters(a, '_', b);
  }

  /** A single digit over is an unfinished group, and no value. */
  lemma LoneDigitIsRefused(v: Sextet)
    ensures Decode([CharOf(v)] + "==") == None
  {
    FirstDigit([], v, "==");
    PadsRead(1, v, []);
  }
}
