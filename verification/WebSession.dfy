/** Signed transaction values: a payload and its expiry, encoded, and the keyed digest of that text. */
module WebSession {
  import opened Wrappers
  import opened Text
  import opened Base64

  datatype Field = Number(n: int) | Words(text: string)

  type Payload = map<string, Field>

  datatype AuthenticationError = Missing | Invalid | Expired

  /** What the module gets from elsewhere: the digest under the server's key, and the JSON printer and parser. */
  datatype Tools = Tools(mac: string -> seq<Byte>, dump: Payload -> seq<Byte>, parse: seq<Byte> -> Option<Payload>)

  function WithExpiry(payload: Payload, ttl: int, now: real): Payload {
    payload["exp" := Number(now.Floor + ttl)]
  }

  /** `sign_payload`. */
  function Sign(payload: Payload, ttl: int, now: real, tools: Tools): string {
    var encoded := Encode(tools.dump(WithExpiry(payload, ttl, now)));
    encoded + "." + Encode(tools.mac(encoded))
  }

  /** The position of the first full stop, or the length. */
  function FirstDot(s: string): (k: nat)
    ensures k <= |s|
    ensures k < |s| ==> s[k] == '.'
    ensures forall i :: 0 <= i < k ==> s[i] != '.'
  {
    if s == "" || s[0] == '.' then 0 else 1 + FirstDot(s[1..])
  }

  /** An expiry that is absent counts as long past; one that is no number is not handled. */
  predicate IsExpired(payload: Payload, now: real)
    requires "exp" in payload ==> payload["exp"].Number?
  {
    (if "exp" in payload then payload["exp"].n else 0) as real < now
  }

  datatype Verdict = Accepted(payload: Payload) | Refused(error: AuthenticationError) | Unhandled

  /** `verify_payload`. */
  function Verify(value: Option<string>, now: real, tools: Tools): Verdict {
    if value.None? || value.value == "" || '.' !in value.value then Refused(Missing)
    else
      var k := FirstDot(value.value);
      assert k < |value.value|;
      var encoded, supplied := value.value[..k], value.value[k + 1..];
      var signature := Decode(supplied + "==");
      var raw := Decode(encoded + "==");
      if signature.None? || raw.None? then Refused(Invalid)
      else
        var payload := tools.parse(raw.value);
        if payload.None? then Refused(Invalid)
        else if tools.mac(encoded) != signature.value then Refused(Expired)
        else if "exp" in payload.value && !payload.value["exp"].Number? then Unhandled
        else if IsExpired(payload.value, now) then Refused(Expired)
        else Accepted(payload.value)
  }

  lemma {:induction false} DotAfter(s: string, rest: string)
    requires '.' !in s
    ensures FirstDot(s + "." + rest) == |s|
  {
    var whole := s + "." + rest;
    if s != "" {
      assert whole[0] == s[0] && s[0] in s;
      assert whole[1..] == s[1..] + "." + rest;
      DotAfter(s[1..], rest);
    }
  }

  lemma EncodedHasNoDot(bytes: seq<Byte>)
    ensures '.' !in Encode(bytes)
  {
    EncodeIsBare(bytes);
  }

  /** A value read apart at its first full stop. */
  lemma ReadApart(encoded: string, supplied: string, now: real, tools: Tools)
    requires '.' !in encoded
    requires Decode(encoded + "==").Some? && Decode(supplied + "==").Some?
    ensures var payload := tools.parse(Decode(encoded + "==").value);
            Verify(Some(encoded + "." + supplied), now, tools)
            == if payload.None? then Refused(Invalid)
               else if tools.mac(encoded) != Decode(supplied + "==").value then Refused(Expired)
               else if "exp" in payload.value && !payload.value["exp"].Number? then Unhandled
               else if IsExpired(payload.value, now) then Refused(Expired)
               else Accepted(payload.value)
  {
    var whole := encoded + "." + supplied;
    DotAfter(encoded, supplied);
    assert whole[|encoded|] == '.' && whole[..|encoded|] == encoded && whole[|encoded| + 1..] == supplied;
  }

  /**
    For every payload, lifetime and moment: a signed value verifies, to the payload with its
    expiry, until that expiry and no longer, and never to anything else.
   */
  lemma SignedVerifies(payload: Payload, ttl: int, signedAt: real, now: real, tools: Tools)
    requires forall p: Payload :: tools.parse(tools.dump(p)) == Some(p)
    ensures var whole := WithExpiry(payload, ttl, signedAt);
            Verify(Some(Sign(payload, ttl, signedAt, tools)), now, tools)
            == if now <= (signedAt.Floor + ttl) as real then Accepted(whole) else Refused(Expired)
    ensures var got := Verify(Some(Sign(payload, ttl, signedAt, tools)), now, tools);
            got.Accepted? ==>
              && got.payload.Keys == payload.Keys + {"exp"}
              && got.payload["exp"] == Number(signedAt.Floor + ttl)
              && forall field :: field in payload && field != "exp" ==> got.payload[field] == payload[field]
  {
    var raw := tools.dump(WithExpiry(payload, ttl, signedAt));
    var encoded := Encode(raw);
    EncodedHasNoDot(raw);
    RoundTrip(raw);
    RoundTrip(tools.mac(encoded));
    ReadApart(encoded, Encode(tools.mac(encoded)), now, tools);
  }

  /** What a parsed payload must be to pass at a moment: its expiry absent or a number, and not before `now`. */
  predicate IsLive(payload: Payload, now: real) {
    ("exp" in payload ==> payload["exp"].Number?) && !IsExpired(payload, now)
  }

  /**
    Any body beside any signature is accepted exactly when the signature is the digest of
    the body's own text, the body parses, and its expiry has not passed.
   */
  lemma AcceptedExactly(body: seq<Byte>, signature: seq<Byte>, payload: Payload, now: real, tools: Tools)
    ensures Verify(Some(Encode(body) + "." + Encode(signature)), now, tools) == Accepted(payload)
            <==> tools.mac(Encode(body)) == signature && tools.parse(body) == Some(payload) && IsLive(payload, now)
    ensures IsLive(payload, now) <==>
              if "exp" in payload then payload["exp"].Number? && now <= payload["exp"].n as real else now <= 0.0
  {
    EncodedHasNoDot(body);
    RoundTrip(body);
    RoundTrip(signature);
    ReadApart(Encode(body), Encode(signature), now, tools);
  }

  /** A value without two parts is missing, and only such a value; one that does not decode or parse is invalid, and only such a one. */
  lemma RefusedExactly(value: Option<string>, now: real, tools: Tools)
    ensures Verify(value, now, tools) == Refused(Missing) <==> value.None? || '.' !in value.value
    ensures value.Some? && '.' in value.value ==>
              (Verify(value, now, tools) == Refused(Invalid) <==>
                 var k := FirstDot(value.value);
                 || Decode(value.value[k + 1..] + "==").None?
                 || Decode(value.value[..k] + "==").None?
                 || tools.parse(Decode(value.value[..k] + "==").value).None?)
  {
    if value.Some? && '.' in value.value {
      var i :| 0 <= i < |value.value| && value.value[i] == '.';
      assert FirstDot(value.value) <= i;
    }
  }

  /**
    Another body under the signature of a signed payload is accepted exactly when the digest
    does not tell the two texts apart and the body is itself a live payload.
   */
  lemma OtherBodyExactly(
      body: seq<Byte>, other: Payload, payload: Payload, ttl: int, signedAt: real, now: real, tools: Tools)
    ensures var encoded := Encode(tools.dump(WithExpiry(payload, ttl, signedAt)));
            Verify(Some(Encode(body) + "." + Encode(tools.mac(encoded))), now, tools) == Accepted(other)
            <==> tools.mac(Encode(body)) == tools.mac(encoded) && tools.parse(body) == Some(other) && IsLive(other, now)
  {
    AcceptedExactly(body, tools.mac(Encode(tools.dump(WithExpiry(payload, ttl, signedAt)))), other, now, tools);
  }
}
