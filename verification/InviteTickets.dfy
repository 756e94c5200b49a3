/** The invite ticket that is passed around out of band. */
module InviteTickets {
  import opened Prelude
  import Base32
  import Redaction

  const INVITE_PREFIX: string := Redaction.TICKET_PREFIX

  const SECRET_LENGTH: nat := 16

  /** `E`: the endpoint part of a ticket. */
  datatype Ticket<E> = Ticket(endpoint: E, folderSecret: Bytes)

  /** The foreign encodings: the text of an endpoint, and the JSON object of two texts. */
  datatype Codec<!E> = Codec(
    endpointText: E -> string,
    parseEndpoint: string -> Option<E>,
    toJson: (string, string) -> Bytes,
    fromJson: Bytes -> Option<(string, string)>)

  ghost predicate Invertible<E(!new)>(c: Codec<E>) {
    && (forall e :: c.parseEndpoint(c.endpointText(e)) == Some(e))
    && (forall a, b :: c.fromJson(c.toJson(a, b)) == Some((a, b)))
  }

  datatype TicketError =
    | MissingPrefix | EnvelopeNotBase32 | BadJson | BadEndpoint | SecretNotBase32
    | WrongSecretLength(length: nat)

  function Upper(s: string): (u: string)
    ensures |u| == |s|
  {
    seq(|s|, k requires 0 <= k < |s| => UpperChar(s[k]))
  }

  function UpperChar(c: char): char {
    if 'a' <= c <= 'z' then 'A' + (c - 'a') else c
  }

  /** A letter and its other case, among the letters of ASCII. */
  predicate CaseOf(small: char, capital: char) {
    'a' <= small <= 'z' && 'A' <= capital <= 'Z' && small as int - 'a' as int == capital as int - 'A' as int
  }

  /** The two texts differ in the case of letters of ASCII at most. */
  predicate SameButForCase(s: string, t: string) {
    |s| == |t| && forall k :: 0 <= k < |s| ==> s[k] == t[k] || CaseOf(s[k], t[k]) || CaseOf(t[k], s[k])
  }

  /** A text in capitals. */
  predicate NoSmallLetter(s: string) { forall k :: 0 <= k < |s| ==> !('a' <= s[k] <= 'z') }

  /** `Upper` is blind to case and to nothing else. */
  lemma UpperExactly(s: string, t: string)
    ensures Upper(s) == Upper(t) <==> SameButForCase(s, t)
    ensures Upper(s) == t <==> SameButForCase(s, t) && NoSmallLetter(t)
  {
    if Upper(s) == Upper(t) || Upper(s) == t {
      forall k | 0 <= k < |s| ensures s[k] == t[k] || CaseOf(s[k], t[k]) || CaseOf(t[k], s[k]) {
        assert Upper(s)[k] == UpperChar(s[k]) && Upper(t)[k] == UpperChar(t[k]);
      }
    }
    if Upper(s) == t {
      forall k | 0 <= k < |t| ensures !('a' <= t[k] <= 'z') { assert Upper(s)[k] == UpperChar(s[k]); }
    }
  }

  function Encode<E>(c: Codec<E>, t: Ticket<E>): string {
    INVITE_PREFIX + Base32.Encode(c.toJson(c.endpointText(t.endpoint), Base32.Encode(t.folderSecret)))
  }

  function Decode<E>(c: Codec<E>, s: string): Result<Ticket<E>, TicketError> {
    if !(INVITE_PREFIX <= s) then Err(MissingPrefix)
    else
      var envelope := Base32.Decode(Upper(s[|INVITE_PREFIX|..]));
      if envelope.None? then Err(EnvelopeNotBase32)
      else
        var json := c.fromJson(envelope.value);
        if json.None? then Err(BadJson) else DecodeFields(c, json.value.0, json.value.1)
  }

  function DecodeFields<E>(c: Codec<E>, endpointText: string, secretText: string): Result<Ticket<E>, TicketError> {
    var endpoint := c.parseEndpoint(endpointText);
    if endpoint.None? then Err(BadEndpoint)
    else
      var secret := Base32.Decode(Upper(secretText));
      if secret.None? then Err(SecretNotBase32)
      else if |secret.value| != SECRET_LENGTH then Err(WrongSecretLength(|secret.value|))
      else Ok(Ticket(endpoint.value, secret.value))
  }

  /** Base32 text has no lower-case letters to begin with. */
  lemma EncodedIsUpper(b: Bytes)
    ensures Upper(Base32.Encode(b)) == Base32.Encode(b)
  {
    var s := Base32.Encode(b);
    Base32.RoundTrip(b);
    forall k | 0 <= k < |s| ensures UpperChar(s[k]) == s[k] {
      assert Base32.Digit(s[k]).Some?;
    }
  }

  lemma FieldsRoundTrip<E(!new)>(c: Codec<E>, t: Ticket<E>)
    requires Invertible(c)
    ensures DecodeFields(c, c.endpointText(t.endpoint), Base32.Encode(t.folderSecret))
            == if |t.folderSecret| == SECRET_LENGTH then Ok(t) else Err(WrongSecretLength(|t.folderSecret|))
  {
    EncodedIsUpper(t.folderSecret);
    Base32.RoundTrip(t.folderSecret);
  }

  /** Main result: decoding gives back the ticket, in whatever letter case the payload
      comes. */
  lemma RoundTrip<E(!new)>(c: Codec<E>, t: Ticket<E>, payload: string)
    requires Invertible(c) && |t.folderSecret| == SECRET_LENGTH
    requires SameButForCase(payload, Encode(c, t)[|INVITE_PREFIX|..])
    ensures Decode(c, INVITE_PREFIX + payload) == Ok(t)
  {
    UpperExactly(payload, Encode(c, t)[|INVITE_PREFIX|..]);
    var json := c.toJson(c.endpointText(t.endpoint), Base32.Encode(t.folderSecret));
    assert Encode(c, t)[|INVITE_PREFIX|..] == Base32.Encode(json);
    assert (INVITE_PREFIX + payload)[|INVITE_PREFIX|..] == payload;
    EncodedIsUpper(json);
    Base32.RoundTrip(json);
    assert c.fromJson(json) == Some((c.endpointText(t.endpoint), Base32.Encode(t.folderSecret)));
    FieldsRoundTrip(c, t);
  }

  /** Two tickets have one text only if they are the same. */
  lemma EncodeInjective<E(!new)>(c: Codec<E>, t: Ticket<E>, u: Ticket<E>)
    requires Invertible(c) && |t.folderSecret| == |u.folderSecret| == SECRET_LENGTH
    ensures Encode(c, t) == Encode(c, u) <==> t == u
  {
    var text := Encode(c, t);
    assert text == INVITE_PREFIX + text[|INVITE_PREFIX|..];
    RoundTrip(c, t, text[|INVITE_PREFIX|..]);
    if Encode(c, u) == text { RoundTrip(c, u, text[|INVITE_PREFIX|..]); }
  }

  /** Decoding is deaf to letter case in the payload, for every text, good or bad. */
  lemma CaseBlind<E>(c: Codec<E>, payload: string, other: string)
    requires SameButForCase(payload, other)
    ensures Decode(c, INVITE_PREFIX + payload) == Decode(c, INVITE_PREFIX + other)
  {
    UpperExactly(payload, other);
    assert (INVITE_PREFIX + payload)[|INVITE_PREFIX|..] == payload;
    assert (INVITE_PREFIX + other)[|INVITE_PREFIX|..] == other;
  }

  /** The payload in capitals, in Base32, is a JSON object of a text of the endpoint and of
      a text that is the secret, in any letter case, in Base32. */
  ghost predicate Carries<E(!new)>(c: Codec<E>, payload: string, t: Ticket<E>) {
    exists envelope, json, fields, secret ::
      && SameButForCase(payload, envelope) && Base32.Decode(envelope) == Some(json)
      && c.fromJson(json) == Some(fields) && c.parseEndpoint(fields.0) == Some(t.endpoint)
      && SameButForCase(fields.1, secret) && Base32.Decode(secret) == Some(t.folderSecret)
  }

  /** Which texts are tickets: those with the prefix and a payload that carries an
      endpoint and a secret of the right length. */
  lemma DecodeExactly<E(!new)>(c: Codec<E>, s: string, t: Ticket<E>)
    ensures Decode(c, s) == Ok(t)
            <==> INVITE_PREFIX <= s && Carries(c, s[|INVITE_PREFIX|..], t) && |t.folderSecret| == SECRET_LENGTH
  {
    if INVITE_PREFIX <= s {
      var payload := s[|INVITE_PREFIX|..];
      CarriesUpper(c, payload, t);
    }
  }

  lemma CarriesUpper<E(!new)>(c: Codec<E>, payload: string, t: Ticket<E>)
    ensures Carries(c, payload, t)
            <==> var json := Base32.Decode(Upper(payload));
                 json.Some? && c.fromJson(json.value).Some?
                 && var fields := c.fromJson(json.value).value;
                    c.parseEndpoint(fields.0) == Some(t.endpoint) && Base32.Decode(Upper(fields.1)) == Some(t.folderSecret)
  {
    UpperExactly(payload, Upper(payload));
    if envelope, json, fields, secret :|
      && SameButForCase(payload, envelope) && Base32.Decode(envelope) == Some(json)
      && c.fromJson(json) == Some(fields) && c.parseEndpoint(fields.0) == Some(t.endpoint)
      && SameButForCase(fields.1, secret) && Base32.Decode(secret) == Some(t.folderSecret)
    {
      DecodedIsUpper(payload, envelope);
      DecodedIsUpper(fields.1, secret);
    }
    var json := Base32.Decode(Upper(payload));
    if json.Some? && c.fromJson(json.value).Some? {
      var fields := c.fromJson(json.value).value;
      UpperExactly(fields.1, Upper(fields.1));
    }
  }

  lemma DecodedIsUpper(s: string, t: string)
    requires SameButForCase(s, t) && Base32.Decode(t).Some?
    ensures t == Upper(s)
  {
    forall k | 0 <= k < |t| ensures !('a' <= t[k] <= 'z') { assert Base32.Digit(t[k]).Some?; }
    UpperExactly(s, t);
  }

  // ---------------------------------------------------------------- tickets in log lines

  /** No character of a ticket ends a token, so that redaction takes all of it. */
  lemma {:induction false} NoTokenEnd(s: string, rest: string)
    requires forall k :: 0 <= k < |s| ==> !Redaction.EndsToken(s[k])
    ensures Redaction.TokenEnd(s + rest) == |s| + Redaction.TokenEnd(rest)
    decreases |s|
  {
    if s == "" {
      assert s + rest == rest;
    } else {
      assert (s + rest)[1..] == s[1..] + rest;
      NoTokenEnd(s[1..], rest);
    }
  }

  /** A ticket goes from a log line as a whole, in any letter case of its payload,
      together with what follows it without a delimiter; the text before it stays. */
  lemma TicketGoesWhole<E>(c: Codec<E>, t: Ticket<E>, payload: string, before: string, rest: string)
    requires SameButForCase(payload, Encode(c, t)[|INVITE_PREFIX|..])
    requires Redaction.Find(before + (INVITE_PREFIX + (payload + rest)), INVITE_PREFIX) == |before|
    ensures Redaction.Rendered(Redaction.PatternPieces(before + (INVITE_PREFIX + (payload + rest)), INVITE_PREFIX), Redaction.MARK)
            == before + (Redaction.MARK
               + Redaction.Rendered(Redaction.PatternPieces(rest[Redaction.TokenEnd(rest)..], INVITE_PREFIX), Redaction.MARK))
  {
    var json := c.toJson(c.endpointText(t.endpoint), Base32.Encode(t.folderSecret));
    assert Encode(c, t)[|INVITE_PREFIX|..] == Base32.Encode(json);
    PayloadHasNoEnd(payload, json);
    NoTokenEnd(payload, rest);
    TokenGoes(before, INVITE_PREFIX, payload, rest, Redaction.MARK);
  }

  lemma TokenGoes(before: string, prefix: string, payload: string, rest: string, mark: string)
    requires prefix != "" && Redaction.Find(before + (prefix + (payload + rest)), prefix) == |before|
    requires Redaction.TokenEnd(payload + rest) == |payload| + Redaction.TokenEnd(rest)
    ensures Redaction.Rendered(Redaction.PatternPieces(before + (prefix + (payload + rest)), prefix), mark)
            == before + (mark + Redaction.Rendered(Redaction.PatternPieces(rest[Redaction.TokenEnd(rest)..], prefix), mark))
  {
    var line := before + (prefix + (payload + rest));
    LineParts(before, prefix, payload + rest);
    assert Redaction.Before(line, prefix) == before;
    assert Redaction.After(line, prefix) == payload + rest;
    SkipBoth(payload, rest, Redaction.TokenEnd(rest));
    Redaction.PatternStep(line, prefix, mark);
  }

  lemma LineParts(a: string, b: string, c: string)
    ensures (a + (b + c))[..|a|] == a && (a + (b + c))[|a| + |b|..] == c
  {
  }

  lemma SkipBoth(a: string, b: string, k: nat)
    requires k <= |b|
    ensures (a + b)[|a| + k..] == b[k..]
  {
  }

  lemma PayloadHasNoEnd(payload: string, json: Bytes)
    requires SameButForCase(payload, Base32.Encode(json))
    ensures forall k :: 0 <= k < |payload| ==> !Redaction.EndsToken(payload[k])
  {
    UpperExactly(payload, Base32.Encode(json));
    EncodedIsUpper(json);
    Base32.RoundTrip(json);
    forall k | 0 <= k < |payload| ensures !Redaction.EndsToken(payload[k]) {
      assert Upper(payload)[k] == Base32.Encode(json)[k];
      assert Base32.Digit(Base32.Encode(json)[k]).Some?;
    }
  }
}
