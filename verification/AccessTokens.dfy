/** Access tokens: a compact JWS (RFC 7515) minted and decoded over an abstract signer. */
module AccessTokens {
  import opened Wrappers
  import opened Base64
  import opened Strings

  type Bytes = seq<Byte>

  datatype Claims = Claims(userId: nat, sessionId: nat, expiresAt: int)

  /** The payload as minted. */
  datatype Payload = Payload(sub: nat, sid: nat, iat: int, exp: int)

  datatype Signer = Signer(sign: Bytes -> Bytes, verify: (Bytes, Bytes) -> bool)

  /** JSON text of a payload and back; parsing reads only sub, sid and exp. */
  datatype Json = Json(dumps: Payload -> Bytes, parse: Bytes -> Option<Claims>)

  /** A signer accepts its own signatures. */
  ghost predicate Honest(signer: Signer) {
    forall m: Bytes :: signer.verify(m, signer.sign(m))
  }

  ghost predicate Invertible(json: Json) {
    forall p: Payload :: json.parse(json.dumps(p)) == Some(Claims(p.sub, p.sid, p.exp))
  }

  datatype TokenError = Malformed | NotAscii | BadSignatureEncoding | BadSignature | BadPayload | Expired

  const HEADER := "{\"alg\":\"EdDSA\",\"typ\":\"JWT\"}"

  function Mint(signer: Signer, json: Json, userId: nat, sessionId: nat, now: int, ttl: int): string
  {
    HeaderIsAscii();
    var header := Encode(Ascii(HEADER));
    var payload := Encode(json.dumps(Payload(userId, sessionId, now, now + ttl)));
    EncodingsAreAscii(Ascii(HEADER), json.dumps(Payload(userId, sessionId, now, now + ttl)));
    header + "." + payload + "." + Encode(signer.sign(Ascii(header + "." + payload)))
  }

  lemma HeaderIsAscii()
    ensures IsAscii(HEADER)
  {
    assert forall i :: 0 <= i < |HEADER| ==> HEADER[i] < 128 as char;
  }

  lemma EncodingsAreAscii(header: Bytes, payload: Bytes)
    ensures IsAscii(Encode(header) + "." + Encode(payload))
  {
    RoundTrip(header);
    RoundTrip(payload);
  }

  function Decode(signer: Signer, json: Json, token: string, now: int): Result<Claims, TokenError> {
    var parts := Split(token, '.');
    if |parts| != 3 then Err(Malformed) else DecodeParts(signer, json, parts[0], parts[1], parts[2], now)
  }

  function DecodeParts(signer: Signer, json: Json, header: string, payload: string, signature: string, now: int)
    : Result<Claims, TokenError>
  {
    var signingInput := header + "." + payload;
    if !IsAscii(signingInput) then Err(NotAscii)
    else
      match Base64.Decode(signature)
      case None => Err(BadSignatureEncoding)
      case Some(sig) =>
        if !signer.verify(Ascii(signingInput), sig) then Err(BadSignature)
        else
          match Base64.Decode(payload)
          case None => Err(BadPayload)
          case Some(bytes) =>
            match json.parse(bytes)
            case None => Err(BadPayload)
            case Some(claims) => if now >= claims.expiresAt then Err(Expired) else Ok(claims)
  }

  /**
   A minted token decodes to the same user, session and expiry at every time before that
   expiry, and is refused as expired at every time from it on.
   */
  lemma MintedTokenDecodes(signer: Signer, json: Json, userId: nat, sessionId: nat, mintedAt: int, ttl: int, now: int)
    requires Honest(signer) && Invertible(json)
    ensures Decode(signer, json, Mint(signer, json, userId, sessionId, mintedAt, ttl), now) ==
            if now < mintedAt + ttl then Ok(Claims(userId, sessionId, mintedAt + ttl)) else Err(Expired)
  {
    HeaderIsAscii();
    var payloadBytes := json.dumps(Payload(userId, sessionId, mintedAt, mintedAt + ttl));
    var header, payload := Encode(Ascii(HEADER)), Encode(payloadBytes);
    EncodingsAreAscii(Ascii(HEADER), payloadBytes);
    var signature := signer.sign(Ascii(header + "." + payload));
    RoundTrip(Ascii(HEADER));
    RoundTrip(payloadBytes);
    RoundTrip(signature);
    ThreeSegments(header, payload, Encode(signature));
    assert signer.verify(Ascii(header + "." + payload), signature);
  }

  lemma ThreeSegments(a: string, b: string, c: string)
    requires '.' !in a && '.' !in b && '.' !in c
    ensures Split(a + "." + b + "." + c, '.') == [a, b, c]
  {
    assert a + "." + b + "." + c == a + "." + (b + "." + c);
    SplitAt(a, b + "." + c, '.');
    SplitAt(b, c, '.');
    SplitNone(c, '.');
    assert [a] + ([b] + [c]) == [a, b, c];
  }

  /**
   What acceptance means for any token: it is exactly three dot-free segments, its signature
   verifies over the first two joined by a dot, its payload carries the claims returned, and
   it has not expired.
   */
  lemma AcceptedTokenIsSound(signer: Signer, json: Json, token: string, now: int)
    requires Decode(signer, json, token, now).Ok?
    ensures exists header, payload, signature ::
              && '.' !in header && '.' !in payload && '.' !in signature
              && token == header + "." + payload + "." + signature
              && IsAscii(header + "." + payload)
              && Base64.Decode(signature).Some? && signer.verify(Ascii(header + "." + payload),
                                                                 Base64.Decode(signature).value)
              && Base64.Decode(payload).Some?
              && json.parse(Base64.Decode(payload).value) == Some(Decode(signer, json, token, now).value)
    ensures now < Decode(signer, json, token, now).value.expiresAt
  {
    SplitIsExact(token, '.');
    var parts := Split(token, '.');
    var header, payload, signature := parts[0], parts[1], parts[2];
    assert header in parts && payload in parts && signature in parts;
    assert Join(parts, '.') == header + "." + Join(parts[1..], '.');
    assert Join(parts[1..], '.') == payload + "." + Join(parts[1..][1..], '.');
    assert Join(parts[1..][1..], '.') == signature;
    assert header + "." + (payload + "." + signature) == header + "." + payload + "." + signature;
  }
}
