/**
 Shared files: the name and the bytes packed into one length-prefixed frame, sealed under the
 conversation's key, and taken apart again by the recipient.
 */
module FileFrame {
  import opened Wrappers
  import opened SymbolicCrypto
  import AssociatedData
  import GroupEpochs
  import Base64

  type Bytes = seq<Base64.Byte>

  const MAX_NAME := 0xffff

  datatype Error = NameTooLong | MalformedFrame | MissingSignature | NotAuthentic | BadTag

  function Flatten(parts: seq<Bytes>): Bytes {
    if parts == [] then [] else Flatten(parts[..|parts| - 1]) + parts[|parts| - 1]
  }

  function TotalLength(parts: seq<Bytes>): (n: nat)
    ensures n == |Flatten(parts)|
  {
    if parts == [] then 0 else TotalLength(parts[..|parts| - 1]) + |parts[|parts| - 1]|
  }

  lemma {:induction false} PrefixLength(parts: seq<Bytes>, n: nat)
    requires n <= |parts|
    ensures TotalLength(parts[..n]) <= TotalLength(parts)
    decreases |parts| - n
  {
    if n == |parts| {
      assert parts[..n] == parts;
    } else {
      assert parts[..n + 1][..n] == parts[..n];
      PrefixLength(parts, n + 1);
    }
  }

  /** Copies `part` into `out` starting at `offset`. */
  method SetAt(out: array<Base64.Byte>, part: Bytes, offset: nat)
    requires offset + |part| <= out.Length
    modifies out
    ensures out[..offset + |part|] == old(out[..offset]) + part
  {
    ghost var before := out[..offset];
    for i := 0 to |part|
      invariant out[..offset + i] == before + part[..i]
    {
      out[offset + i] := part[i];
      assert out[..offset + i + 1] == out[..offset + i] + [part[i]];
      assert part[..i + 1] == part[..i] + [part[i]];
    }
    assert part[..|part|] == part;
  }

  /** Concatenates byte arrays: one buffer of the total length, filled part by part. */
  method ConcatBytes(parts: seq<Bytes>) returns (out: array<Base64.Byte>)
    ensures fresh(out) && out[..] == Flatten(parts)
  {
    var total := 0;
    for i := 0 to |parts|
      invariant total == TotalLength(parts[..i])
    {
      assert parts[..i + 1][..i] == parts[..i];
      total := total + |parts[i]|;
    }
    assert parts[..|parts|] == parts;
    out := new Base64.Byte[total](_ => 0);
    var offset := 0;
    for i := 0 to |parts|
      invariant offset == TotalLength(parts[..i]) <= total
      invariant out[..offset] == Flatten(parts[..i])
    {
      assert parts[..i + 1][..i] == parts[..i];
      PrefixLength(parts, i + 1);
      SetAt(out, parts[i], offset);
      assert Flatten(parts[..i + 1]) == Flatten(parts[..i]) + parts[i];
      offset := offset + |parts[i]|;
    }
    assert out[..offset] == out[..];
  }

  /** A big-endian 16-bit number. */
  function Uint16(high: Base64.Byte, low: Base64.Byte): nat {
    var h: nat := high;
    var l: nat := low;
    h * 256 + l
  }

  /** The frame: the name's length in two bytes, big-endian, then the name, then the file. */
  function Frame(name: Bytes, data: Bytes): Option<Bytes> {
    if |name| > MAX_NAME then None else Some([|name| / 256, |name| % 256] + name + data)
  }

  function Unframe(buf: Bytes): Option<(Bytes, Bytes)> {
    if |buf| < 2 then None
    else
      var nameEnd := 2 + Uint16(buf[0], buf[1]);
      if |buf| < nameEnd then None else Some((buf[2..nameEnd], buf[nameEnd..]))
  }

  lemma FlattenThree(a: Bytes, b: Bytes, c: Bytes)
    ensures Flatten([a, b, c]) == a + b + c
  {
    assert [a, b, c][..2] == [a, b] && [a, b][..1] == [a];
    assert [a][..0] == [] && [] + a == a;
    assert Flatten([a]) == a;
    assert Flatten([a, b]) == a + b;
  }

  method PackFilePlaintext(name: Bytes, data: Bytes) returns (r: Result<array<Base64.Byte>, Error>)
    ensures r.Err? <==> Frame(name, data).None?
    ensures r.Err? ==> r.error == NameTooLong
    ensures r.Ok? ==> Frame(name, data) == Some(r.value[..])
  {
    if |name| > MAX_NAME {
      return Err(NameTooLong);
    }
    var header := new Base64.Byte[2](_ => 0);
    header[0] := |name| / 256;
    header[1] := |name| % 256;
    var out := ConcatBytes([header[..], name, data]);
    FlattenThree(header[..], name, data);
    assert header[..] == [|name| / 256, |name| % 256];
    return Ok(out);
  }

  /** Refuses exactly the buffers too short for their own length header; any other is the frame of what it returns. */
  method UnpackFilePlaintext(buf: Bytes) returns (r: Result<(Bytes, Bytes), Error>)
    ensures r.Err? <==> |buf| < 2 || |buf| < 2 + (buf[0] as nat) * 256 + buf[1] as nat
    ensures r.Err? ==> r.error == MalformedFrame
    ensures forall name, data :: r == Ok((name, data)) <==> Frame(name, data) == Some(buf)
  {
    if |buf| < 2 {
      TooShort(buf);
      return Err(MalformedFrame);
    }
    var nameLength := Uint16(buf[0], buf[1]);
    var nameStart := 2;
    var nameEnd := nameStart + nameLength;
    if |buf| < nameEnd {
      TooShort(buf);
      return Err(MalformedFrame);
    }
    OnlyItsOwnFrame(buf);
    return Ok((buf[nameStart..nameEnd], buf[nameEnd..]));
  }

  lemma OnlyItsOwnFrame(buf: Bytes)
    requires |buf| >= 2 && |buf| >= 2 + Uint16(buf[0], buf[1])
    ensures forall name, data :: (name, data) == Unframe(buf).value <==> Frame(name, data) == Some(buf)
  {
    FrameUnframe(buf);
    forall name, data | Frame(name, data) == Some(buf) ensures Unframe(buf) == Some((name, data)) {
      UnframeFrame(name, data);
    }
  }

  lemma TooShort(buf: Bytes)
    requires Unframe(buf).None?
    ensures forall name, data :: Frame(name, data) != Some(buf)
  {
    forall name, data ensures Frame(name, data) != Some(buf) {
      UnframeFrame(name, data);
    }
  }

  /** Every name of at most 65535 bytes comes back with its file; longer ones are refused. */
  lemma UnframeFrame(name: Bytes, data: Bytes)
    ensures Frame(name, data).Some? <==> |name| <= 65535
    ensures Frame(name, data).Some? ==>
              var buf := Frame(name, data).value;
              |buf| == 2 + |name| + |data| && (buf[0] as nat) * 256 + buf[1] as nat == |name|
    ensures Frame(name, data).Some? ==> Unframe(Frame(name, data).value) == Some((name, data))
  {
  }

  /** Every accepted buffer is the frame of what it unpacks to, and exactly the too short ones are refused. */
  lemma FrameUnframe(buf: Bytes)
    ensures Unframe(buf).None? <==> |buf| < 2 || |buf| < 2 + (buf[0] as nat) * 256 + buf[1] as nat
    ensures Unframe(buf).Some? ==> Frame(Unframe(buf).value.0, Unframe(buf).value.1) == Some(buf)
  {
    if Unframe(buf).Some? {
      var (name, data) := Unframe(buf).value;
      assert |name| / 256 == buf[0] && |name| % 256 == buf[1];
      assert buf == [buf[0], buf[1]] + name + data;
    }
  }

  // ---- Sealing a frame -------------------------------------------------------------

  datatype SealedFile = SealedFile(ciphertext: Box<Bytes>, nonce: nat, sig: Option<Signature<Bytes>>)

  /** A payload sealed for one place: a 1:1 file, or group content of one epoch. */
  function SealAs(key: SymKey, payload: Bytes, signer: SigPrivate, home: AssociatedData.Context,
                  nonce: nat): SealedFile {
    var aad := AssociatedData.Encode(home);
    var ciphertext := Encrypt(key, nonce, payload, aad);
    SealedFile(ciphertext, nonce, Some(Sign(signer, Signed(ciphertext, nonce, aad))))
  }

  /** A file shared in a 1:1 conversation. */
  function SealFile(key: SymKey, frame: Bytes, signer: SigPrivate, conv: string, senderKeyId: string,
                    nonce: nat): SealedFile {
    SealAs(key, frame, signer, AssociatedData.FileContext(conv, senderKeyId), nonce)
  }

  /** A file shared in a group is sealed as group content of the current epoch. */
  function SealGroupFile(key: SymKey, frame: Bytes, signer: SigPrivate, conv: string, senderKeyId: string, epoch: int,
                         nonce: nat)
    : SealedFile
  {
    SealAs(key, frame, signer, AssociatedData.GroupContext(conv, senderKeyId, epoch), nonce)
  }

  /** The payload of a box presented as belonging to `place`. */
  function OpenPayload(key: SymKey, file: SealedFile, verifier: SigPublic,
                       place: AssociatedData.Context): Result<Bytes, Error> {
    var aad := AssociatedData.Encode(place);
    if file.sig.None? then Err(MissingSignature)
    else if !Verify(verifier, Signed(file.ciphertext, file.nonce, aad), file.sig.value) then Err(NotAuthentic)
    else
      match Decrypt(key, file.nonce, file.ciphertext, aad)
      case None => Err(BadTag)
      case Some(payload) => Ok(payload)
  }

  /** A file opened in `place`: its payload taken apart. */
  function OpenAs(key: SymKey, file: SealedFile, verifier: SigPublic,
                  place: AssociatedData.Context): Result<(Bytes, Bytes), Error> {
    match OpenPayload(key, file, verifier, place)
    case Err(e) => Err(e)
    case Ok(frame) =>
      match Unframe(frame)
      case Some(parts) => Ok(parts)
      case None => Err(MalformedFrame)
  }

  /** Opens a file downloaded in a 1:1 conversation. */
  method OpenFile(key: SymKey, file: SealedFile, verifier: SigPublic, conv: string, senderKeyId: string)
    returns (r: Result<(Bytes, Bytes), Error>)
    ensures r == OpenAs(key, file, verifier, AssociatedData.FileContext(conv, senderKeyId))
  {
    if file.sig.None? {
      return Err(MissingSignature);
    }
    var aad := AssociatedData.Encode(AssociatedData.FileContext(conv, senderKeyId));
    if !Verify(verifier, Signed(file.ciphertext, file.nonce, aad), file.sig.value) {
      return Err(NotAuthentic);
    }
    var frame := Decrypt(key, file.nonce, file.ciphertext, aad);
    if frame.None? {
      return Err(BadTag);
    }
    r := UnpackFilePlaintext(frame.value);
    FrameUnframe(frame.value);
  }

  /**
   A box opens, to its own payload, exactly with its key, its author's signing key and the place it
   was sealed for.
   */
  lemma PayloadOpensOnlyInPlace(key: SymKey, payload: Bytes, signer: SigPrivate, home: AssociatedData.Context,
                                nonce: nat, key': SymKey, verifier: SigPublic, place: AssociatedData.Context)
    requires AssociatedData.UuidShaped(home) && AssociatedData.UuidShaped(place)
    ensures var result := OpenPayload(key', SealAs(key, payload, signer, home, nonce), verifier, place);
            if key' == key && verifier == signer.Public() && place == home then result == Ok(payload) else result.Err?
  {
    if AssociatedData.Encode(place) == AssociatedData.Encode(home) {
      AssociatedData.EncodeInjective(place, home);
    }
  }

  /**
   A file shared in a 1:1 conversation opens, to its own name and bytes, exactly with the
   conversation's key, the author's signing key and the file context it was sealed in: never as a
   text message, as group content, or in another conversation.
   */
  lemma FileOpensOnlyInPlace(key: SymKey, name: Bytes, data: Bytes, signer: SigPrivate, conv: string,
                             senderKeyId: string, nonce: nat, key': SymKey, verifier: SigPublic,
                             place: AssociatedData.Context)
    requires |name| <= MAX_NAME
    requires AssociatedData.IsUuid(conv) && AssociatedData.IsUuid(senderKeyId) && AssociatedData.UuidShaped(place)
    ensures var file := SealFile(key, Frame(name, data).value, signer, conv, senderKeyId, nonce);
            var result := OpenAs(key', file, verifier, place);
            if key' == key && verifier == signer.Public() && place == AssociatedData.FileContext(conv, senderKeyId)
            then result == Ok((name, data)) else OpenPayload(key', file, verifier, place).Err? && result.Err?
  {
    UnframeFrame(name, data);
    var home := AssociatedData.FileContext(conv, senderKeyId);
    PayloadOpensOnlyInPlace(key, Frame(name, data).value, signer, home, nonce, key', verifier, place);
  }

  /**
   A file shared in a group is bound to its epoch instead, in the way a text of that epoch is: it
   opens exactly with the epoch's key in the place of group content of that conversation, sender
   and epoch; nothing in the box tells file from text, so there its payload opens as a text too.
   */
  lemma GroupFileIsGroupContent(key: SymKey, name: Bytes, data: Bytes, signer: SigPrivate, conv: string,
                                senderKeyId: string, epoch: int, nonce: nat, key': SymKey, verifier: SigPublic,
                                place: AssociatedData.Context)
    requires |name| <= MAX_NAME
    requires AssociatedData.IsUuid(conv) && AssociatedData.IsUuid(senderKeyId) && AssociatedData.UuidShaped(place)
    ensures var frame := Frame(name, data).value;
            var file := SealGroupFile(key, frame, signer, conv, senderKeyId, epoch, nonce);
            var home := AssociatedData.GroupContext(conv, senderKeyId, epoch);
            var (payload, parts) := (OpenPayload(key', file, verifier, place), OpenAs(key', file, verifier, place));
            && (if key' == key && verifier == signer.Public() && place == home
                then payload == Ok(frame) && parts == Ok((name, data)) else payload.Err? && parts.Err?)
            && Decrypt(key, nonce, file.ciphertext, GroupEpochs.GroupAad(conv, senderKeyId, epoch)) == Some(frame)
  {
    UnframeFrame(name, data);
    var home := AssociatedData.GroupContext(conv, senderKeyId, epoch);
    PayloadOpensOnlyInPlace(key, Frame(name, data).value, signer, home, nonce, key', verifier, place);
  }
}
