/**
 Byte strings on the browser's wire: base64 through `btoa` and `atob`, which work on strings of
 characters below 256, one for each byte.
 */
module WireBytes {
  import opened Wrappers
  import Base64

  type Bytes = seq<Base64.Byte>

  /** The browser's own encoder and decoder; the decoder refuses text that is not base64. */
  datatype Browser = Browser(btoa: string -> string, atob: string -> Option<string>)

  predicate IsBinary(s: string) {
    forall c <- s :: c < 256 as char
  }

  /** Decoding undoes encoding, on binary strings. */
  ghost predicate Inverse(b: Browser) {
    forall s: string :: IsBinary(s) ==> b.atob(b.btoa(s)) == Some(s)
  }

  /** The bytes a binary string stands for; a byte array keeps the low eight bits of a character. */
  function CharCodes(s: string): Bytes {
    seq(|s|, i requires 0 <= i < |s| => (s[i] as int) % 256)
  }

  function Decoded(b: Browser, text: string): Option<Bytes> {
    match b.atob(text)
    case None => None
    case Some(s) => Some(CharCodes(s))
  }

  const CHUNK := 0x8000

  lemma TextKeepsBytes(bytes: Bytes)
    ensures IsBinary(Base64.Text(bytes)) && CharCodes(Base64.Text(bytes)) == bytes
  {
  }

  /** What comes out decodes to exactly the bytes that went in, whatever their number of chunks. */
  method BytesToBase64(b: Browser, bytes: Bytes) returns (text: string)
    ensures text == b.btoa(Base64.Text(bytes))
    ensures Inverse(b) ==> Decoded(b, text) == Some(bytes)
  {
    var binary := "";
    var i := 0;
    while i < |bytes|
      invariant binary == Base64.Text(bytes[..if i < |bytes| then i else |bytes|])
    {
      var end := if i + CHUNK < |bytes| then i + CHUNK else |bytes|;
      binary := binary + Base64.Text(bytes[i..end]);
      assert bytes[..end] == bytes[..i] + bytes[i..end];
      i := i + CHUNK;
    }
    assert bytes[..|bytes|] == bytes;
    TextKeepsBytes(bytes);
    text := b.btoa(binary);
  }

  method Base64ToBytes(b: Browser, text: string) returns (bytes: Option<array<Base64.Byte>>)
    ensures bytes.None? <==> Decoded(b, text).None?
    ensures bytes.Some? ==> fresh(bytes.value) && Decoded(b, text) == Some(bytes.value[..])
  {
    var decoded := b.atob(text);
    if decoded.None? {
      return None;
    }
    var binary := decoded.value;
    var out := new Base64.Byte[|binary|](_ => 0);
    for i := 0 to |binary|
      invariant out[..i] == CharCodes(binary)[..i]
    {
      out[i] := (binary[i] as int) % 256;
      assert out[..i + 1] == out[..i] + [out[i]];
    }
    assert CharCodes(binary)[..|binary|] == CharCodes(binary);
    assert out[..|binary|] == out[..];
    return Some(out);
  }
}
