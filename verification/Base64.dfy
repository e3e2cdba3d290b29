/**
 The URL-safe base64 of RFC 4648 section 5 as Python encodes it, and the forgiving decoder
 behind `urlsafe_b64decode`: it skips characters outside the alphabet and stops at padding.
 */
module Base64 {
  import opened Wrappers

  type Byte = n: nat | n < 256 witness 0

  function Alphabet(v: nat): (c: char)
    requires v < 64
  {
    if v < 26 then 'A' + (v as char)
    else if v < 52 then 'a' + ((v - 26) as char)
    else if v < 62 then '0' + ((v - 52) as char)
    else if v == 62 then '-' else '_'
  }

  /** The six bits a character stands for; the standard `+` and `/` are accepted too. */
  function ValueOf(c: char): (v: Option<nat>)
    ensures v.Some? ==> v.value < 64
  {
    if 'A' <= c <= 'Z' then Some((c - 'A') as nat)
    else if 'a' <= c <= 'z' then Some((c - 'a') as nat + 26)
    else if '0' <= c <= '9' then Some((c - '0') as nat + 52)
    else if c == '-' || c == '+' then Some(62)
    else if c == '_' || c == '/' then Some(63)
    else None
  }

  /** The text of one group of four, for three bytes. */
  function Group(a: Byte, b: Byte, c: Byte): string {
    [Alphabet(a / 4), Alphabet(a % 4 * 16 + b / 16), Alphabet(b % 16 * 4 + c / 64), Alphabet(c % 64)]
  }

  /** `urlsafe_b64encode`: whole groups, then a zero-filled partial one cut short and padded. */
  function EncodePadded(data: seq<Byte>): string {
    if data == [] then ""
    else if |data| == 1 then Group(data[0], 0, 0)[..2] + "=="
    else if |data| == 2 then Group(data[0], data[1], 0)[..3] + "="
    else Group(data[0], data[1], data[2]) + EncodePadded(data[3..])
  }

  /** `rstrip("=")`. */
  function StripPadding(s: string): string {
    if s != [] && s[|s| - 1] == '=' then StripPadding(s[..|s| - 1]) else s
  }

  /** The token encoding: URL-safe base64 without padding (RFC 7515, Appendix C). */
  function Encode(data: seq<Byte>): string {
    StripPadding(EncodePadded(data))
  }

  /**
   The decoder's scan: `pos` characters of the current group of four have been read, `left`
   are their bits not yet written out, `pads` the padding seen since the last of them.
   */
  function Scan(s: string, pos: nat, left: nat, pads: nat): Option<seq<Byte>>
    requires pos < 4 && left < [1, 64, 16, 4][pos]
  {
    if s == [] then (if pos == 0 then Some([]) else None)
    else if s[0] == '=' then
      if pos >= 2 && pos + pads + 1 >= 4 then Some([]) else Scan(s[1..], pos, left, if pos >= 2 then pads + 1 else pads)
    else match ValueOf(s[0])
      case None => Scan(s[1..], pos, left, pads)
      case Some(v) =>
        match pos
        case 0 => Scan(s[1..], 1, v, 0)
        case 1 => Prepend(left * 4 + v / 16, Scan(s[1..], 2, v % 16, 0))
        case 2 => Prepend(left * 16 + v / 4, Scan(s[1..], 3, v % 4, 0))
        case _ => Prepend(left * 64 + v, Scan(s[1..], 0, 0, 0))
  }

  function Prepend(b: Byte, rest: Option<seq<Byte>>): Option<seq<Byte>> {
    match rest
    case Some(bytes) => Some([b] + bytes)
    case None => None
  }

  predicate IsAscii(s: string) {
    forall c <- s :: c < 128 as char
  }

  /** `urlsafe_b64decode`: text outside ASCII is refused before the scan. */
  function UrlSafeDecode(s: string): Option<seq<Byte>> {
    if IsAscii(s) then Scan(s, 0, 0, 0) else None
  }

  function Padding(n: nat): string {
    seq((4 - n % 4) % 4, _ => '=')
  }

  /** The token decoding: padding restored to a multiple of four first. */
  function Decode(segment: string): Option<seq<Byte>> {
    UrlSafeDecode(segment + Padding(|segment|))
  }

  // ---- Round trips ----------------------------------------------------------------

  lemma AlphabetInvertible(v: nat)
    requires v < 64
    ensures ValueOf(Alphabet(v)) == Some(v) && Alphabet(v) != '=' && Alphabet(v) != '.' && Alphabet(v) < 128 as char
  {
  }

  /** The bit regrouping: three bytes cut into four sextets come back together. */
  lemma Regroup(a: Byte, b: Byte, c: Byte)
    ensures a / 4 < 64 && a % 4 * 16 + b / 16 < 64 && b % 16 * 4 + c / 64 < 64 && c % 64 < 64
    ensures a / 4 * 4 + (a % 4 * 16 + b / 16) / 16 == a
    ensures (a % 4 * 16 + b / 16) % 16 * 16 + (b % 16 * 4 + c / 64) / 4 == b
    ensures (b % 16 * 4 + c / 64) % 4 * 64 + c % 64 == c
  {
  }

  lemma ScanFour(s: string, v0: nat, v1: nat, v2: nat, v3: nat)
    requires |s| >= 4 && v0 < 64 && v1 < 64 && v2 < 64 && v3 < 64
    requires s[0] != '=' && s[1] != '=' && s[2] != '=' && s[3] != '='
    requires ValueOf(s[0]) == Some(v0) && ValueOf(s[1]) == Some(v1) && ValueOf(s[2]) == Some(v2)
             && ValueOf(s[3]) == Some(v3)
    ensures Scan(s, 0, 0, 0) ==
            Prepend(v0 * 4 + v1 / 16, Prepend(v1 % 16 * 16 + v2 / 4, Prepend(v2 % 4 * 64 + v3, Scan(s[4..], 0, 0, 0))))
  {
    var s1, s2, s3 := s[1..], s[2..], s[3..];
    assert s1[1..] == s2 && s2[1..] == s3 && s3[1..] == s[4..];
    assert Scan(s, 0, 0, 0) == Scan(s1, 1, v0, 0);
    assert Scan(s1, 1, v0, 0) == Prepend(v0 * 4 + v1 / 16, Scan(s2, 2, v1 % 16, 0));
    assert Scan(s2, 2, v1 % 16, 0) == Prepend(v1 % 16 * 16 + v2 / 4, Scan(s3, 3, v2 % 4, 0));
  }

  /** Two characters and two pads end the scan with one byte. */
  lemma ScanTwo(s: string, v0: nat, v1: nat)
    requires |s| == 4 && v0 < 64 && v1 < 64 && s[0] != '=' && s[1] != '=' && s[2] == '=' && s[3] == '='
    requires ValueOf(s[0]) == Some(v0) && ValueOf(s[1]) == Some(v1)
    ensures Scan(s, 0, 0, 0) == Some([v0 * 4 + v1 / 16])
  {
    var s1, s2, s3 := s[1..], s[2..], s[3..];
    assert s1[1..] == s2 && s2[1..] == s3;
    assert Scan(s, 0, 0, 0) == Scan(s1, 1, v0, 0);
    assert Scan(s1, 1, v0, 0) == Prepend(v0 * 4 + v1 / 16, Scan(s2, 2, v1 % 16, 0));
    assert Scan(s2, 2, v1 % 16, 0) == Scan(s3, 2, v1 % 16, 1) == Some([]);
    assert [v0 * 4 + v1 / 16] + [] == [v0 * 4 + v1 / 16];
  }

  /** Three characters and one pad end it with two. */
  lemma ScanThree(s: string, v0: nat, v1: nat, v2: nat)
    requires |s| == 4 && v0 < 64 && v1 < 64 && v2 < 64 && s[0] != '=' && s[1] != '=' && s[2] != '=' && s[3] == '='
    requires ValueOf(s[0]) == Some(v0) && ValueOf(s[1]) == Some(v1) && ValueOf(s[2]) == Some(v2)
    ensures Scan(s, 0, 0, 0) == Some([v0 * 4 + v1 / 16, v1 % 16 * 16 + v2 / 4])
  {
    var s1, s2, s3 := s[1..], s[2..], s[3..];
    assert s1[1..] == s2 && s2[1..] == s3;
    assert Scan(s, 0, 0, 0) == Scan(s1, 1, v0, 0);
    assert Scan(s1, 1, v0, 0) == Prepend(v0 * 4 + v1 / 16, Scan(s2, 2, v1 % 16, 0));
    assert Scan(s2, 2, v1 % 16, 0) == Prepend(v1 % 16 * 16 + v2 / 4, Scan(s3, 3, v2 % 4, 0));
    assert Scan(s3, 3, v2 % 4, 0) == Some([]);
    var x, y := v0 * 4 + v1 / 16, v1 % 16 * 16 + v2 / 4;
    assert [y] + [] == [y] && [x] + [y] == [x, y];
  }

  lemma GroupIsText(a: Byte, b: Byte, c: Byte)
    ensures var g := Group(a, b, c);
            && |g| == 4
            && ValueOf(g[0]) == Some(a / 4) && ValueOf(g[1]) == Some(a % 4 * 16 + b / 16)
            && ValueOf(g[2]) == Some(b % 16 * 4 + c / 64) && ValueOf(g[3]) == Some(c % 64)
            && forall i :: 0 <= i < 4 ==> g[i] != '=' && g[i] != '.' && g[i] < 128 as char
  {
    AlphabetInvertible(a / 4);
    AlphabetInvertible(a % 4 * 16 + b / 16);
    AlphabetInvertible(b % 16 * 4 + c / 64);
    AlphabetInvertible(c % 64);
  }

  lemma ScanGroup(a: Byte, b: Byte, c: Byte, rest: string)
    ensures Scan(Group(a, b, c) + rest, 0, 0, 0) == Prepend(a, Prepend(b, Prepend(c, Scan(rest, 0, 0, 0))))
  {
    Regroup(a, b, c);
    GroupIsText(a, b, c);
    var s := Group(a, b, c) + rest;
    assert s[4..] == rest;
    ScanFour(s, a / 4, a % 4 * 16 + b / 16, b % 16 * 4 + c / 64, c % 64);
  }

  lemma ScanTails(a: Byte, b: Byte)
    ensures Scan(Group(a, 0, 0)[..2] + "==", 0, 0, 0) == Some([a])
    ensures Scan(Group(a, b, 0)[..3] + "=", 0, 0, 0) == Some([a, b])
  {
    Regroup(a, 0, 0);
    GroupIsText(a, 0, 0);
    ScanTwo(Group(a, 0, 0)[..2] + "==", a / 4, a % 4 * 16);
    Regroup(a, b, 0);
    GroupIsText(a, b, 0);
    ScanThree(Group(a, b, 0)[..3] + "=", a / 4, a % 4 * 16 + b / 16, b % 16 * 4);
  }

  /** A padded encoding decodes to the bytes it came from. */
  lemma {:induction false} PaddedRoundTrip(data: seq<Byte>)
    ensures Scan(EncodePadded(data), 0, 0, 0) == Some(data)
  {
    if |data| == 1 {
      ScanTails(data[0], 0);
      assert data == [data[0]];
    } else if |data| == 2 {
      ScanTails(data[0], data[1]);
      assert data == [data[0], data[1]];
    } else if |data| >= 3 {
      PaddedRoundTrip(data[3..]);
      ScanGroup(data[0], data[1], data[2], EncodePadded(data[3..]));
      assert data == [data[0]] + ([data[1]] + ([data[2]] + data[3..]));
    }
  }

  /** Text with no padding sign, dot or non-ASCII character. */
  predicate IsBare(s: string) {
    forall c <- s :: c != '=' && c != '.' && c < 128 as char
  }

  lemma StripTail(bare: string)
    requires bare != [] && IsBare(bare)
    ensures StripPadding(bare + "==") == bare && StripPadding(bare + "=") == bare
  {
    assert bare[|bare| - 1] in bare;
    var one, two := bare + "=", bare + "==";
    assert two[..|two| - 1] == one && one[..|one| - 1] == bare;
    assert StripPadding(bare) == bare;
    assert StripPadding(one) == StripPadding(bare);
  }

  lemma BareJoin(a: string, b: string)
    requires IsBare(a) && IsBare(b)
    ensures IsBare(a + b)
  {
  }

  lemma GroupsAreBare(a: Byte, b: Byte, c: Byte)
    ensures IsBare(Group(a, b, c)) && IsBare(Group(a, b, c)[..2]) && IsBare(Group(a, b, c)[..3])
  {
    GroupIsText(a, b, c);
  }

  /** The unpadded text of an encoding, group by group. */
  function Bare(data: seq<Byte>): string {
    if data == [] then ""
    else if |data| == 1 then Group(data[0], 0, 0)[..2]
    else if |data| == 2 then Group(data[0], data[1], 0)[..3]
    else Group(data[0], data[1], data[2]) + Bare(data[3..])
  }

  lemma {:induction false} EncodeIsBare(data: seq<Byte>)
    ensures Encode(data) == Bare(data) && IsBare(Bare(data))
  {
    if |data| == 1 {
      GroupsAreBare(data[0], 0, 0);
      StripTail(Bare(data));
    } else if |data| == 2 {
      GroupsAreBare(data[0], data[1], 0);
      StripTail(Bare(data));
    } else if |data| >= 3 {
      var head := Group(data[0], data[1], data[2]);
      GroupsAreBare(data[0], data[1], data[2]);
      assert head[|head| - 1] in head;
      EncodeIsBare(data[3..]);
      StripAppend(head, EncodePadded(data[3..]));
      BareJoin(head, Bare(data[3..]));
    }
  }

  lemma SamePadding(n: nat)
    ensures Padding(4 + n) == Padding(n)
  {
  }

  /** Padding the unpadded text back to a multiple of four gives the padded encoding. */
  lemma {:induction false} BarePads(data: seq<Byte>)
    ensures Bare(data) + Padding(|Bare(data)|) == EncodePadded(data)
  {
    if |data| == 1 {
      assert Padding(2) == "==";
    } else if |data| == 2 {
      assert Padding(3) == "=";
    } else if |data| >= 3 {
      BarePads(data[3..]);
      SamePadding(|Bare(data[3..])|);
      var head, rest := Group(data[0], data[1], data[2]), Bare(data[3..]);
      assert head + rest + Padding(|rest|) == head + (rest + Padding(|rest|));
    }
  }

  /** An encoding is its unpadded text followed by the padding that restores its length. */
  lemma PaddingIsRestored(data: seq<Byte>)
    ensures Encode(data) + Padding(|Encode(data)|) == EncodePadded(data)
    ensures IsBare(Encode(data))
  {
    EncodeIsBare(data);
    BarePads(data);
  }

  lemma {:induction false} StripAppend(head: string, tail: string)
    requires head != [] && head[|head| - 1] != '='
    ensures StripPadding(head + tail) == head + StripPadding(tail)
  {
    if tail != [] && tail[|tail| - 1] == '=' {
      assert (head + tail)[..|head + tail| - 1] == head + tail[..|tail| - 1];
      StripAppend(head, tail[..|tail| - 1]);
    } else if tail == [] {
      assert head + tail == head;
    }
  }

  /** Every byte string survives the token encoding; its text is ASCII and holds no dot. */
  lemma RoundTrip(data: seq<Byte>)
    ensures Decode(Encode(data)) == Some(data)
    ensures '.' !in Encode(data) && IsAscii(Encode(data))
  {
    PaddingIsRestored(data);
    PaddedRoundTrip(data);
    assert IsAscii(EncodePadded(data)) by {
      assert forall c <- EncodePadded(data) :: c in Encode(data) || c in Padding(|Encode(data)|);
    }
  }

  /** Known answers: "foobar" and "foob" in section 10 of RFC 4648. */
  lemma KnownAnswers()
    ensures EncodePadded([102, 111, 111, 98, 97, 114]) == "Zm9vYmFy"
    ensures EncodePadded([102, 111, 111, 98]) == "Zm9vYg=="
  {
    assert Group(102, 111, 111) == "Zm9v" && Group(98, 97, 114) == "YmFy" && Group(98, 0, 0)[..2] == "Yg";
    EncodeStep(102, 111, 111, [98, 97, 114]);
    EncodeStep(102, 111, 111, [98]);
    EncodeStep(98, 97, 114, []);
    assert [102, 111, 111, 98, 97, 114] == [102, 111, 111] + [98, 97, 114];
  }

  /** The two characters of the URL-safe alphabet that the standard one does not have. */
  lemma UrlSafeAnswer()
    ensures EncodePadded([251, 255, 191]) == "-_-_"
  {
    assert Group(251, 255, 191) == "-_-_";
    EncodeStep(251, 255, 191, []);
  }

  lemma EncodeStep(a: Byte, b: Byte, c: Byte, rest: seq<Byte>)
    ensures EncodePadded([a, b, c] + rest) == Group(a, b, c) + EncodePadded(rest)
  {
    assert ([a, b, c] + rest)[3..] == rest;
  }

  // ---- ASCII text as bytes -------------------------------------------------------

  function AsciiCode(c: char): Byte
    requires c < 128 as char
  {
    c as nat
  }

  /** `text.encode("ascii")` of ASCII text. */
  function Ascii(s: string): (bytes: seq<Byte>)
    requires IsAscii(s)
  {
    seq(|s|, i requires 0 <= i < |s| => assert s[i] in s; AsciiCode(s[i]))
  }

  function Text(bytes: seq<Byte>): string {
    seq(|bytes|, i requires 0 <= i < |bytes| => bytes[i] as char)
  }

  lemma TextOfAscii(s: string)
    requires IsAscii(s)
    ensures Text(Ascii(s)) == s
  {
  }
}
