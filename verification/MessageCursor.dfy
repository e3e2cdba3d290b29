/** The text of a pagination cursor: base64 of the timestamp, a bar, and the message id. */
module MessageCursor {
  import opened Wrappers
  import opened Base64

  /** ISO timestamp and UUID text, and reading them back; the printed forms are ASCII. */
  datatype Printers = Printers(
    isoformat: int -> string, fromisoformat: string -> Option<int>,
    uuid: nat -> string, fromUuid: string -> Option<nat>)

  ghost predicate Invertible(p: Printers) {
    && (forall t: int ::
          IsAscii(p.isoformat(t)) && '|' !in p.isoformat(t) && p.fromisoformat(p.isoformat(t)) == Some(t))
    && (forall id: nat :: IsAscii(p.uuid(id)) && p.fromUuid(p.uuid(id)) == Some(id))
  }

  ghost function EncodeCursor(p: Printers, sentAt: int, id: nat): string
    requires Invertible(p)
  {
    EncodePadded(Ascii(p.isoformat(sentAt) + "|" + p.uuid(id)))
  }

  /** `raw.partition("|")`: what stands before and after the first bar. */
  function Partition(s: string): (string, string) {
    if s == [] then ([], [])
    else if s[0] == '|' then ([], s[1..])
    else var (before, after) := Partition(s[1..]); ([s[0]] + before, after)
  }

  /** The cursor's bytes go to the decoder as they are: characters outside the alphabet are skipped, ASCII or not. */
  function DecodeCursor(p: Printers, cursor: string): Option<(int, nat)> {
    match Scan(cursor, 0, 0, 0)
    case None => None
    case Some(bytes) =>
      var (sentAt, id) := Partition(Text(bytes));
      if p.fromisoformat(sentAt).Some? && p.fromUuid(id).Some?
      then Some((p.fromisoformat(sentAt).value, p.fromUuid(id).value)) else None
  }

  lemma {:induction false} PartitionAtBar(a: string, b: string)
    requires '|' !in a
    ensures Partition(a + "|" + b) == (a, b)
  {
    var s := a + "|" + b;
    if a == [] {
      assert s[0] == '|' && s[1..] == b;
    } else {
      PartitionAtBar(a[1..], b);
      assert s[0] == a[0] && s[1..] == a[1..] + "|" + b;
      assert a == [a[0]] + a[1..];
    }
  }

  /** A cursor handed back by the client names the very position it was made from. */
  lemma CursorRoundTrip(p: Printers, sentAt: int, id: nat)
    requires Invertible(p)
    ensures DecodeCursor(p, EncodeCursor(p, sentAt, id)) == Some((sentAt, id))
  {
    var raw := p.isoformat(sentAt) + "|" + p.uuid(id);
    PaddedRoundTrip(Ascii(raw));
    TextOfAscii(raw);
    PartitionAtBar(p.isoformat(sentAt), p.uuid(id));
  }
}
