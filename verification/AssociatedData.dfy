/**
 The associated-data strings that bind a ciphertext to its place: 1:1 messages, shared
 files, and group messages of one epoch.
 */
module AssociatedData {
  import Decimal

  /** What an associated-data string stands for. */
  datatype Context =
    | MessageContext(conversationId: string, senderKeyId: string)
    | FileContext(conversationId: string, senderKeyId: string)
    | GroupContext(conversationId: string, senderKeyId: string, epoch: int)

  function Encode(c: Context): string {
    match c
    case MessageContext(conv, key) => conv + "|" + key
    case FileContext(conv, key) => conv + "|file|" + key
    case GroupContext(conv, key, epoch) => conv + "|" + key + "|" + Decimal.Print(epoch)
  }

  predicate IsHex(c: char) {
    '0' <= c <= '9' || 'a' <= c <= 'f'
  }

  /** The canonical 8-4-4-4-12 text of a UUID. */
  predicate IsUuid(s: string) {
    |s| == 36 &&
    forall i :: 0 <= i < 36 ==> if i in {8, 13, 18, 23} then s[i] == '-' else IsHex(s[i])
  }

  predicate UuidShaped(c: Context) {
    IsUuid(c.conversationId) && IsUuid(c.senderKeyId)
  }

  /** Splitting at the first bar is unambiguous when the left parts hold no bar. */
  lemma FirstBar(a: string, x: string, b: string, y: string)
    requires '|' !in a && '|' !in b
    requires a + "|" + x == b + "|" + y
    ensures a == b && x == y
  {
    var s, t := a + "|" + x, b + "|" + y;
    assert s[|a|] == '|' && t[|b|] == '|';
    assert forall i :: 0 <= i < |a| ==> s[i] == a[i] && a[i] in a;
    assert forall i :: 0 <= i < |b| ==> t[i] == b[i] && b[i] in b;
    assert |a| == |b|;
    assert s[..|a|] == a && t[..|b|] == b;
    assert s[|a| + 1..] == x && t[|b| + 1..] == y;
  }

  lemma UuidHasNoBar(s: string)
    requires IsUuid(s)
    ensures '|' !in s
  {
  }

  /** The part of an encoding after the conversation id and its bar. */
  function Tail(c: Context): string {
    match c
    case MessageContext(_, key) => key
    case FileContext(_, key) => "file|" + key
    case GroupContext(_, key, epoch) => key + "|" + Decimal.Print(epoch)
  }

  lemma EncodeSplits(c: Context)
    ensures Encode(c) == c.conversationId + "|" + Tail(c)
  {
  }

  /** Where the first bar of a tail stands tells a message from a file from a group message. */
  lemma TailBars(c: Context)
    requires UuidShaped(c)
    ensures c.MessageContext? <==> '|' !in Tail(c)
    ensures !c.MessageContext? ==>
      var head := if c.FileContext? then "file" else c.senderKeyId;
      '|' !in head && head < Tail(c) && Tail(c)[|head|] == '|' && Tail(c) == head + "|" + Tail(c)[|head| + 1..]
  {
  }

  /** The tails of the three kinds tell the kinds, the sender key and the epoch apart. */
  lemma TailInjective(x: Context, y: Context)
    requires UuidShaped(x) && UuidShaped(y) && x.conversationId == y.conversationId
    requires Tail(x) == Tail(y)
    ensures x == y
  {
    UuidHasNoBar(x.senderKeyId);
    UuidHasNoBar(y.senderKeyId);
    assert "file|" + x.senderKeyId == "file" + "|" + x.senderKeyId;
    assert "file|" + y.senderKeyId == "file" + "|" + y.senderKeyId;
    TailBars(x);
    TailBars(y);
    match x
    case MessageContext(_, _) =>
    case FileContext(_, key) =>
      FirstBar("file", key, if y.FileContext? then "file" else y.senderKeyId,
               Tail(y)[if y.FileContext? then 5 else 37..]);
    case GroupContext(_, key, epoch) =>
      FirstBar(key, Decimal.Print(epoch), if y.FileContext? then "file" else y.senderKeyId,
               Tail(y)[if y.FileContext? then 5 else 37..]);
      Decimal.PrintInjective(epoch, y.epoch);
  }

  /** Equal bytes mean the same kind, conversation, sender key and epoch. */
  lemma EncodeInjective(x: Context, y: Context)
    requires UuidShaped(x) && UuidShaped(y)
    requires Encode(x) == Encode(y)
    ensures x == y
  {
    EncodeSplits(x);
    EncodeSplits(y);
    UuidHasNoBar(x.conversationId);
    UuidHasNoBar(y.conversationId);
    FirstBar(x.conversationId, Tail(x), y.conversationId, Tail(y));
    TailInjective(x, y);
  }

  /**
   The UUID shape is what keeps the kinds apart: for ids that are merely free of bars, a
   file and a group message share their bytes exactly when the group's sender key is the
   word "file" and the file's sender key is the epoch's decimal text.
   */
  lemma FileGroupCollision(conv: string, key: string, conv': string, key': string, epoch: int)
    requires '|' !in conv && '|' !in conv' && '|' !in key && '|' !in key'
    ensures Encode(FileContext(conv, key)) == Encode(GroupContext(conv', key', epoch)) <==>
            conv == conv' && key' == "file" && key == Decimal.Print(epoch)
  {
    var x, y := FileContext(conv, key), GroupContext(conv', key', epoch);
    EncodeSplits(x);
    EncodeSplits(y);
    assert Tail(x) == "file" + "|" + key;
    if Encode(x) == Encode(y) {
      FirstBar(conv, Tail(x), conv', Tail(y));
      FirstBar("file", key, key', Decimal.Print(epoch));
    }
  }
}
