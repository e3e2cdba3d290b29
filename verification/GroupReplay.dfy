/**
 Reading a group conversation's log in the browser: absorbing key distributions, opening
 content, counting what this device has no key for, and choosing the next epoch to re-key to.
 */
module GroupReplay {
  import opened Wrappers
  import opened SymbolicCrypto
  import opened GroupEpochs
  import GroupKeyStore

  datatype Envelope = Envelope(
    kind: Option<string>, epoch: Option<int>, keyWraps: Option<map<string, EpochKeyWrap>>,
    nonce: nat, sig: Option<Signature<string>>)

  /** A stored message; `sentAt` is absent when its timestamp does not parse. */
  datatype Message = Message(
    id: string, senderId: string, senderKeyId: string, ciphertext: Box<string>,
    envelope: Envelope, sentAt: Option<int>)

  /** Who is reading which group: own membership start, own identity, resolvable signing keys. */
  datatype Reader = Reader(
    conv: string, joinedAt: Option<int>, identityKeyId: string, kemPrivate: KemPrivate,
    signingKeys: map<(string, string), SigPublic>)

  predicate IsFile(m: Message) {
    m.envelope.kind == Some("file")
  }

  function ParseKeyDistribution(m: Message): Option<Distribution> {
    if m.envelope.epoch.Some? && m.envelope.keyWraps.Some?
    then Some(Distribution(m.envelope.epoch.value, m.envelope.keyWraps.value))
    else None
  }

  predicate SentBeforeJoining(r: Reader, m: Message) {
    r.joinedAt.Some? && m.sentAt.Some? && m.sentAt.value < r.joinedAt.value
  }

  /** How opening one message ends; `NoKey` is the "no group key for epoch" failure. */
  datatype Outcome = Text(text: string) | Nothing | NoKey | Failed

  function OpenContent(st: GroupKeyStore.Storage, r: Reader, m: Message): Outcome {
    if m.envelope.epoch.None? then Failed
    else
      var epoch := m.envelope.epoch.value;
      match GroupKeyStore.GetKey(st, r.conv, epoch)
      case None => NoKey
      case Some(key) =>
        if (m.senderId, m.senderKeyId) !in r.signingKeys || m.envelope.sig.None? then Failed
        else
          match OpenGroupMessage(key, SealedGroupMessage(m.ciphertext, m.envelope.nonce, m.envelope.sig.value),
                                 r.signingKeys[(m.senderId, m.senderKeyId)], r.conv, m.senderKeyId, epoch)
          case Ok(text) => Text(text)
          case Err(_) => Failed
  }

  function Open(st: GroupKeyStore.Storage, r: Reader, m: Message): (Outcome, GroupKeyStore.Storage) {
    if IsFile(m) then (Nothing, st)
    else match ParseKeyDistribution(m)
      case Some(dist) =>
        (Nothing, match AcceptKeyDistribution(dist, r.identityKeyId, r.kemPrivate)
                  case Some(key) => GroupKeyStore.SetKey(st, r.conv, dist.epoch, key)
                  case None => st)
      case None => (OpenContent(st, r, m), st)
  }

  /** What a replay works on: stored keys, decrypted texts, failed messages, and the no-key count. */
  datatype State = State(storage: GroupKeyStore.Storage, cache: map<string, string>, errors: set<string>,
                         noKeyCount: nat)

  /** Where the outcome of opening message `id` is kept. */
  function Recorded(s: State, id: string, outcome: Outcome): State {
    match outcome
    case Text(text) => s.(cache := s.cache[id := text])
    case Nothing => s
    case NoKey => s.(noKeyCount := s.noKeyCount + 1)
    case Failed => s.(errors := s.errors + {id})
  }

  function ReplayOne(s: State, r: Reader, m: Message): State {
    if m.id in s.cache || SentBeforeJoining(r, m) then s
    else
      var (outcome, storage) := Open(s.storage, r, m);
      Recorded(s.(storage := storage), m.id, outcome)
  }

  /** The state after replaying `log` oldest-first. */
  function Replay(s: State, r: Reader, log: seq<Message>): State {
    if log == [] then s else ReplayOne(Replay(s, r, log[..|log| - 1]), r, log[|log| - 1])
  }

  /** The in-memory side caches of the messaging store, over the persistent key store. */
  class MessagingStore {
    const keys: GroupKeyStore.Store
    var decryptedCache: map<string, string>
    var decryptErrors: set<string>

    constructor (keys: GroupKeyStore.Store)
      ensures this.keys == keys && decryptedCache == map[] && decryptErrors == {}
    {
      this.keys := keys;
      decryptedCache := map[];
      decryptErrors := {};
    }

    ghost function Snapshot(noKeyCount: nat): State
      reads this, keys
    {
      State(keys.storage, decryptedCache, decryptErrors, noKeyCount)
    }

    method OpenIncoming(r: Reader, m: Message) returns (outcome: Outcome)
      modifies keys
      ensures (outcome, keys.storage) == Open(old(keys.storage), r, m)
    {
      if IsFile(m) {
        return Nothing;
      }
      var dist := ParseKeyDistribution(m);
      if dist.Some? {
        var key := AcceptKeyDistribution(dist.value, r.identityKeyId, r.kemPrivate);
        if key.Some? {
          keys.Put(r.conv, dist.value.epoch, key.value);
        }
        return Nothing;
      }
      return OpenContent(keys.storage, r, m);
    }

    method DecryptConversationLog(r: Reader, log: seq<Message>) returns (noKeyCount: nat)
      modifies this, keys
      ensures Snapshot(noKeyCount) == Replay(old(Snapshot(0)), r, log)
    {
      noKeyCount := 0;
      var i := 0;
      while i < |log|
        invariant i <= |log|
        invariant Snapshot(noKeyCount) == Replay(old(Snapshot(0)), r, log[..i])
      {
        var m := log[i];
        assert log[..i + 1][..i] == log[..i];
        i := i + 1;
        if m.id in decryptedCache {
          continue;
        }
        if SentBeforeJoining(r, m) {
          continue;
        }
        var outcome := OpenIncoming(r, m);
        match outcome {
          case Text(text) => decryptedCache := decryptedCache[m.id := text];
          case Nothing =>
          case NoKey => noKeyCount := noKeyCount + 1;
          case Failed => decryptErrors := decryptErrors + {m.id};
        }
      }
      assert log[..i] == log;
    }
  }

  // ---- Which messages a replay can read ----------------------------------------

  /** The six kinds of log entry, told apart without running the replay. */
  datatype Kind = BeforeJoining | FileShare | KeyRecord | Readable | Unreadable | Mistaken

  predicate IsText(m: Message) {
    !IsFile(m) && ParseKeyDistribution(m).None?
  }

  /** The key of `epoch` that entry `m` hands this reader, if it does. */
  function HandedKey(r: Reader, m: Message, epoch: int): Option<SymKey> {
    if SentBeforeJoining(r, m) || IsFile(m) then None
    else
      match ParseKeyDistribution(m)
      case None => None
      case Some(dist) =>
        if dist.epoch == epoch then AcceptKeyDistribution(dist, r.identityKeyId, r.kemPrivate) else None
  }

  predicate HandsKey(r: Reader, m: Message, epoch: int) {
    HandedKey(r, m, epoch).Some?
  }

  /** The key last stored or handed over for `epoch` when entry `n` has its turn. */
  function KeyByTurn(st: GroupKeyStore.Storage, r: Reader, log: seq<Message>, n: nat, epoch: int): Option<SymKey>
    requires n <= |log|
  {
    if n == 0 then GroupKeyStore.GetKey(st, r.conv, epoch)
    else if HandsKey(r, log[n - 1], epoch) then HandedKey(r, log[n - 1], epoch)
    else KeyByTurn(st, r, log, n - 1, epoch)
  }

  predicate DistinctIds(log: seq<Message>) {
    forall i, j :: 0 <= i < j < |log| ==> log[i].id != log[j].id
  }

  /** Content sealed by its author, under whatever key, for the epoch it names. */
  predicate SealedHonestly(r: Reader, m: Message) {
    && m.envelope.epoch.Some? && m.envelope.sig.Some? && (m.senderId, m.senderKeyId) in r.signingKeys
    && var signer := m.envelope.sig.value.signer;
       && signer.Public() == r.signingKeys[(m.senderId, m.senderKeyId)]
       && SealedGroupMessage(m.ciphertext, m.envelope.nonce, m.envelope.sig.value) ==
          SealGroupMessage(m.ciphertext.key, m.ciphertext.plaintext, signer, r.conv, m.senderKeyId,
                           m.envelope.epoch.value, m.envelope.nonce)
  }

  /** Distinct ids and honestly sealed content; an epoch number may carry any number of keys. */
  predicate SealedLog(r: Reader, log: seq<Message>) {
    DistinctIds(log) && forall m <- log :: IsText(m) ==> SealedHonestly(r, m)
  }

  function Classify(st: GroupKeyStore.Storage, r: Reader, log: seq<Message>, i: nat): Kind
    requires i < |log| && SealedLog(r, log)
  {
    var m := log[i];
    if SentBeforeJoining(r, m) then BeforeJoining
    else if IsFile(m) then FileShare
    else if ParseKeyDistribution(m).Some? then KeyRecord
    else
      assert m in log;
      match KeyByTurn(st, r, log, i, m.envelope.epoch.value)
      case None => Unreadable
      case Some(key) => if key == m.ciphertext.key then Readable else Mistaken
  }

  function Kinds(st: GroupKeyStore.Storage, r: Reader, log: seq<Message>): (kinds: seq<Kind>)
    requires SealedLog(r, log)
    ensures |kinds| == |log|
  {
    seq(|log|, i requires 0 <= i < |log| => Classify(st, r, log, i))
  }

  function Count(kinds: seq<Kind>, kind: Kind): nat {
    if kinds == [] then 0
    else Count(kinds[..|kinds| - 1], kind) + if kinds[|kinds| - 1] == kind then 1 else 0
  }

  /** The keys held after the first `n` entries are the ones last stored or handed over. */
  ghost predicate HoldsKeysByTurn(s: State, after: State, r: Reader, log: seq<Message>, n: nat)
    requires n <= |log|
  {
    forall e :: GroupKeyStore.GetKey(after.storage, r.conv, e) == KeyByTurn(s.storage, r, log, n, e)
  }

  /** Replaying one entry stores a key exactly when the entry hands this reader one. */
  lemma KeyAfterOne(s: State, r: Reader, m: Message, epoch: int)
    requires m.id !in s.cache
    ensures GroupKeyStore.GetKey(ReplayOne(s, r, m).storage, r.conv, epoch) ==
            if HandsKey(r, m, epoch) then HandedKey(r, m, epoch) else GroupKeyStore.GetKey(s.storage, r.conv, epoch)
  {
  }

  lemma KeysAfterOne(s: State, before: State, r: Reader, log: seq<Message>, n: nat)
    requires n < |log| && log[n].id !in before.cache
    requires HoldsKeysByTurn(s, before, r, log, n)
    ensures HoldsKeysByTurn(s, ReplayOne(before, r, log[n]), r, log, n + 1)
  {
    forall e ensures GroupKeyStore.GetKey(ReplayOne(before, r, log[n]).storage, r.conv, e) ==
                     KeyByTurn(s.storage, r, log, n + 1, e)
    {
      KeyAfterOne(before, r, log[n], e);
    }
  }

  predicate IsOf(log: seq<Message>, kinds: seq<Kind>, id: string, kind: Kind)
    requires |kinds| <= |log|
  {
    exists i :: 0 <= i < |kinds| && log[i].id == id && kinds[i] == kind
  }

  /** What has been read, counted and recorded as failed after the entries classified so far. */
  ghost predicate HasRead(s: State, after: State, log: seq<Message>, kinds: seq<Kind>)
    requires |kinds| <= |log|
  {
    && (forall id :: id in after.cache <==> IsOf(log, kinds, id, Readable))
    && (forall i :: 0 <= i < |kinds| && kinds[i] == Readable ==>
          log[i].id in after.cache && after.cache[log[i].id] == log[i].ciphertext.plaintext)
    && after.noKeyCount == Count(kinds, Unreadable)
    && (forall id :: id in after.errors <==> id in s.errors || IsOf(log, kinds, id, Mistaken))
  }

  /** What replaying one honestly sealed entry does to the texts, the failures and the count. */
  lemma HonestStep(before: State, r: Reader, m: Message)
    requires m.id !in before.cache
    requires IsText(m) ==> SealedHonestly(r, m)
    ensures var after := ReplayOne(before, r, m);
            if !IsText(m) || SentBeforeJoining(r, m) then
              after.cache == before.cache && after.noKeyCount == before.noKeyCount && after.errors == before.errors
            else
              match GroupKeyStore.GetKey(before.storage, r.conv, m.envelope.epoch.value)
              case None => after == before.(noKeyCount := before.noKeyCount + 1)
              case Some(key) =>
                after == if key == m.ciphertext.key then before.(cache := before.cache[m.id := m.ciphertext.plaintext])
                         else before.(errors := before.errors + {m.id})
  {
  }

  lemma IsOfOneMore(log: seq<Message>, kinds: seq<Kind>, id: string, kind: Kind)
    requires 0 < |kinds| <= |log|
    ensures var n := |kinds| - 1;
            IsOf(log, kinds, id, kind) <==> IsOf(log, kinds[..n], id, kind) || (log[n].id == id && kinds[n] == kind)
  {
    var n := |kinds| - 1;
    if i :| 0 <= i < n && log[i].id == id && kinds[..n][i] == kind {
      assert kinds[i] == kind;
    }
  }

  lemma ReadOneMore(s: State, before: State, after: State, log: seq<Message>, kinds: seq<Kind>)
    requires 0 < |kinds| <= |log| && DistinctIds(log)
    requires HasRead(s, before, log, kinds[..|kinds| - 1])
    requires var n := |kinds| - 1;
             && after.cache == (if kinds[n] == Readable
                                then before.cache[log[n].id := log[n].ciphertext.plaintext] else before.cache)
             && after.noKeyCount == before.noKeyCount + (if kinds[n] == Unreadable then 1 else 0)
             && after.errors == before.errors + if kinds[n] == Mistaken then {log[n].id} else {}
    ensures HasRead(s, after, log, kinds)
  {
    forall id, kind ensures var n := |kinds| - 1;
                            IsOf(log, kinds, id, kind) <==>
                            IsOf(log, kinds[..n], id, kind) || (log[n].id == id && kinds[n] == kind)
    {
      IsOfOneMore(log, kinds, id, kind);
    }
  }

  /** One more entry of an honestly sealed log is read as its kind says. */
  lemma ReadsNext(s: State, before: State, r: Reader, log: seq<Message>, n: nat)
    requires SealedLog(r, log) && n < |log|
    requires HasRead(s, before, log, Kinds(s.storage, r, log)[..n])
    requires HoldsKeysByTurn(s, before, r, log, n)
    ensures log[n].id !in before.cache
    ensures HasRead(s, ReplayOne(before, r, log[n]), log, Kinds(s.storage, r, log)[..n + 1])
  {
    var kinds, m := Kinds(s.storage, r, log), log[n];
    assert kinds[..n + 1][..n] == kinds[..n];
    assert m in log;
    HonestStep(before, r, m);
    ReadOneMore(s, before, ReplayOne(before, r, m), log, kinds[..n + 1]);
  }

  lemma {:induction false} ReplayPrefix(s: State, r: Reader, log: seq<Message>, n: nat)
    requires s.cache == map[] && s.noKeyCount == 0 && n <= |log|
    requires SealedLog(r, log)
    ensures HasRead(s, Replay(s, r, log[..n]), log, Kinds(s.storage, r, log)[..n])
    ensures HoldsKeysByTurn(s, Replay(s, r, log[..n]), r, log, n)
  {
    if n > 0 {
      ReplayPrefix(s, r, log, n - 1);
      assert log[..n][..n - 1] == log[..n - 1];
      var before := Replay(s, r, log[..n - 1]);
      ReadsNext(s, before, r, log, n - 1);
      KeysAfterOne(s, before, r, log, n - 1);
    }
  }

  /**
   What a replay of an honestly sealed log starting from an empty plaintext cache does, for
   every log, even one where an epoch number carries several keys: a post-join text is
   decrypted, to its own plaintext, exactly if the key last stored or handed over for its epoch
   by its turn is the one it was sealed under; it is counted exactly if there is none, and
   recorded as failed exactly if it is another; and afterwards the device holds for each epoch
   exactly the key last stored or handed over.
   */
  lemma {:induction false} ReplayReadsExactly(s: State, r: Reader, log: seq<Message>)
    requires s.cache == map[] && s.noKeyCount == 0
    requires SealedLog(r, log)
    ensures HasRead(s, Replay(s, r, log), log, Kinds(s.storage, r, log))
    ensures HoldsKeysByTurn(s, Replay(s, r, log), r, log, |log|)
  {
    ReplayPrefix(s, r, log, |log|);
    assert log[..|log|] == log;
    assert Kinds(s.storage, r, log)[..|log|] == Kinds(s.storage, r, log);
  }

  /** Every distribution stands before all content of its epoch. */
  predicate DistributionsComeFirst(log: seq<Message>) {
    forall a, b :: 0 <= a <= b < |log| && IsText(log[a]) && log[a].envelope.epoch == log[b].envelope.epoch ==>
                     ParseKeyDistribution(log[b]).None?
  }

  /** Where distributions come first, nothing changes the key of a text's epoch after its turn. */
  lemma {:induction false} InHandInTime(st: GroupKeyStore.Storage, r: Reader, log: seq<Message>, i: nat, n: nat)
    requires DistributionsComeFirst(log) && i <= n <= |log| && i < |log| && IsText(log[i])
             && log[i].envelope.epoch.Some?
    ensures KeyByTurn(st, r, log, n, log[i].envelope.epoch.value) ==
            KeyByTurn(st, r, log, i, log[i].envelope.epoch.value)
  {
    if i < n {
      InHandInTime(st, r, log, i, n - 1);
    }
  }

  /** One key per epoch: in the texts, in what is handed over, and in the store. */
  ghost predicate OneKeyPerEpoch(st: GroupKeyStore.Storage, r: Reader, log: seq<Message>, keyOf: int -> SymKey) {
    && (forall m <- log :: IsText(m) && m.envelope.epoch.Some? ==> m.ciphertext.key == keyOf(m.envelope.epoch.value))
    && (forall m <- log, e: int :: HandedKey(r, m, e) in {None, Some(keyOf(e))})
    && (forall e :: GroupKeyStore.GetKey(st, r.conv, e) in {None, Some(keyOf(e))})
  }

  lemma {:induction false} KeyInHandIff(st: GroupKeyStore.Storage, r: Reader, log: seq<Message>, n: nat, epoch: int,
                                        keyOf: int -> SymKey)
    requires OneKeyPerEpoch(st, r, log, keyOf) && n <= |log|
    ensures KeyByTurn(st, r, log, n, epoch) in {None, Some(keyOf(epoch))}
    ensures KeyByTurn(st, r, log, n, epoch).Some? <==>
            GroupKeyStore.GetKey(st, r.conv, epoch).Some? || exists j :: 0 <= j < n && HandsKey(r, log[j], epoch)
  {
    if n > 0 {
      assert log[n - 1] in log;
      KeyInHandIff(st, r, log, n - 1, epoch, keyOf);
    }
  }

  lemma IsOfItsOwn(log: seq<Message>, kinds: seq<Kind>, i: nat, kind: Kind)
    requires DistinctIds(log) && i < |kinds| <= |log|
    ensures IsOf(log, kinds, log[i].id, kind) <==> kinds[i] == kind
  {
  }

  /** Each entry is read exactly if its own kind is readable. */
  lemma ReadExactlyIfReadable(s: State, r: Reader, log: seq<Message>, i: nat)
    requires s.cache == map[] && s.noKeyCount == 0 && SealedLog(r, log) && i < |log|
    ensures log[i].id in Replay(s, r, log).cache <==> Classify(s.storage, r, log, i) == Readable
  {
    ReplayReadsExactly(s, r, log);
    IsOfItsOwn(log, Kinds(s.storage, r, log), i, Readable);
  }

  /** A text that is read had its own key in hand by its turn. */
  lemma ReadMeansKeyInHand(s: State, r: Reader, log: seq<Message>, i: nat)
    requires s.cache == map[] && s.noKeyCount == 0 && SealedLog(r, log) && i < |log|
    requires log[i].id in Replay(s, r, log).cache
    ensures IsText(log[i]) && log[i].envelope.epoch.Some?
    ensures KeyByTurn(s.storage, r, log, i, log[i].envelope.epoch.value) == Some(log[i].ciphertext.key)
  {
    assert log[i] in log;
    ReadExactlyIfReadable(s, r, log, i);
  }

  /**
   With distributions first and one key per epoch, a text is readable exactly if its key is stored
   or ever handed over.
   */
  lemma ReadableIffHanded(st: GroupKeyStore.Storage, r: Reader, log: seq<Message>, keyOf: int -> SymKey, i: nat)
    requires SealedLog(r, log) && OneKeyPerEpoch(st, r, log, keyOf) && DistributionsComeFirst(log)
    requires i < |log| && IsText(log[i]) && !SentBeforeJoining(r, log[i])
    ensures log[i].envelope.epoch.Some?
    ensures Classify(st, r, log, i) == Readable <==>
            || GroupKeyStore.GetKey(st, r.conv, log[i].envelope.epoch.value).Some?
            || exists m <- log :: HandsKey(r, m, log[i].envelope.epoch.value)
  {
    assert log[i] in log;
    var epoch := log[i].envelope.epoch.value;
    InHandInTime(st, r, log, i, |log|);
    KeyInHandIff(st, r, log, |log|, epoch, keyOf);
    assert (exists m <- log :: HandsKey(r, m, epoch)) <==> (exists j :: 0 <= j < |log| && HandsKey(r, log[j], epoch));
  }

  /**
   With one key per epoch, and each epoch's distribution placed before that epoch's content, a
   post-join text is readable exactly when its key was stored or some post-join distribution
   anywhere in the log wraps it for this device.
   */
  lemma {:induction false} PlacedDistributionsDecide(
    s: State, r: Reader, log: seq<Message>, keyOf: int -> SymKey, i: nat)
    requires s.cache == map[] && s.noKeyCount == 0 && SealedLog(r, log) && OneKeyPerEpoch(s.storage, r, log, keyOf)
    requires DistributionsComeFirst(log)
    requires i < |log|
    ensures IsText(log[i]) ==> log[i].envelope.epoch.Some?
    ensures log[i].id in Replay(s, r, log).cache <==>
            && IsText(log[i]) && !SentBeforeJoining(r, log[i])
            && (|| GroupKeyStore.GetKey(s.storage, r.conv, log[i].envelope.epoch.value).Some?
                || exists m <- log :: HandsKey(r, m, log[i].envelope.epoch.value))
  {
    ReadExactlyIfReadable(s, r, log, i);
    assert log[i] in log;
    if IsText(log[i]) && !SentBeforeJoining(r, log[i]) {
      ReadableIffHanded(s.storage, r, log, keyOf, i);
    }
  }

  // ---- Every text is accounted for ---------------------------------------------------

  /** The text messages of the log not sent before joining. */
  function PostJoinTexts(r: Reader, log: seq<Message>): nat {
    if log == [] then 0
    else
      var m := log[|log| - 1];
      PostJoinTexts(r, log[..|log| - 1]) + if IsText(m) && !SentBeforeJoining(r, m) then 1 else 0
  }

  /** A replay adds nothing to the texts and failures but ids of the log. */
  lemma {:induction false} OnlyLogIds(s: State, r: Reader, log: seq<Message>, id: string)
    requires forall m <- log :: m.id != id
    ensures id in Replay(s, r, log).cache <==> id in s.cache
    ensures id in Replay(s, r, log).errors <==> id in s.errors
  {
    if log != [] {
      OnlyLogIds(s, r, log[..|log| - 1], id);
      assert log[|log| - 1] in log;
    }
  }

  lemma OnlyTextsHaveOutcomes(st: GroupKeyStore.Storage, r: Reader, m: Message)
    ensures Open(st, r, m).0 == Nothing <==> !IsText(m)
  {
  }

  lemma RecordedOnce(s: State, id: string, outcome: Outcome)
    requires id !in s.cache && id !in s.errors
    ensures var after := Recorded(s, id, outcome);
            |after.cache| + after.noKeyCount + |after.errors| ==
            |s.cache| + s.noKeyCount + |s.errors| + if outcome == Nothing then 0 else 1
  {
  }

  /** One entry is one more text read, counted or failed if it is a post-join text, and none otherwise. */
  lemma OneEntryIsAccountedFor(s: State, r: Reader, m: Message)
    requires m.id !in s.cache && m.id !in s.errors
    ensures var after := ReplayOne(s, r, m);
            |after.cache| + after.noKeyCount + |after.errors| ==
            |s.cache| + s.noKeyCount + |s.errors| + if IsText(m) && !SentBeforeJoining(r, m) then 1 else 0
  {
    if !SentBeforeJoining(r, m) {
      var (outcome, storage) := Open(s.storage, r, m);
      OnlyTextsHaveOutcomes(s.storage, r, m);
      RecordedOnce(s.(storage := storage), m.id, outcome);
    }
  }

  /**
   Of any log whatever, honest or not: every post-join text not read before is either decrypted,
   counted as lacking its key, or recorded as failed, exactly one of them and exactly once; so
   the count returned is exactly what remains.
   */
  lemma {:induction false} EveryTextIsAccountedFor(s: State, r: Reader, log: seq<Message>)
    requires DistinctIds(log) && forall m <- log :: m.id !in s.cache && m.id !in s.errors
    ensures var after := Replay(s, r, log);
            |after.cache| + after.noKeyCount + |after.errors| ==
            |s.cache| + s.noKeyCount + |s.errors| + PostJoinTexts(r, log)
  {
    if log != [] {
      var init, m := log[..|log| - 1], log[|log| - 1];
      assert forall x <- init :: x in log;
      EveryTextIsAccountedFor(s, r, init);
      assert m in log;
      OnlyLogIds(s, r, init, m.id);
      OneEntryIsAccountedFor(Replay(s, r, init), r, m);
    }
  }

  // ---- File shares -------------------------------------------------------------------

  /** The log without the messages whose envelope is of kind "file". */
  function WithoutFiles(log: seq<Message>): seq<Message> {
    if log == [] then []
    else
      var m := log[|log| - 1];
      WithoutFiles(log[..|log| - 1]) + if m.envelope.kind == Some("file") then [] else [m]
  }

  /** File shares play no part in a replay, whatever epoch or wraps their envelopes name. */
  lemma {:induction false} FilesPlayNoPart(s: State, r: Reader, log: seq<Message>)
    ensures Replay(s, r, log) == Replay(s, r, WithoutFiles(log))
  {
    if log != [] {
      var init, m := log[..|log| - 1], log[|log| - 1];
      FilesPlayNoPart(s, r, init);
      if m.envelope.kind != Some("file") {
        var kept := WithoutFiles(init) + [m];
        assert kept[..|kept| - 1] == WithoutFiles(init);
      } else {
        assert WithoutFiles(log) == WithoutFiles(init);
      }
    }
  }

  /** Any other kind is as good as none. */
  lemma OtherKindsPlayNoPart(s: State, r: Reader, m: Message)
    requires m.envelope.kind != Some("file")
    ensures ReplayOne(s, r, m) == ReplayOne(s, r, m.(envelope := m.envelope.(kind := None)))
  {
  }

  // ---- Texts read before -----------------------------------------------------------------

  /** The log without the messages read before. */
  function WithoutRead(s: State, log: seq<Message>): seq<Message> {
    if log == [] then []
    else
      var m := log[|log| - 1];
      WithoutRead(s, log[..|log| - 1]) + if m.id in s.cache then [] else [m]
  }

  lemma {:induction false} ReadTextsStay(s: State, r: Reader, log: seq<Message>, id: string)
    requires id in s.cache
    ensures id in Replay(s, r, log).cache && Replay(s, r, log).cache[id] == s.cache[id]
  {
    if log != [] {
      ReadTextsStay(s, r, log[..|log| - 1], id);
    }
  }

  /** What has been read once is kept as it was, and is neither opened, counted nor failed again. */
  lemma {:induction false} ReadTextsPlayNoPart(s: State, r: Reader, log: seq<Message>)
    ensures Replay(s, r, log) == Replay(s, r, WithoutRead(s, log))
    ensures forall id <- s.cache :: id in Replay(s, r, log).cache && Replay(s, r, log).cache[id] == s.cache[id]
  {
    forall id | id in s.cache ensures id in Replay(s, r, log).cache && Replay(s, r, log).cache[id] == s.cache[id] {
      ReadTextsStay(s, r, log, id);
    }
    if log != [] {
      var init, m := log[..|log| - 1], log[|log| - 1];
      ReadTextsPlayNoPart(s, r, init);
      if m.id in s.cache {
        assert WithoutRead(s, log) == WithoutRead(s, init);
      } else {
        var kept := WithoutRead(s, init) + [m];
        assert kept[..|kept| - 1] == WithoutRead(s, init);
      }
    }
  }

  // ---- Choosing the epoch of a manual re-key ---------------------------------

  /** The messages a selected group shows: no distributions, nothing from before joining. */
  function Displayed(r: Reader, log: seq<Message>): seq<Message> {
    if log == [] then []
    else
      var m := log[|log| - 1];
      Displayed(r, log[..|log| - 1]) +
      if ParseKeyDistribution(m).Some? || SentBeforeJoining(r, m) then [] else [m]
  }

  lemma {:induction false} DisplayedAre(r: Reader, log: seq<Message>)
    ensures forall m :: m in Displayed(r, log) <==>
              m in log && ParseKeyDistribution(m).None? && !SentBeforeJoining(r, m)
  {
    if log != [] {
      DisplayedAre(r, log[..|log| - 1]);
      assert log == log[..|log| - 1] + [log[|log| - 1]];
    }
  }

  function StoredBase(st: GroupKeyStore.Storage, conv: string): int {
    match GroupKeyStore.GetCurrentEpoch(st, conv)
    case Some(current) => current
    case None => 0
  }

  /** `base` is the greatest of this device's epoch (0 without one) and the shown messages' epochs. */
  ghost predicate IsRekeyBase(st: GroupKeyStore.Storage, conv: string, shown: seq<Message>, base: int) {
    && StoredBase(st, conv) <= base
    && (forall m <- shown :: m.envelope.epoch.Some? ==> m.envelope.epoch.value <= base)
    && (base == StoredBase(st, conv) || exists m <- shown :: m.envelope.epoch == Some(base))
  }

  method RekeyBaseEpoch(keys: GroupKeyStore.Store, conv: string, shown: seq<Message>) returns (base: int)
    ensures IsRekeyBase(keys.storage, conv, shown, base)
  {
    base := StoredBase(keys.storage, conv);
    for i := 0 to |shown|
      invariant IsRekeyBase(keys.storage, conv, shown[..i], base)
    {
      var epoch := shown[i].envelope.epoch;
      assert shown[i] in shown[..i + 1];
      assert forall m <- shown[..i] :: m in shown[..i + 1];
      if epoch.Some? && epoch.value > base {
        base := epoch.value;
      }
    }
    assert shown[..|shown|] == shown;
  }

  /** The epoch a re-key creates is above every epoch stored here and every epoch shown. */
  lemma RekeyEpochIsNew(ops: seq<GroupKeyStore.Op>, r: Reader, log: seq<Message>, base: int)
    requires GroupKeyStore.PositiveEpochs(ops)
    requires IsRekeyBase(GroupKeyStore.Run(ops), r.conv, Displayed(r, log), base)
    ensures forall e <- GroupKeyStore.StoredEpochs(GroupKeyStore.Run(ops), r.conv) :: e < base + 1
    ensures forall m <- log :: ParseKeyDistribution(m).None? && !SentBeforeJoining(r, m) && m.envelope.epoch.Some? ==>
              m.envelope.epoch.value < base + 1
  {
    GroupKeyStore.RunKeepsMarker(ops, r.conv);
    DisplayedAre(r, log);
  }

  predicate HandsSomeKey(r: Reader, m: Message) {
    m.envelope.epoch.Some? && HandsKey(r, m, m.envelope.epoch.value)
  }

  /** Neither shown to this device nor handing it a key: from before joining, or a distribution it cannot open. */
  predicate Missed(r: Reader, m: Message) {
    SentBeforeJoining(r, m) || (ParseKeyDistribution(m).Some? && !HandsSomeKey(r, m))
  }

  /** No distribution counts as a text read before; none ever does, having no text. */
  predicate DistributionsUnread(s: State, log: seq<Message>) {
    forall m <- log :: ParseKeyDistribution(m).Some? ==> m.id !in s.cache
  }

  lemma MarkerAfterOne(s: State, r: Reader, m: Message)
    requires ParseKeyDistribution(m).Some? ==> m.id !in s.cache
    ensures var before, after := GroupKeyStore.GetCurrentEpoch(s.storage, r.conv),
                                 GroupKeyStore.GetCurrentEpoch(ReplayOne(s, r, m).storage, r.conv);
            after == if HandsSomeKey(r, m) && (before.None? || m.envelope.epoch.value > before.value)
            then m.envelope.epoch else before
  {
  }

  /** A replay leaves the marker at the greatest of what it was and the epochs handed over. */
  lemma {:induction false} MarkerAfterReplay(s: State, r: Reader, log: seq<Message>)
    requires DistinctIds(log) && DistributionsUnread(s, log)
    ensures var before, after := GroupKeyStore.GetCurrentEpoch(s.storage, r.conv),
                                 GroupKeyStore.GetCurrentEpoch(Replay(s, r, log).storage, r.conv);
            && (after.None? <==> before.None? && forall m <- log :: !HandsSomeKey(r, m))
            && (after.Some? ==>
                  && (after == before || exists m <- log :: HandsSomeKey(r, m) && m.envelope.epoch == after)
                  && (before.Some? ==> before.value <= after.value)
                  && forall m <- log :: HandsSomeKey(r, m) ==> m.envelope.epoch.value <= after.value)
  {
    if log != [] {
      var init, m := log[..|log| - 1], log[|log| - 1];
      assert log == init + [m];
      MarkerAfterReplay(s, r, init);
      OnlyLogIds(s, r, init, m.id);
      MarkerAfterOne(Replay(s, r, init), r, m);
    }
  }

  /** What keeps `epoch` from being reached again: the marker, or an entry seen, at that epoch or above. */
  predicate Covered(s: State, r: Reader, log: seq<Message>, epoch: int) {
    var marker := GroupKeyStore.GetCurrentEpoch(s.storage, r.conv);
    || (exists seen <- log :: !Missed(r, seen) && seen.envelope.epoch.Some? && epoch <= seen.envelope.epoch.value)
    || (if marker.Some? then epoch <= marker.value else epoch <= 0 && forall m <- log :: !HandsSomeKey(r, m))
  }

  /** After a replay, the base of a re-key reaches exactly the covered epochs. */
  lemma BaseReachesCovered(s: State, r: Reader, log: seq<Message>, base: int, epoch: int)
    requires DistinctIds(log) && DistributionsUnread(s, log)
    requires IsRekeyBase(Replay(s, r, log).storage, r.conv, Displayed(r, log), base)
    ensures epoch <= base <==> Covered(s, r, log, epoch)
  {
    MarkerAfterReplay(s, r, log);
    DisplayedAre(r, log);
  }

  /**
   The documented promise is more: an epoch strictly above any in the group's history. The server
   holds what this device has downloaded, `log`, and a rest it has not, `unseen`. A re-key after a
   replay of `log` keeps the promise over both exactly if every entry the device missed, that is
   every pre-join entry, every distribution not wrapped for it and every entry not downloaded, is
   covered by the marker it started from or by an entry it saw.
   */
  lemma RekeyEpochAboveHistoryIff(s: State, r: Reader, log: seq<Message>, unseen: seq<Message>, base: int)
    requires DistinctIds(log) && DistributionsUnread(s, log)
    requires IsRekeyBase(Replay(s, r, log).storage, r.conv, Displayed(r, log), base)
    ensures (forall m <- log + unseen :: m.envelope.epoch.Some? ==> m.envelope.epoch.value < base + 1) <==>
            (forall m <- log + unseen :: (Missed(r, m) || m in unseen) && m.envelope.epoch.Some? ==>
                                          Covered(s, r, log, m.envelope.epoch.value))
  {
    forall m | m in log + unseen && m.envelope.epoch.Some?
      ensures m.envelope.epoch.value < base + 1 <==> Covered(s, r, log, m.envelope.epoch.value)
    {
      BaseReachesCovered(s, r, log, base, m.envelope.epoch.value);
    }
  }

  /** A distribution of epoch 1 that is not wrapped for this device, nor for any. */
  function ForeignDistribution(): Message {
    Message("m", "u", "k", Box(RandomKey(0), 0, "", ""), Envelope(None, Some(1), Some(map[]), 0, None), None)
  }

  /**
   Two instances, each of a device that holds no key and re-keys to epoch 1 while a distribution of
   epoch 1 exists: it has downloaded it but is not addressed, or it has downloaded nothing yet, as
   when two devices re-key at once.
   */
  lemma RekeyMayReuseAnEpoch(r: Reader)
    ensures var s, m := State(map[], map[], {}, 0), ForeignDistribution();
            && ParseKeyDistribution(m).Some? && m.envelope.epoch == Some(1)
            && IsRekeyBase(Replay(s, r, [m]).storage, r.conv, Displayed(r, [m]), 0)
            && Missed(r, m) && !Covered(s, r, [m], 1)
            && IsRekeyBase(Replay(s, r, []).storage, r.conv, Displayed(r, []), 0)
            && !Covered(s, r, [], 1)
  {
    var s, m := State(map[], map[], {}, 0), ForeignDistribution();
    DisplayedAre(r, [m]);
    MarkerAfterReplay(s, r, [m]);
    MarkerAfterReplay(s, r, []);
  }
}
