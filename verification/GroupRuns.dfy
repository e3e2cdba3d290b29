/**
 Replays inside runs of the group protocol: the log any run leaves on the server, read back by
 any client of that run.
 */
module GroupRuns {
  import opened Wrappers
  import opened SymbolicCrypto
  import Decimal
  import GroupKeyStore
  import Protocol = GroupProtocol
  import Replay = GroupReplay

  // ---- A run's log as its clients download it ------------------------------------------

  function OwnerText(s: Protocol.State, keyId: string): string {
    if keyId in s.directory then Decimal.Digits(s.directory[keyId].owner) else ""
  }

  /** Entry `i` as a stored message; `sentAt` gives the server's timestamps. */
  function Stored(s: Protocol.State, i: nat, sentAt: nat -> Option<int>): Replay.Message
    requires i < |s.log|
  {
    var rec := s.log[i];
    var (epoch, keyWraps) := if rec.KeyRecord? then (rec.dist.epoch, Some(rec.dist.keyWraps)) else (rec.epoch, None);
    Replay.Message(Decimal.Digits(i), OwnerText(s, rec.senderKeyId), rec.senderKeyId, rec.message.ciphertext,
                   Replay.Envelope(None, Some(epoch), keyWraps, rec.message.nonce, Some(rec.message.signature)),
                   sentAt(i))
  }

  function LogOf(s: Protocol.State, n: nat, sentAt: nat -> Option<int>): (log: seq<Replay.Message>)
    requires n <= |s.log|
    ensures |log| == n && forall i :: 0 <= i < n ==> log[i] == Stored(s, i, sentAt)
  {
    seq(n, i requires 0 <= i < n => Stored(s, i, sentAt))
  }

  /** Client `c` as a reader: its current identity, and every published signing key. */
  function ReaderOf(s: Protocol.State, c: Protocol.ClientId, joinedAt: Option<int>): Replay.Reader
    requires c in s.clients && s.clients[c].identity.Some?
  {
    var id := s.clients[c].identity.value;
    Replay.Reader(s.conv, joinedAt, id.keyId, id.kem,
                  map keyId | keyId in s.directory :: (OwnerText(s, keyId), keyId) := s.directory[keyId].signing)
  }

  /** A client about to replay with the keys it has stored and nothing read yet. */
  function Start(s: Protocol.State, c: Protocol.ClientId): Replay.State
    requires c in s.clients
  {
    Replay.State(s.clients[c].storage, map[], {}, 0)
  }

  ghost predicate Reachable(states: seq<Protocol.State>, actions: seq<Protocol.Action>, n: nat, c: Protocol.ClientId,
                            k: nat) {
    && Protocol.IsRun(states, actions) && Protocol.Initial(states[0]) && n < |states|
    && c in states[n].clients && states[n].clients[c].identity.Some? && k <= |states[n].log|
  }

  // ---- Every reachable log is honestly sealed ----------------------------------------------

  lemma LogHasDistinctIds(s: Protocol.State, k: nat, sentAt: nat -> Option<int>)
    requires k <= |s.log|
    ensures Replay.DistinctIds(LogOf(s, k, sentAt))
  {
    var log := LogOf(s, k, sentAt);
    forall i, j | 0 <= i < j < k ensures log[i].id != log[j].id {
      if log[i].id == log[j].id {
        Decimal.DigitsInjective(i, j);
      }
    }
  }

  /**
   In every run, for every client: the log is one the replay theorem speaks of. Ids are
   distinct, every text was sealed by the owner of the key it names, and that key resolves.
   */
  lemma RunLogIsSealed(states: seq<Protocol.State>, actions: seq<Protocol.Action>, n: nat, c: Protocol.ClientId, k: nat,
                       joinedAt: Option<int>, sentAt: nat -> Option<int>)
    requires Reachable(states, actions, n, c, k)
    ensures Replay.SealedLog(ReaderOf(states[n], c, joinedAt), LogOf(states[n], k, sentAt))
  {
    Protocol.RunKeepsInv(states, actions, n);
    var s := states[n];
    var r, log := ReaderOf(s, c, joinedAt), LogOf(s, k, sentAt);
    LogHasDistinctIds(s, k, sentAt);
    forall m | m in log && Replay.IsText(m) ensures Replay.SealedHonestly(r, m) {
      var i :| 0 <= i < k && log[i] == m;
      assert s.log[i] in s.log && Protocol.WellBuilt(s, s.log[i]);
      assert (OwnerText(s, m.senderKeyId), m.senderKeyId) in r.signingKeys;
    }
  }

  /** A key an entry hands a client is one its user was addressed with. */
  lemma HandedKeyIsEntitled(s: Protocol.State, c: Protocol.ClientId, joinedAt: Option<int>, sentAt: nat -> Option<int>,
                            j: nat, epoch: int)
    requires Protocol.Inv(s) && c in s.clients && s.clients[c].identity.Some? && j < |s.log|
    ensures var key := Replay.HandedKey(ReaderOf(s, c, joinedAt), Stored(s, j, sentAt), epoch);
            key.Some? ==> Protocol.Entitled(s, c, epoch, key.value)
  {
    var rec := s.log[j];
    assert rec in s.log && Protocol.WellBuilt(s, rec) && Protocol.ClientHolds(s, c);
    if rec.KeyRecord? {
      Protocol.AbsorbedKeyIsEntitled(s, c, rec);
    }
  }

  /** Whatever key a client has for an epoch when an entry has its turn, it created or was addressed with. */
  lemma {:induction false} KeyByTurnIsEntitled(
    s: Protocol.State, c: Protocol.ClientId, k: nat, joinedAt: Option<int>, sentAt: nat -> Option<int>, i: nat,
    epoch: int)
    requires Protocol.Inv(s) && c in s.clients && s.clients[c].identity.Some? && i <= k <= |s.log|
    ensures var key := Replay.KeyByTurn(s.clients[c].storage, ReaderOf(s, c, joinedAt), LogOf(s, k, sentAt), i, epoch);
            key.Some? ==> Protocol.Entitled(s, c, epoch, key.value)
  {
    if i == 0 {
      assert Protocol.ClientHolds(s, c) && Protocol.StoreHolds(s, c);
    } else {
      KeyByTurnIsEntitled(s, c, k, joinedAt, sentAt, i - 1, epoch);
      HandedKeyIsEntitled(s, c, joinedAt, sentAt, i - 1, epoch);
    }
  }

  /** What client `c` makes of the first `k` entries. */
  function Replayed(s: Protocol.State, c: Protocol.ClientId, k: nat, joinedAt: Option<int>,
                    sentAt: nat -> Option<int>): Replay.State
    requires c in s.clients && s.clients[c].identity.Some? && k <= |s.log|
  {
    Replay.Replay(Start(s, c), ReaderOf(s, c, joinedAt), LogOf(s, k, sentAt))
  }

  /**
   The replay theorem, for every run and every client of it: each text is read, counted or
   recorded as failed as its kind says, and afterwards the keys are those last handed over.
   */
  lemma RunReplayReadsExactly(states: seq<Protocol.State>, actions: seq<Protocol.Action>, n: nat, c: Protocol.ClientId,
                              k: nat, joinedAt: Option<int>, sentAt: nat -> Option<int>)
    requires Reachable(states, actions, n, c, k)
    ensures var s := states[n];
            var r, log := ReaderOf(s, c, joinedAt), LogOf(s, k, sentAt);
            && Replay.SealedLog(r, log)
            && Replay.HasRead(Start(s, c), Replayed(s, c, k, joinedAt, sentAt), log,
                              Replay.Kinds(s.clients[c].storage, r, log))
            && Replay.HoldsKeysByTurn(Start(s, c), Replayed(s, c, k, joinedAt, sentAt), r, log, k)
  {
    RunLogIsSealed(states, actions, n, c, k, joinedAt, sentAt);
    Replay.ReplayReadsExactly(Start(states[n], c), ReaderOf(states[n], c, joinedAt), LogOf(states[n], k, sentAt));
  }

  /** Files shared in between change nothing: what remains of the log decides. */
  lemma ReplayedAmongFiles(s: Protocol.State, c: Protocol.ClientId, k: nat, joinedAt: Option<int>,
                           sentAt: nat -> Option<int>, log: seq<Replay.Message>)
    requires c in s.clients && s.clients[c].identity.Some? && k <= |s.log|
    requires Replay.WithoutFiles(log) == LogOf(s, k, sentAt)
    ensures Replay.Replay(Start(s, c), ReaderOf(s, c, joinedAt), log) == Replayed(s, c, k, joinedAt, sentAt)
  {
    Replay.FilesPlayNoPart(Start(s, c), ReaderOf(s, c, joinedAt), log);
  }

  // ---- What a replay can never read ----------------------------------------------------------

  /** A text read back is sealed under a key the reader had by its turn. */
  lemma ReadTextIsEntitled(states: seq<Protocol.State>, actions: seq<Protocol.Action>, n: nat, c: Protocol.ClientId,
                           k: nat, joinedAt: Option<int>, sentAt: nat -> Option<int>, i: nat)
    requires Reachable(states, actions, n, c, k) && i < k
    requires Stored(states[n], i, sentAt).id in Replayed(states[n], c, k, joinedAt, sentAt).cache
    ensures var rec := states[n].log[i];
            rec.Content? && Protocol.Entitled(states[n], c, rec.epoch, rec.message.ciphertext.key)
  {
    Protocol.RunKeepsInv(states, actions, n);
    RunLogIsSealed(states, actions, n, c, k, joinedAt, sentAt);
    var s := states[n];
    var r, log := ReaderOf(s, c, joinedAt), LogOf(s, k, sentAt);
    assert log[i] == Stored(s, i, sentAt);
    Replay.ReadMeansKeyInHand(Start(s, c), r, log, i);
    KeyByTurnIsEntitled(s, c, k, joinedAt, sentAt, i, log[i].envelope.epoch.value);
  }

  /**
   In every run, a text a client reads back is sealed under a key it created, or one wrapped for
   its user when the user was an active member on the list the key was distributed from.
   */
  lemma ReadsOnlyWhatItWasGiven(states: seq<Protocol.State>, actions: seq<Protocol.Action>, n: nat,
                                c: Protocol.ClientId, k: nat, joinedAt: Option<int>, sentAt: nat -> Option<int>, i: nat)
    requires Reachable(states, actions, n, c, k) && i < k
    requires Stored(states[n], i, sentAt).id in Replayed(states[n], c, k, joinedAt, sentAt).cache
    ensures var s := states[n];
            var key := s.log[i].message.ciphertext.key;
            && s.log[i].Content? && key.RandomKey? && key.draw in s.origins
            && var origin := s.origins[key.draw];
               origin.creator == c ||
               (s.clients[c].user in origin.addressed && origin.list.fetchedAt < |s.history| &&
                s.clients[c].user in s.history[origin.list.fetchedAt])
  {
    Protocol.RunKeepsInv(states, actions, n);
    ReadTextIsEntitled(states, actions, n, c, k, joinedAt, sentAt, i);
    var s := states[n];
    assert Protocol.OriginHolds(s, s.origins[s.log[i].message.ciphertext.key.draw]);
  }

  /**
   So a user out of the group over a stretch of a run never reads back, on any browser, then or
   after rejoining, a text under a key someone else distributed from a list fetched in that
   stretch, however the log is ordered and whatever else it holds.
   */
  lemma RemovedMemberReadsNothingOfTheGap(states: seq<Protocol.State>, actions: seq<Protocol.Action>, removed: nat,
                                          back: nat, n: nat, c: Protocol.ClientId, k: nat, joinedAt: Option<int>,
                                          sentAt: nat -> Option<int>, i: nat, draw: nat)
    requires Reachable(states, actions, n, c, k) && removed <= back <= n && i < k
    requires states[n].log[i].message.ciphertext.key == RandomKey(draw)
    requires draw in states[n].origins && states[n].origins[draw].creator != c
    requires states[n].clients[c].user !in states[removed].active
    requires forall j :: removed <= j < back ==> !Protocol.Admits(actions[j], states[n].clients[c].user)
    requires |states[removed].history| - 1 <= states[n].origins[draw].list.fetchedAt < |states[back].history|
    ensures Stored(states[n], i, sentAt).id !in Replayed(states[n], c, k, joinedAt, sentAt).cache
  {
    Protocol.RunKeepsInv(states, actions, removed);
    Protocol.StaysOut(states, actions, removed, back, states[n].clients[c].user);
    Protocol.RunGrows(states, actions, back, n);
    var fetchedAt := states[n].origins[draw].list.fetchedAt;
    assert states[n].history[fetchedAt] == states[back].history[fetchedAt];
    if Stored(states[n], i, sentAt).id in Replayed(states[n], c, k, joinedAt, sentAt).cache {
      ReadsOnlyWhatItWasGiven(states, actions, n, c, k, joinedAt, sentAt, i);
    }
  }

  /**
   The promise of re-keying, from key to plaintext. A client distributes a new key, of an epoch
   above its marker, from a list that leaves out `u`; until it forgets the conversation or gets
   another key of that epoch or above, no text it composes is ever read back by a client of `u`,
   at any later point, on any browser, re-admitted or not.
   */
  lemma TextsAfterRekeyStayClosed(states: seq<Protocol.State>, actions: seq<Protocol.Action>, k: nat, n: nat, m: nat,
                                  reader: Protocol.ClientId, entries: nat, joinedAt: Option<int>,
                                  sentAt: nat -> Option<int>, i: nat)
    requires Reachable(states, actions, m, reader, entries) && k < n < m && i < entries
    requires actions[k].Distribute? && actions[k].c in states[k].clients && actions[k].c != reader
    requires forall e :: Protocol.MarkerIs(states[k], actions[k].c, e) ==> e < actions[k].previousEpoch + 1
    requires states[m].clients[reader].user !in actions[k].list.users
    requires forall j :: k < j < n ==> !Protocol.Disturbs(states[j], actions[j], actions[k].c,
             actions[k].previousEpoch + 1)
    requires actions[n].Compose? && actions[n].c == actions[k].c
    requires actions[k].c in states[n].clients && actions[k].c in states[n + 1].clients
    requires states[m].log[i] in states[n + 1].clients[actions[k].c].outbox - states[n].clients[actions[k].c].outbox
    ensures Stored(states[m], i, sentAt).id !in Replayed(states[m], reader, entries, joinedAt, sentAt).cache
  {
    var draw := actions[k].draw;
    ComposedUnderNewKey(states, actions, k, n, states[m].log[i]);
    DistributionSendsUnder(states, actions, k);
    Protocol.RunGrows(states, actions, k + 1, m);
    OutsiderReadsNothing(states, actions, m, reader, entries, joinedAt, sentAt, i, draw);
  }

  /** What a client composes after distributing above its marker, undisturbed, is sealed under the distributed key. */
  lemma ComposedUnderNewKey(states: seq<Protocol.State>, actions: seq<Protocol.Action>, k: nat, n: nat,
                            rec: Protocol.Record)
    requires Protocol.IsRun(states, actions) && Protocol.Initial(states[0]) && k < n < |actions|
    requires actions[k].Distribute? && actions[k].c in states[k].clients
    requires forall e :: Protocol.MarkerIs(states[k], actions[k].c, e) ==> e < actions[k].previousEpoch + 1
    requires forall j :: k < j < n ==> !Protocol.Disturbs(states[j], actions[j], actions[k].c,
             actions[k].previousEpoch + 1)
    requires actions[n].Compose? && actions[n].c == actions[k].c
    requires actions[k].c in states[n].clients && actions[k].c in states[n + 1].clients
    requires rec in states[n + 1].clients[actions[k].c].outbox - states[n].clients[actions[k].c].outbox
    ensures rec.message.ciphertext.key == RandomKey(actions[k].draw)
  {
    var a := actions[k];
    DistributionSendsUnder(states, actions, k);
    Protocol.SendingKeyStays(states, actions, k + 1, n, a.c, a.previousEpoch + 1, RandomKey(a.draw));
    var composed := Protocol.ComposedUnderTheMarker(states, actions, n);
    assert rec == composed;
  }

  /** Right after distributing above its marker, a client sends under the new key, which its list limits. */
  lemma DistributionSendsUnder(states: seq<Protocol.State>, actions: seq<Protocol.Action>, k: nat)
    requires Protocol.IsRun(states, actions) && Protocol.Initial(states[0]) && k < |actions| && actions[k].Distribute?
    requires actions[k].c in states[k].clients
    requires forall e :: Protocol.MarkerIs(states[k], actions[k].c, e) ==> e < actions[k].previousEpoch + 1
    ensures var a, s' := actions[k], states[k + 1];
            && a.c in s'.clients && Protocol.SendsUnder(s', a.c, a.previousEpoch + 1, RandomKey(a.draw))
            && a.draw in s'.origins && s'.origins[a.draw].creator == a.c && s'.origins[a.draw].list == a.list
  {
    Protocol.MarkerIsCurrent(states[k], actions[k].c);
    assert Protocol.Step(states[k], actions[k], states[k + 1]);
  }

  /** A user outside the list a key was distributed from reads nothing sealed under it. */
  lemma OutsiderReadsNothing(states: seq<Protocol.State>, actions: seq<Protocol.Action>, n: nat, c: Protocol.ClientId,
                             k: nat, joinedAt: Option<int>, sentAt: nat -> Option<int>, i: nat, draw: nat)
    requires Reachable(states, actions, n, c, k) && i < k && states[n].log[i].message.ciphertext.key == RandomKey(draw)
    requires draw in states[n].origins && states[n].origins[draw].creator != c
    requires states[n].clients[c].user !in states[n].origins[draw].list.users
    ensures Stored(states[n], i, sentAt).id !in Replayed(states[n], c, k, joinedAt, sentAt).cache
  {
    Protocol.RunKeepsInv(states, actions, n);
    assert Protocol.OriginHolds(states[n], states[n].origins[draw]);
    if Stored(states[n], i, sentAt).id in Replayed(states[n], c, k, joinedAt, sentAt).cache {
      ReadsOnlyWhatItWasGiven(states, actions, n, c, k, joinedAt, sentAt, i);
    }
  }

  // ---- Runs in which no two distributions pick the same epoch --------------------------------

  predicate DistinctEpochs(s: Protocol.State) {
    forall a <- s.origins, b <- s.origins :: s.origins[a].epoch == s.origins[b].epoch ==> a == b
  }

  /** The one key created for an epoch. */
  ghost function KeyOfEpoch(s: Protocol.State, epoch: int): SymKey {
    if draw :| draw in s.origins && s.origins[draw].epoch == epoch then RandomKey(draw) else RandomKey(0)
  }

  lemma EntitledIsTheOne(s: Protocol.State, c: Protocol.ClientId, epoch: int, key: SymKey)
    requires DistinctEpochs(s) && c in s.clients && Protocol.Entitled(s, c, epoch, key)
    ensures key == KeyOfEpoch(s, epoch)
  {
  }

  /** In such a run the texts, the handed-over keys and every client's store agree on one key per epoch. */
  lemma RunHasOneKeyPerEpoch(states: seq<Protocol.State>, actions: seq<Protocol.Action>, n: nat, c: Protocol.ClientId,
                             k: nat, joinedAt: Option<int>, sentAt: nat -> Option<int>)
    requires Reachable(states, actions, n, c, k) && DistinctEpochs(states[n])
    ensures Replay.OneKeyPerEpoch(states[n].clients[c].storage, ReaderOf(states[n], c, joinedAt),
            LogOf(states[n], k, sentAt),
                                  e => KeyOfEpoch(states[n], e))
  {
    Protocol.RunKeepsInv(states, actions, n);
    var s := states[n];
    var r, log := ReaderOf(s, c, joinedAt), LogOf(s, k, sentAt);
    assert Protocol.ClientHolds(s, c) && Protocol.StoreHolds(s, c);
    forall m | m in log && Replay.IsText(m) ensures m.ciphertext.key == KeyOfEpoch(s, m.envelope.epoch.value) {
      var i :| 0 <= i < k && log[i] == m;
      assert s.log[i] in s.log && Protocol.WellBuilt(s, s.log[i]);
    }
    forall m, e: int | m in log ensures Replay.HandedKey(r, m, e) in {None, Some(KeyOfEpoch(s, e))} {
      var i :| 0 <= i < k && log[i] == m;
      HandedKeyIsEntitled(s, c, joinedAt, sentAt, i, e);
      if Replay.HandsKey(r, m, e) {
        EntitledIsTheOne(s, c, e, Replay.HandedKey(r, m, e).value);
      }
    }
    forall e ensures GroupKeyStore.GetKey(s.clients[c].storage, s.conv, e) in {None, Some(KeyOfEpoch(s, e))} {
      if GroupKeyStore.GetKey(s.clients[c].storage, s.conv, e).Some? {
        EntitledIsTheOne(s, c, e, GroupKeyStore.GetKey(s.clients[c].storage, s.conv, e).value);
      }
    }
  }

  /** Entry `j` is a post-join distribution of `epoch` with a wrap under the client's current identity. */
  predicate WrapsFor(s: Protocol.State, c: Protocol.ClientId, joinedAt: Option<int>, sentAt: nat -> Option<int>, j: nat,
                     epoch: int)
    requires c in s.clients && s.clients[c].identity.Some? && j < |s.log|
  {
    && s.log[j].KeyRecord? && s.log[j].dist.epoch == epoch
    && s.clients[c].identity.value.keyId in s.log[j].dist.keyWraps
    && !(joinedAt.Some? && sentAt(j).Some? && sentAt(j).value < joinedAt.value)
  }

  lemma HandsKeyIff(s: Protocol.State, c: Protocol.ClientId, joinedAt: Option<int>, sentAt: nat -> Option<int>, j: nat,
                    epoch: int)
    requires Protocol.Inv(s) && c in s.clients && s.clients[c].identity.Some? && j < |s.log|
    ensures Replay.HandsKey(ReaderOf(s, c, joinedAt), Stored(s, j, sentAt), epoch) <==>
            WrapsFor(s, c, joinedAt, sentAt, j, epoch)
  {
    assert s.log[j] in s.log && Protocol.WellBuilt(s, s.log[j]);
    assert Protocol.ClientHolds(s, c) && Protocol.IdentityHolds(s, c);
  }

  /**
   From run to plaintext: in a run where no two distributions pick the same epoch, with each
   distribution in the log before its epoch's content, a client reads a text back if and only if
   it is post-join and its epoch's key was stored here or some post-join distribution of that
   epoch holds a wrap under the client's current identity.
   */
  lemma RunReadsIffWrapped(states: seq<Protocol.State>, actions: seq<Protocol.Action>, n: nat, c: Protocol.ClientId,
                           k: nat, joinedAt: Option<int>, sentAt: nat -> Option<int>, i: nat)
    requires Reachable(states, actions, n, c, k) && DistinctEpochs(states[n]) && i < k && states[n].log[i].Content?
    requires Replay.DistributionsComeFirst(LogOf(states[n], k, sentAt))
    ensures var s := states[n];
            var epoch := s.log[i].epoch;
            Stored(s, i, sentAt).id in Replayed(s, c, k, joinedAt, sentAt).cache <==>
            && !(joinedAt.Some? && sentAt(i).Some? && sentAt(i).value < joinedAt.value)
            && (|| GroupKeyStore.GetKey(s.clients[c].storage, s.conv, epoch).Some?
                || exists j :: 0 <= j < k && WrapsFor(s, c, joinedAt, sentAt, j, epoch))
  {
    Protocol.RunKeepsInv(states, actions, n);
    var s := states[n];
    var r, log, epoch := ReaderOf(s, c, joinedAt), LogOf(s, k, sentAt), s.log[i].epoch;
    RunLogIsSealed(states, actions, n, c, k, joinedAt, sentAt);
    RunHasOneKeyPerEpoch(states, actions, n, c, k, joinedAt, sentAt);
    Replay.PlacedDistributionsDecide(Start(s, c), r, log, e => KeyOfEpoch(s, e), i);
    forall j | 0 <= j < k ensures Replay.HandsKey(r, log[j], epoch) <==> WrapsFor(s, c, joinedAt, sentAt, j, epoch) {
      HandsKeyIff(s, c, joinedAt, sentAt, j, epoch);
    }
    assert (exists m <- log :: Replay.HandsKey(r, m, epoch)) <==>
        (exists j :: 0 <= j < k && Replay.HandsKey(r, log[j], epoch));
  }
}
