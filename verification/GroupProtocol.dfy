/**
 The group epoch-key protocol as a state machine over server membership, the shared log and
 every client's key store.

 Each action is one step between awaits, so add, remove, re-key, send and replay interleave
 freely: a client distributes from any participant list it ever obtained, wraps for identity
 keys it looked up at any earlier time, posts what it sealed later or never, and processes log
 entries it has been delivered in any order and any number of times.
 */
module GroupProtocol {
  import opened Wrappers
  import opened SymbolicCrypto
  import opened GroupEpochs
  import GroupKeyStore
  import Decimal
  import Runs

  type User = nat
  type ClientId = nat

  /** A participant list and the membership moment (index into the history) it shows. */
  datatype Listing = Listing(users: set<User>, fetchedAt: nat)

  datatype Identity = Identity(keyId: string, kem: KemPrivate, signer: SigPrivate)

  /** A published identity key. */
  datatype Published = Published(owner: User, kem: KemPublic, signing: SigPublic)

  /** A log entry; a distribution also carries a marker text sealed under the new key. */
  datatype Record =
    | KeyRecord(draw: nat, dist: Distribution, senderKeyId: string, message: SealedGroupMessage)
    | Content(senderKeyId: string, epoch: int, message: SealedGroupMessage)

  const MARKER := "\U{1F511}"

  /**
   A browser signed in as one user. `fetched` holds every participant list it ever obtained, by
   loading its conversations or by its own creation or addition; an action under way may still
   work from any of them.
   */
  datatype Client = Client(
    user: User, identity: Option<Identity>, fetched: set<Listing>, storage: GroupKeyStore.Storage,
    outbox: set<Record>, received: nat)

  /** Where an epoch key came from: its creator, its epoch, whom it was wrapped for, and from which list. */
  datatype Origin = Origin(creator: ClientId, epoch: int, addressed: set<User>, list: Listing)

  /** `history` holds the active members after each membership change, newest last. */
  datatype State = State(
    conv: string, admin: Option<User>, active: set<User>, history: seq<set<User>>,
    directory: map<string, Published>, origins: map<nat, Origin>, log: seq<Record>, clients: map<ClientId, Client>)

  datatype Action =
    | Publish(c: ClientId, identity: Identity)
    | Recover(c: ClientId, identity: Identity)
    | CreateGroup(c: ClientId, members: set<User>)
    | AddMember(c: ClientId, target: User)
    | RemoveMember(c: ClientId, target: User)
    | Refresh(c: ClientId)
    | Distribute(c: ClientId, list: Listing, previousEpoch: int, recipients: seq<Recipient>,
                 keyWraps: map<string, EpochKeyWrap>, draw: nat, nonce: nat)
    | Compose(c: ClientId, text: string, nonce: nat)
    | Post(c: ClientId, rec: Record)
    | Drop(c: ClientId, rec: Record)
    | Receive(c: ClientId)
    | Process(c: ClientId, i: nat)
    | Forget(c: ClientId)

  function Owners(s: State, recipients: seq<Recipient>): set<User> {
    set r | r in recipients && r.identityKeyId in s.directory :: s.directory[r.identityKeyId].owner
  }

  function PublicPart(user: User, identity: Identity): Published {
    Published(user, identity.kem.Public(), identity.signer.Public())
  }

  /** The owners of the identity keys wraps are filed under. */
  function WrapOwners(s: State, keyWraps: map<string, EpochKeyWrap>): set<User> {
    set id | id in keyWraps && id in s.directory :: s.directory[id].owner
  }

  function CurrentKey(s: State, c: ClientId): Option<SymKey>
    requires c in s.clients
  {
    match GroupKeyStore.GetCurrentEpoch(s.clients[c].storage, s.conv)
    case None => None
    case Some(epoch) => GroupKeyStore.GetKey(s.clients[c].storage, s.conv, epoch)
  }

  ghost predicate Enabled(s: State, a: Action) {
    && a.c in s.clients
    && var client := s.clients[a.c];
       match a
       case Publish(_, identity) => identity.keyId !in s.directory
       case Recover(_, identity) =>
         && identity.keyId in s.directory
         && s.directory[identity.keyId] == PublicPart(client.user, identity)
       case CreateGroup(_, members) => s.admin == None && client.identity.Some? && members - {client.user} != {}
       case AddMember(_, target) => s.admin == Some(client.user) && client.user in s.active && target !in s.active
       case RemoveMember(_, target) =>
         && target in s.active
         && (client.user == target || (s.admin == Some(client.user) && client.user in s.active))
       case Refresh(_) => true
       case Distribute(_, list, _, recipients, keyWraps, draw, _) =>
         && client.identity.Some? && list in client.fetched
         && (forall r <- recipients ::
               r.identityKeyId in s.directory && s.directory[r.identityKeyId].kem == r.kemPublicKey)
         && Owners(s, recipients) in {list.users, list.users - {client.user}}
         && WrapsKeyFor(keyWraps, RandomKey(draw), recipients)
         && draw !in s.origins
       case Compose(_, _, _) => client.identity.Some? && CurrentKey(s, a.c).Some?
       case Post(_, rec) => rec in client.outbox && client.user in s.active
       case Drop(_, rec) => rec in client.outbox
       case Receive(_) => client.user in s.active
       case Process(_, i) => client.identity.Some? && i < client.received && i < |s.log|
       case Forget(_) => true
  }

  function WithMembers(s: State, active: set<User>): State {
    s.(active := active, history := s.history + [active])
  }

  function WithClient(s: State, c: ClientId, client: Client): State {
    s.(clients := s.clients[c := client])
  }

  /** The record a distributing client is about to post. */
  ghost function Distributed(s: State, a: Action): Record
    requires a.Distribute? && Enabled(s, a)
  {
    var id, epoch := s.clients[a.c].identity.value, a.previousEpoch + 1;
    KeyRecord(a.draw, Distribution(epoch, a.keyWraps), id.keyId,
              SealGroupMessage(RandomKey(a.draw), MARKER, id.signer, s.conv, id.keyId, epoch, a.nonce))
  }

  /** The text a client has sealed under its current epoch. */
  ghost function Composed(s: State, a: Action): Record
    requires a.Compose? && Enabled(s, a)
  {
    var id, epoch := s.clients[a.c].identity.value, GroupKeyStore.GetCurrentEpoch(s.clients[a.c].storage, s.conv).value;
    Content(id.keyId, epoch, SealGroupMessage(CurrentKey(s, a.c).value, a.text, id.signer, s.conv, id.keyId, epoch,
                                              a.nonce))
  }

  ghost function Next(s: State, a: Action): State
    requires Enabled(s, a)
  {
    var client := s.clients[a.c];
    match a
    case Publish(c, identity) =>
      WithClient(s, c, client.(identity := Some(identity)))
      .(directory := s.directory[identity.keyId := PublicPart(client.user, identity)])
    case Recover(c, identity) => WithClient(s, c, client.(identity := Some(identity)))
    case CreateGroup(c, members) =>
      WithMembers(WithClient(s, c, client.(fetched := client.fetched + {Listing(members, |s.history|)})),
                  members + {client.user})
      .(admin := Some(client.user))
    case AddMember(c, target) =>
      WithMembers(WithClient(s, c, client.(fetched := client.fetched + {Listing({target}, |s.history|)})),
                  s.active + {target})
    case RemoveMember(_, target) => WithMembers(s, s.active - {target})
    case Refresh(c) =>
      WithClient(s, c, client.(fetched := if client.user in s.active && s.history != []
                                          then client.fetched + {Listing(s.active, |s.history| - 1)}
                                          else client.fetched))
    case Distribute(c, list, previousEpoch, recipients, _, draw, _) =>
      WithClient(s, c, client.(
                   storage := GroupKeyStore.SetKey(client.storage, s.conv, previousEpoch + 1, RandomKey(draw)),
                   outbox := client.outbox + {Distributed(s, a)}))
      .(origins := s.origins[draw := Origin(c, previousEpoch + 1, Owners(s, recipients), list)])
    case Compose(c, _, _) => WithClient(s, c, client.(outbox := client.outbox + {Composed(s, a)}))
    case Post(c, rec) => WithClient(s, c, client.(outbox := client.outbox - {rec})).(log := s.log + [rec])
    case Drop(c, rec) => WithClient(s, c, client.(outbox := client.outbox - {rec}))
    case Receive(c) => WithClient(s, c, client.(received := |s.log|))
    case Process(c, i) => WithClient(s, c, client.(storage := Absorb(s, client, s.log[i])))
    case Forget(c) =>
      WithClient(s, c, client.(storage := GroupKeyStore.Clear(client.storage, s.conv)))
  }

  /** The key store after one log entry is processed: a distribution addressed to us adds its key. */
  function Absorb(s: State, client: Client, rec: Record): GroupKeyStore.Storage
    requires client.identity.Some?
  {
    match rec
    case Content(_, _, _) => client.storage
    case KeyRecord(_, dist, _, _) =>
      match AcceptKeyDistribution(dist, client.identity.value.keyId, client.identity.value.kem)
      case None => client.storage
      case Some(key) => GroupKeyStore.SetKey(client.storage, s.conv, dist.epoch, key)
  }

  predicate Initial(s: State) {
    && s.admin == None && s.active == {} && s.history == [{}]
    && s.directory == map[] && s.origins == map[] && s.log == []
    && forall c <- s.clients :: s.clients[c] == Client(s.clients[c].user, None, {}, map[], {}, 0)
  }

  ghost predicate Step(s: State, a: Action, s': State) {
    Enabled(s, a) && s' == Next(s, a)
  }

  ghost predicate IsRun(states: seq<State>, actions: seq<Action>) {
    Runs.IsRun(Step, states, actions)
  }

  // ---- The invariant -----------------------------------------------------------

  /** Wraps of one key: each opens under its identity's published key, to the key, and under no other. */
  ghost predicate WrapsOpen(s: State, keyWraps: map<string, EpochKeyWrap>, draw: nat) {
    forall id <- keyWraps ::
      && id in s.directory
      && forall mine: KemPrivate ::
           UnwrapEpochKey(keyWraps[id], mine) == if mine.Public() == s.directory[id].kem then Some(RandomKey(draw))
           else None
  }

  /** `message` was sealed by the owner of `senderKeyId`, under a key created for `epoch`. */
  predicate SealedInPlace(s: State, senderKeyId: string, epoch: int, message: SealedGroupMessage) {
    var key, signer := message.ciphertext.key, message.signature.signer;
    && senderKeyId in s.directory && s.directory[senderKeyId].signing == signer.Public()
    && key.RandomKey? && key.draw in s.origins && s.origins[key.draw].epoch == epoch
    && message == SealGroupMessage(key, message.ciphertext.plaintext, signer, s.conv, senderKeyId, epoch, message.nonce)
  }

  /** A distribution hands out its own key, to identities of all the addressed users and no others. */
  ghost predicate WellBuilt(s: State, rec: Record) {
    match rec
    case KeyRecord(draw, dist, senderKeyId, message) =>
      && draw in s.origins && s.origins[draw].epoch == dist.epoch
      && WrapsOpen(s, dist.keyWraps, draw) && WrapOwners(s, dist.keyWraps) == s.origins[draw].addressed
      && SealedInPlace(s, senderKeyId, dist.epoch, message)
    case Content(senderKeyId, epoch, message) => SealedInPlace(s, senderKeyId, epoch, message)
  }

  predicate ListingHolds(s: State, list: Listing) {
    list.fetchedAt < |s.history| && list.users <= s.history[list.fetchedAt]
  }

  /** Everyone on the list is addressed, the creator's own user perhaps left out. */
  predicate OriginHolds(s: State, o: Origin) {
    && o.creator in s.clients && ListingHolds(s, o.list)
    && (o.addressed == o.list.users || o.addressed == o.list.users - {s.clients[o.creator].user})
  }

  predicate OriginsHold(s: State) {
    forall draw <- s.origins :: OriginHolds(s, s.origins[draw])
  }

  /** Every stored key was created for its epoch, by this client or wrapped for its user. */
  predicate Entitled(s: State, c: ClientId, epoch: int, key: SymKey)
    requires c in s.clients
  {
    && key.RandomKey? && key.draw in s.origins && s.origins[key.draw].epoch == epoch
    && (s.origins[key.draw].creator == c || s.clients[c].user in s.origins[key.draw].addressed)
  }

  ghost predicate StoreHolds(s: State, c: ClientId)
    requires c in s.clients
  {
    forall epoch :: GroupKeyStore.GetKey(s.clients[c].storage, s.conv, epoch).Some? ==>
                      Entitled(s, c, epoch, GroupKeyStore.GetKey(s.clients[c].storage, s.conv, epoch).value)
  }

  predicate IdentityHolds(s: State, c: ClientId)
    requires c in s.clients
  {
    var client := s.clients[c];
    client.identity.Some? ==>
      && client.identity.value.keyId in s.directory
      && s.directory[client.identity.value.keyId] == PublicPart(client.user, client.identity.value)
  }

  ghost predicate ClientHolds(s: State, c: ClientId)
    requires c in s.clients
  {
    && IdentityHolds(s, c)
    && (forall list <- s.clients[c].fetched :: ListingHolds(s, list))
    && (forall rec <- s.clients[c].outbox :: WellBuilt(s, rec))
    && StoreHolds(s, c)
  }

  ghost predicate Inv(s: State) {
    && |s.history| > 0 && s.history[|s.history| - 1] == s.active
    && OriginsHold(s)
    && (forall rec <- s.log :: WellBuilt(s, rec))
    && (forall c <- s.clients :: ClientHolds(s, c))
  }

  /** What no step ever takes back. */
  predicate Grows(s: State, s': State) {
    && s'.conv == s.conv && s.history <= s'.history && s.log <= s'.log
    && s'.clients.Keys == s.clients.Keys
    && (forall c <- s.clients :: s'.clients[c].user == s.clients[c].user)
    && (forall id <- s.directory :: id in s'.directory && s'.directory[id] == s.directory[id])
    && (forall draw <- s.origins :: draw in s'.origins && s'.origins[draw] == s.origins[draw])
  }

  lemma StepGrows(s: State, a: Action)
    requires Enabled(s, a)
    ensures Grows(s, Next(s, a))
  {
  }

  lemma WellBuiltPersists(s: State, s': State, rec: Record)
    requires Grows(s, s') && WellBuilt(s, rec)
    ensures WellBuilt(s', rec)
  {
  }

  lemma ListingPersists(s: State, s': State, list: Listing)
    requires Grows(s, s') && ListingHolds(s, list)
    ensures ListingHolds(s', list)
  {
  }

  /** A client keeps its part of the invariant while it is not the one acting. */
  lemma ClientPersists(s: State, s': State, c: ClientId)
    requires Grows(s, s') && c in s.clients && ClientHolds(s, c)
    requires s'.clients[c] == s.clients[c]
    ensures ClientHolds(s', c)
  {
  }

  /** Storing one more entitled key, or forgetting keys, keeps the store entitled. */
  lemma SetKeyStoreHolds(st: GroupKeyStore.Storage, conv: string, epoch: int, key: SymKey, e: int)
    ensures GroupKeyStore.GetKey(GroupKeyStore.SetKey(st, conv, epoch, key), conv, e) ==
            if e == epoch then Some(key) else GroupKeyStore.GetKey(st, conv, e)
    ensures GroupKeyStore.GetKey(GroupKeyStore.Clear(st, conv), conv, e) in {None, GroupKeyStore.GetKey(st, conv, e)}
  {
  }

  /** A key absorbed from a well-built record is one this client's user was addressed with. */
  lemma AbsorbedKeyIsEntitled(s: State, c: ClientId, rec: Record)
    requires c in s.clients && ClientHolds(s, c) && WellBuilt(s, rec)
    requires s.clients[c].identity.Some? && rec.KeyRecord?
    ensures var id := s.clients[c].identity.value;
            var accepted := AcceptKeyDistribution(rec.dist, id.keyId, id.kem);
            accepted.Some? ==> Entitled(s, c, rec.dist.epoch, accepted.value)
  {
  }

  /** Wraps built for `recipients` are owned by exactly the recipients' owners, and open under their published keys. */
  lemma WrapsAreOpen(s: State, keyWraps: map<string, EpochKeyWrap>, draw: nat, recipients: seq<Recipient>)
    requires WrapsKeyFor(keyWraps, RandomKey(draw), recipients)
    requires forall r <- recipients ::
               r.identityKeyId in s.directory && s.directory[r.identityKeyId].kem == r.kemPublicKey
    ensures WrapsOpen(s, keyWraps, draw) && WrapOwners(s, keyWraps) == Owners(s, recipients)
  {
    forall id | id in keyWraps ensures id in s.directory && AddressedKey(recipients, id) == Some(s.directory[id].kem) {
      AddressedKeyPresent(recipients, id);
    }
    forall u ensures u in WrapOwners(s, keyWraps) <==> u in Owners(s, recipients) {
      if r :| r in recipients && s.directory[r.identityKeyId].owner == u {
        assert r.identityKeyId in RecipientIds(recipients);
      }
      if id :| id in keyWraps && s.directory[id].owner == u {
        var r :| r in recipients && r.identityKeyId == id;
      }
    }
  }

  /** The record a distributing client puts in its outbox is well built. */
  lemma DistributionIsWellBuilt(s: State, a: Action)
    requires Inv(s) && a.Distribute? && Enabled(s, a)
    ensures WellBuilt(Next(s, a), Distributed(s, a))
  {
    assert ClientHolds(s, a.c);
    WrapsAreOpen(s, a.keyWraps, a.draw, a.recipients);
  }

  /** So is a composed text: the key it is sealed under was created for the epoch it names. */
  lemma CompositionIsWellBuilt(s: State, a: Action)
    requires Inv(s) && a.Compose? && Enabled(s, a)
    ensures WellBuilt(Next(s, a), Composed(s, a))
  {
    assert ClientHolds(s, a.c) && StoreHolds(s, a.c);
    var epoch := GroupKeyStore.GetCurrentEpoch(s.clients[a.c].storage, s.conv).value;
    assert Entitled(s, a.c, epoch, CurrentKey(s, a.c).value);
  }

  /** Every record an action puts in the outbox is well built. */
  lemma NewRecordIsWellBuilt(s: State, a: Action, rec: Record)
    requires Inv(s) && Enabled(s, a)
    requires a.c in Next(s, a).clients && rec in Next(s, a).clients[a.c].outbox && rec !in s.clients[a.c].outbox
    ensures WellBuilt(Next(s, a), rec)
  {
    if a.Distribute? {
      DistributionIsWellBuilt(s, a);
    } else {
      CompositionIsWellBuilt(s, a);
    }
  }

  lemma ActingOutboxHolds(s: State, a: Action)
    requires Inv(s) && Enabled(s, a)
    ensures a.c in Next(s, a).clients
    ensures forall rec <- Next(s, a).clients[a.c].outbox :: WellBuilt(Next(s, a), rec)
  {
    StepGrows(s, a);
    assert ClientHolds(s, a.c);
    forall rec | rec in Next(s, a).clients[a.c].outbox ensures WellBuilt(Next(s, a), rec) {
      if rec in s.clients[a.c].outbox {
        WellBuiltPersists(s, Next(s, a), rec);
      } else {
        NewRecordIsWellBuilt(s, a, rec);
      }
    }
  }

  lemma ActingListsHold(s: State, a: Action)
    requires Inv(s) && Enabled(s, a)
    ensures a.c in Next(s, a).clients
    ensures forall list <- Next(s, a).clients[a.c].fetched :: ListingHolds(Next(s, a), list)
  {
    StepGrows(s, a);
    assert ClientHolds(s, a.c);
    forall list | list in s.clients[a.c].fetched ensures ListingHolds(Next(s, a), list) {
      ListingPersists(s, Next(s, a), list);
    }
  }

  lemma ActingClientHolds(s: State, a: Action)
    requires Inv(s) && Enabled(s, a)
    ensures a.c in Next(s, a).clients && ClientHolds(Next(s, a), a.c)
  {
    assert ClientHolds(s, a.c);
    ActingListsHold(s, a);
    ActingOutboxHolds(s, a);
    ActingStoreHolds(s, a);
  }

  /** After an action, the acting client's keys are its old ones, plus at most one entitled new one. */
  lemma KeysAfterAction(s: State, a: Action, e: int)
    requires Inv(s) && Enabled(s, a)
    requires a.c in Next(s, a).clients
    ensures var key := GroupKeyStore.GetKey(Next(s, a).clients[a.c].storage, s.conv, e);
            key.Some? ==>
              key == GroupKeyStore.GetKey(s.clients[a.c].storage, s.conv, e) || Entitled(Next(s, a), a.c, e, key.value)
  {
    var client := s.clients[a.c];
    match a {
      case Distribute(_, _, previousEpoch, _, _, draw, _) =>
        SetKeyStoreHolds(client.storage, s.conv, previousEpoch + 1, RandomKey(draw), e);
      case Process(_, i) =>
        var rec := s.log[i];
        assert rec in s.log;
        if rec.KeyRecord? {
          AbsorbedKeyIsEntitled(s, a.c, rec);
          var accepted := AcceptKeyDistribution(rec.dist, client.identity.value.keyId, client.identity.value.kem);
          if accepted.Some? {
            SetKeyStoreHolds(client.storage, s.conv, rec.dist.epoch, accepted.value, e);
          }
        }
      case Forget(_) => SetKeyStoreHolds(client.storage, s.conv, 0, RandomKey(0), e);
      case _ =>
    }
  }

  lemma ActingStoreHolds(s: State, a: Action)
    requires Inv(s) && Enabled(s, a)
    ensures a.c in Next(s, a).clients && StoreHolds(Next(s, a), a.c)
  {
    StepGrows(s, a);
    var s' := Next(s, a);
    assert ClientHolds(s, a.c);
    forall e | GroupKeyStore.GetKey(s'.clients[a.c].storage, s.conv, e).Some?
      ensures Entitled(s', a.c, e, GroupKeyStore.GetKey(s'.clients[a.c].storage, s.conv, e).value)
    {
      KeysAfterAction(s, a, e);
    }
  }

  lemma OriginPersists(s: State, s': State, o: Origin)
    requires Grows(s, s') && OriginHolds(s, o)
    ensures OriginHolds(s', o)
  {
    ListingPersists(s, s', o.list);
  }

  lemma OriginsPersist(s: State, a: Action)
    requires Inv(s) && Enabled(s, a)
    ensures OriginsHold(Next(s, a))
  {
    StepGrows(s, a);
    var s' := Next(s, a);
    assert ClientHolds(s, a.c);
    forall draw | draw in s'.origins ensures OriginHolds(s', s'.origins[draw]) {
      assert OriginHolds(s, s'.origins[draw]);
      OriginPersists(s, s', s'.origins[draw]);
    }
  }

  /** A record reaches the log only from the acting client's outbox. */
  lemma LoggedFromOutbox(s: State, a: Action, rec: Record)
    requires Enabled(s, a) && rec in Next(s, a).log && rec !in s.log
    ensures rec in s.clients[a.c].outbox
  {
  }

  lemma LogPersists(s: State, a: Action)
    requires Inv(s) && Enabled(s, a)
    ensures forall rec <- Next(s, a).log :: WellBuilt(Next(s, a), rec)
  {
    StepGrows(s, a);
    assert ClientHolds(s, a.c);
    forall rec | rec in Next(s, a).log ensures WellBuilt(Next(s, a), rec) {
      if rec !in s.log {
        LoggedFromOutbox(s, a, rec);
      }
      WellBuiltPersists(s, Next(s, a), rec);
    }
  }

  lemma OthersUntouched(s: State, a: Action)
    requires Enabled(s, a) && |s.history| > 0 && s.history[|s.history| - 1] == s.active
    ensures var s' := Next(s, a);
            && s'.clients.Keys == s.clients.Keys
            && (forall c <- s.clients :: c != a.c ==> s'.clients[c] == s.clients[c])
            && |s'.history| > 0 && s'.history[|s'.history| - 1] == s'.active
  {
  }

  lemma {:induction false} StepKeepsInv(s: State, a: Action)
    requires Inv(s) && Enabled(s, a)
    ensures Inv(Next(s, a))
  {
    StepGrows(s, a);
    var s' := Next(s, a);
    OthersUntouched(s, a);
    OriginsPersist(s, a);
    LogPersists(s, a);
    forall c | c in s'.clients ensures ClientHolds(s', c) {
      if c == a.c {
        ActingClientHolds(s, a);
      } else {
        ClientPersists(s, s', c);
      }
    }
  }

  lemma InitialInv(s: State)
    requires Initial(s)
    ensures Inv(s)
  {
  }

  lemma RunKeepsInv(states: seq<State>, actions: seq<Action>, n: nat)
    requires IsRun(states, actions) && Initial(states[0]) && n < |states|
    ensures Inv(states[n])
  {
    InitialInv(states[0]);
    forall s, a, s' | Inv(s) && Step(s, a, s') ensures Inv(s') {
      StepKeepsInv(s, a);
    }
    Runs.Invariant(Step, Inv, states, actions, 0, n);
  }

  lemma GrowsTransitive(a: State, b: State, c: State)
    requires Grows(a, b) && Grows(b, c)
    ensures Grows(a, c)
  {
  }

  lemma {:induction false} RunGrows(states: seq<State>, actions: seq<Action>, from: nat, to: nat)
    requires IsRun(states, actions) && from <= to < |states|
    ensures Grows(states[from], states[to])
  {
    if from < to {
      RunGrows(states, actions, from, to - 1);
      assert Step(states[to - 1], actions[to - 1], states[to]);
      StepGrows(states[to - 1], actions[to - 1]);
      GrowsTransitive(states[from], states[to - 1], states[to]);
    }
  }

  // ---- Who can ever hold which key -----------------------------------------------

  /** Client `c` has the key of draw `draw` stored under some epoch. */
  ghost predicate Holds(s: State, c: ClientId, draw: nat)
    requires c in s.clients
  {
    exists epoch :: GroupKeyStore.GetKey(s.clients[c].storage, s.conv, epoch) == Some(RandomKey(draw))
  }

  /**
   Over every run from an empty system: a client holds an epoch key only if it created the
   key itself or its user was among those the key was wrapped for, and those were all
   active members at the moment the distribution's participant list was fetched.
   */
  lemma HoldersWereAddressed(states: seq<State>, actions: seq<Action>, n: nat, c: ClientId, draw: nat)
    requires IsRun(states, actions) && Initial(states[0]) && n < |states|
    requires c in states[n].clients && Holds(states[n], c, draw)
    ensures draw in states[n].origins
    ensures var origin := states[n].origins[draw];
            && origin.list.fetchedAt < |states[n].history|
            && origin.addressed <= origin.list.users <= states[n].history[origin.list.fetchedAt]
            && (origin.creator == c || states[n].clients[c].user in origin.addressed)
  {
    RunKeepsInv(states, actions, n);
    var s := states[n];
    var epoch :| GroupKeyStore.GetKey(s.clients[c].storage, s.conv, epoch) == Some(RandomKey(draw));
    assert ClientHolds(s, c) && StoreHolds(s, c);
    assert Entitled(s, c, epoch, RandomKey(draw));
  }

  /**
   A client whose user was not a member when a distribution's list was fetched never holds
   that distribution's key, unless it created the key itself: not a new member who joined
   later, not a removed one, and not one who has since been re-admitted.
   */
  lemma OutsiderAtFetchNeverHolds(states: seq<State>, actions: seq<Action>, n: nat, c: ClientId, draw: nat)
    requires IsRun(states, actions) && Initial(states[0]) && n < |states|
    requires var s := states[n];
             && c in s.clients && draw in s.origins && s.origins[draw].creator != c
             && s.origins[draw].list.fetchedAt < |s.history|
             && s.clients[c].user !in s.history[s.origins[draw].list.fetchedAt]
    ensures !Holds(states[n], c, draw)
  {
    RunKeepsInv(states, actions, n);
    var s := states[n];
    assert OriginsHold(s) && ListingHolds(s, s.origins[draw].list) && ClientHolds(s, c) && StoreHolds(s, c);
    assert forall epoch :: !Entitled(s, c, epoch, RandomKey(draw));
  }

  /** A step that does not admit `u` leaves them out of every list it adds to the history. */
  predicate Admits(a: Action, u: User) {
    a.CreateGroup? || (a.AddMember? && a.target == u)
  }

  /** `u` is in no list of the history from entry `k` on. */
  predicate OutSince(s: State, k: int, u: User) {
    forall i :: k <= i < |s.history| && i >= 0 ==> u !in s.history[i]
  }

  lemma {:induction false} StaysOut(states: seq<State>, actions: seq<Action>, from: nat, to: nat, u: User)
    requires IsRun(states, actions) && Initial(states[0]) && from <= to < |states|
    requires u !in states[from].active
    requires forall i :: from <= i < to ==> !Admits(actions[i], u)
    ensures u !in states[to].active
    ensures OutSince(states[to], |states[from].history| - 1, u)
  {
    RunKeepsInv(states, actions, from);
    if from < to {
      StaysOut(states, actions, from, to - 1, u);
      var s, s' := states[to - 1], states[to];
      assert Step(s, actions[to - 1], s');
      RunGrows(states, actions, from, to - 1);
      StepGrows(s, actions[to - 1]);
      RunKeepsInv(states, actions, to - 1);
      OneStepOut(s, actions[to - 1], u);
      assert forall k :: 0 <= k < |s.history| ==> s'.history[k] == s.history[k];
    }
  }

  lemma OneStepOut(s: State, a: Action, u: User)
    requires Enabled(s, a) && u !in s.active && !Admits(a, u)
    ensures u !in Next(s, a).active
    ensures forall k :: |s.history| <= k < |Next(s, a).history| ==> u !in Next(s, a).history[k]
  {
  }

  /**
   A user who is out of the group at point `removed` of a run and not re-admitted before
   point `back` never holds, at any later point `n` and on any browser, a key someone else
   distributes from a list fetched in between: even after rejoining, the gap stays closed.
   */
  lemma RemovedMemberGetsNoKeyOfTheGap(states: seq<State>, actions: seq<Action>, removed: nat, back: nat, n: nat,
                                       c: ClientId, draw: nat)
    requires IsRun(states, actions) && Initial(states[0]) && removed <= back <= n < |states|
    requires c in states[n].clients && draw in states[n].origins && states[n].origins[draw].creator != c
    requires states[n].clients[c].user !in states[removed].active
    requires forall i :: removed <= i < back ==> !Admits(actions[i], states[n].clients[c].user)
    requires |states[removed].history| - 1 <= states[n].origins[draw].list.fetchedAt < |states[back].history|
    ensures !Holds(states[n], c, draw)
  {
    RunKeepsInv(states, actions, removed);
    StaysOut(states, actions, removed, back, states[n].clients[c].user);
    RunGrows(states, actions, back, n);
    var fetchedAt := states[n].origins[draw].list.fetchedAt;
    assert states[n].history[fetchedAt] == states[back].history[fetchedAt];
    OutsiderAtFetchNeverHolds(states, actions, n, c, draw);
  }

  /** Not holding a key means not reading: nothing in the store opens what was sealed under it. */
  lemma WithoutTheKeyNothingOpens(s: State, c: ClientId, draw: nat, slot: int, text: string, signer: SigPrivate,
                                  senderKeyId: string, epoch: int, nonce: nat, verifier: SigPublic)
    requires c in s.clients && !Holds(s, c, draw)
    ensures var sealed := SealGroupMessage(RandomKey(draw), text, signer, s.conv, senderKeyId, epoch, nonce);
            forall key :: GroupKeyStore.GetKey(s.clients[c].storage, s.conv, slot) == Some(key) ==>
                            OpenGroupMessage(key, sealed, verifier, s.conv, senderKeyId, epoch).Err?
  {
  }

  /** Conversely, a client that processes a delivered distribution holds its key exactly if it was addressed. */
  lemma AddressedClientGetsTheKey(s: State, c: ClientId, i: nat, recipients: seq<Recipient>)
    requires Enabled(s, Process(c, i)) && s.log[i].KeyRecord?
    requires WrapsKeyFor(s.log[i].dist.keyWraps, RandomKey(s.log[i].draw), recipients)
    requires !Holds(s, c, s.log[i].draw)
    ensures var identity := s.clients[c].identity.value;
            c in Next(s, Process(c, i)).clients &&
            (Holds(Next(s, Process(c, i)), c, s.log[i].draw) <==>
             AddressedKey(recipients, identity.keyId) == Some(identity.kem.Public()))
  {
    var client, rec := s.clients[c], s.log[i];
    var identity := client.identity.value;
    AcceptExactlyWhenAddressed(rec.dist, RandomKey(rec.draw), recipients, identity.keyId, identity.kem);
    var s' := Next(s, Process(c, i));
    if AddressedKey(recipients, identity.keyId) == Some(identity.kem.Public()) {
      assert GroupKeyStore.GetKey(s'.clients[c].storage, s.conv, rec.dist.epoch) == Some(RandomKey(rec.draw));
    } else {
      assert s'.clients[c].storage == client.storage;
    }
  }

  // ---- Who is handed which key ---------------------------------------------------------

  /** An identity of user `u` has a wrap in the distribution. */
  predicate WrappedFor(s: State, dist: Distribution, u: User) {
    exists id <- dist.keyWraps :: id in s.directory && s.directory[id].owner == u
  }

  /**
   Over every run, for a user other than the creator's: a distribution in the log holds a wrap
   for them if and only if they are on the participant list it was built from. So the promise
   that no future epoch includes a removed member holds of a distribution exactly if the
   distributing client's list leaves them out, whenever it is sent.
   */
  lemma WrappedExactlyIfListed(states: seq<State>, actions: seq<Action>, n: nat, i: nat, u: User)
    requires IsRun(states, actions) && Initial(states[0]) && n < |states|
    requires i < |states[n].log| && states[n].log[i].KeyRecord?
    ensures states[n].log[i].draw in states[n].origins
    ensures var s, rec := states[n], states[n].log[i];
            var origin := s.origins[rec.draw];
            && origin.creator in s.clients
            && (u != s.clients[origin.creator].user ==> (WrappedFor(s, rec.dist, u) <==> u in origin.list.users))
  {
    RunKeepsInv(states, actions, n);
    var s, rec := states[n], states[n].log[i];
    assert rec in s.log && WellBuilt(s, rec) && OriginHolds(s, s.origins[rec.draw]);
    assert WrappedFor(s, rec.dist, u) <==> u in WrapOwners(s, rec.dist.keyWraps);
  }

  /**
   The same seen from the step that distributes: while `u` is out of the group, another user's
   client distributes a new key from a list of its own. For ever after, the key is addressed to
   `u` if and only if `u` is on that list, and then the list was fetched while `u` was a member.
   */
  lemma StaleListDecides(states: seq<State>, actions: seq<Action>, k: nat, n: nat, u: User)
    requires IsRun(states, actions) && Initial(states[0]) && k < |actions| && k < n < |states|
    requires actions[k].Distribute? && u !in states[k].active
    requires actions[k].c in states[k].clients && states[k].clients[actions[k].c].user != u
    ensures actions[k].draw in states[n].origins
    ensures var list := actions[k].list;
            && (u in states[n].origins[actions[k].draw].addressed <==> u in list.users)
            && (u in list.users ==> list.fetchedAt < |states[k].history| - 1 && u in states[k].history[list.fetchedAt])
  {
    assert Step(states[k], actions[k], states[k + 1]);
    RunKeepsInv(states, actions, k);
    assert ClientHolds(states[k], actions[k].c) && ListingHolds(states[k], actions[k].list);
    RunGrows(states, actions, k + 1, n);
    assert actions[k].draw in states[k + 1].origins;
  }

  /**
   The receiving half: once a client has processed a posted distribution, it holds the key if
   and only if it did before or the distribution has a wrap under its current identity.
   */
  lemma ProcessedKeyIsHeldIff(states: seq<State>, actions: seq<Action>, n: nat, c: ClientId, i: nat)
    requires IsRun(states, actions) && Initial(states[0]) && n < |states|
    requires Enabled(states[n], Process(c, i)) && states[n].log[i].KeyRecord?
    ensures var s, rec := states[n], states[n].log[i];
            var s' := Next(s, Process(c, i));
            c in s'.clients &&
            (Holds(s', c, rec.draw) <==>
             Holds(s, c, rec.draw) || s.clients[c].identity.value.keyId in rec.dist.keyWraps)
  {
    RunKeepsInv(states, actions, n);
    var s, rec := states[n], states[n].log[i];
    var client := s.clients[c];
    assert rec in s.log && WellBuilt(s, rec) && ClientHolds(s, c) && IdentityHolds(s, c);
    var s' := Next(s, Process(c, i));
    if client.identity.value.keyId in rec.dist.keyWraps {
      var id := client.identity.value;
      assert AcceptKeyDistribution(rec.dist, id.keyId, id.kem) == Some(RandomKey(rec.draw));
      SetKeyStoreHolds(client.storage, s.conv, rec.dist.epoch, RandomKey(rec.draw), rec.dist.epoch);
      assert GroupKeyStore.GetKey(s'.clients[c].storage, s'.conv, rec.dist.epoch) == Some(RandomKey(rec.draw));
    } else {
      assert s'.clients[c].storage == client.storage;
    }
  }

  // ---- Which key a text is sealed under ---------------------------------------------------

  /** `key` is stored in the client's slot for epoch `e`. */
  predicate Keeps(s: State, c: ClientId, e: int, key: SymKey)
    requires c in s.clients
  {
    var st, slot := s.clients[c].storage, GroupKeyStore.KeySlot(s.conv, e);
    slot in st && st[slot] == GroupKeyStore.KeyItem(key)
  }

  /** The client's marker names epoch `e`. */
  predicate MarkerIs(s: State, c: ClientId, e: int)
    requires c in s.clients
  {
    var st, slot := s.clients[c].storage, GroupKeyStore.EpochSlot(s.conv);
    slot in st && st[slot] == GroupKeyStore.EpochItem(e)
  }

  lemma MarkerIsCurrent(s: State, c: ClientId)
    requires c in s.clients
    ensures var current := GroupKeyStore.GetCurrentEpoch(s.clients[c].storage, s.conv);
            current.Some? ==> MarkerIs(s, c, current.value)
  {
  }

  predicate SendsUnder(s: State, c: ClientId, e: int, key: SymKey)
    requires c in s.clients
  {
    MarkerIs(s, c, e) && Keeps(s, c, e, key)
  }

  /**
   In every run, composing adds one text to the outbox, the one that was typed, named for the
   epoch the client's marker names and sealed under the key stored there; nothing else changes.
   */
  lemma ComposedUnderTheMarker(states: seq<State>, actions: seq<Action>, n: nat) returns (rec: Record)
    requires IsRun(states, actions) && Initial(states[0]) && n < |actions| && actions[n].Compose?
    ensures var c, s, s' := actions[n].c, states[n], states[n + 1];
            && c in s.clients && c in s'.clients
            && s' == s.(clients := s.clients[c := s.clients[c].(outbox := s.clients[c].outbox + {rec})])
            && rec.Content? && rec.message.ciphertext.plaintext == actions[n].text
            && SendsUnder(s, c, rec.epoch, rec.message.ciphertext.key)
  {
    assert Step(states[n], actions[n], states[n + 1]);
    rec := Composed(states[n], actions[n]);
  }

  /** The client gets another key of epoch `e` or above, or forgets the conversation's keys. */
  predicate Disturbs(s: State, a: Action, c: ClientId, e: int) {
    a.c == c &&
    match a
    case Forget(_) => true
    case Distribute(_, _, previousEpoch, _, _, _, _) => previousEpoch + 1 >= e
    case Process(_, i) => i < |s.log| && s.log[i].KeyRecord? && s.log[i].dist.epoch >= e
    case _ => false
  }

  predicate StillSendsUnder(s: State, c: ClientId, e: int, key: SymKey) {
    c in s.clients && SendsUnder(s, c, e, key)
  }

  lemma SendingKeyStays(states: seq<State>, actions: seq<Action>, from: nat, to: nat, c: ClientId, e: int, key: SymKey)
    requires IsRun(states, actions) && from <= to < |states| && StillSendsUnder(states[from], c, e, key)
    requires forall i :: from <= i < to ==> !Disturbs(states[i], actions[i], c, e)
    ensures StillSendsUnder(states[to], c, e, key)
  {
    forall s, a, s' | StillSendsUnder(s, c, e, key) && Step(s, a, s') && !Disturbs(s, a, c, e)
      ensures StillSendsUnder(s', c, e, key)
    {
      UndisturbedStep(s, a, s', c, e, key);
    }
    Runs.InvariantWhile(Step, s => StillSendsUnder(s, c, e, key), (s, a) => !Disturbs(s, a, c, e),
                        states, actions, from, to);
  }

  lemma UndisturbedStep(s: State, a: Action, s': State, c: ClientId, e: int, key: SymKey)
    requires Step(s, a, s') && c in s.clients && SendsUnder(s, c, e, key) && !Disturbs(s, a, c, e)
    ensures c in s'.clients && SendsUnder(s', c, e, key)
  {
  }

  /** A step that stores a key of an epoch above the client's marker makes it the one to send under. */
  lemma NewestKeyIsSentUnder(s: State, a: Action, s': State, c: ClientId, e: int, key: SymKey)
    requires Step(s, a, s') && c in s.clients && c in s'.clients
    requires (forall m :: MarkerIs(s, c, m) ==> m < e) && !Keeps(s, c, e, key) && Keeps(s', c, e, key)
    ensures SendsUnder(s', c, e, key)
  {
    MarkerIsCurrent(s, c);
  }

  /**
   In every run: after a client stores a key of an epoch above its marker, every text it composes is
   sealed under that key, for that epoch, until it forgets the conversation or gets another key of
   that epoch or above.
   */
  lemma TextsUseTheNewestKey(states: seq<State>, actions: seq<Action>, k: nat, n: nat, c: ClientId, e: int, key: SymKey)
    returns (rec: Record)
    requires IsRun(states, actions) && Initial(states[0]) && k < n < |actions|
    requires c in states[k].clients && c in states[k + 1].clients
    requires (forall m :: MarkerIs(states[k], c, m) ==> m < e) && !Keeps(states[k], c, e, key)
             && Keeps(states[k + 1], c, e, key)
    requires forall i :: k < i < n ==> !Disturbs(states[i], actions[i], c, e)
    requires actions[n].Compose? && actions[n].c == c
    ensures c in states[n].clients && c in states[n + 1].clients
    ensures states[n + 1].clients[c].outbox == states[n].clients[c].outbox + {rec}
    ensures rec.Content? && rec.epoch == e && rec.message.ciphertext.key == key
  {
    NewestKeyIsSentUnder(states[k], actions[k], states[k + 1], c, e, key);
    SendingKeyStays(states, actions, k + 1, n, c, e, key);
    rec := ComposedUnderTheMarker(states, actions, n);
  }

  // ---- What the comments promise beyond that ---------------------------------------

  /** Prolongs a run by one enabled action. */
  lemma Extend(states: seq<State>, actions: seq<Action>, a: Action)
    returns (states': seq<State>, actions': seq<Action>)
    requires IsRun(states, actions) && Enabled(states[|actions|], a)
    ensures IsRun(states', actions') && states' == states + [Next(states[|actions|], a)] && actions' == actions + [a]
  {
    states', actions' := Runs.Extend(Step, states, actions, a, Next(states[|actions|], a));
  }

  /** The identity of client and user `n` in the run below. */
  function IdentityOf(n: nat): Identity {
    Identity(Decimal.Digits(n), KemPrivate(n), SigPrivate(n))
  }

  /** Client `n`, of user `n`, with its identity published, has obtained at least `lists`. */
  predicate Ready(s: State, n: nat, lists: set<Listing>) {
    && n in s.clients && s.clients[n].user == n && s.clients[n].identity == Some(IdentityOf(n))
    && lists <= s.clients[n].fetched
    && IdentityOf(n).keyId in s.directory && s.directory[IdentityOf(n).keyId] == PublicPart(n, IdentityOf(n))
  }

  lemma PublishReady(s: State, n: nat)
    requires n in s.clients && s.clients[n] == Client(n, None, {}, map[], {}, 0)
    requires IdentityOf(n).keyId !in s.directory
    ensures Enabled(s, Publish(n, IdentityOf(n)))
    ensures var s' := Next(s, Publish(n, IdentityOf(n)));
            && Ready(s', n, {})
            && s' == s.(clients := s'.clients, directory := s'.directory)
            && s'.directory.Keys == s.directory.Keys + {IdentityOf(n).keyId}
            && (forall m <- s.clients :: m != n ==> m in s'.clients && s'.clients[m] == s.clients[m])
            && (forall id <- s.directory :: s'.directory[id] == s.directory[id])
  {
  }

  lemma DistinctIdentities()
    ensures IdentityOf(0).keyId != IdentityOf(1).keyId && IdentityOf(0).keyId != IdentityOf(2).keyId
    ensures IdentityOf(1).keyId != IdentityOf(2).keyId
  {
  }

  lemma ThreePublish(start: State) returns (states: seq<State>, actions: seq<Action>)
    requires Initial(start)
    requires forall n :: 0 <= n < 3 ==> n in start.clients && start.clients[n].user == n
    ensures IsRun(states, actions) && states[0] == start && |actions| == 3
    ensures var s := states[3];
            && s.admin == None && s.history == [{}] && s.origins == map[] && s.log == []
            && Ready(s, 0, {}) && Ready(s, 1, {}) && Ready(s, 2, {})
  {
    DistinctIdentities();
    states, actions := [start], [];
    PublishReady(start, 0);
    states, actions := Extend(states, actions, Publish(0, IdentityOf(0)));
    PublishReady(states[1], 1);
    states, actions := Extend(states, actions, Publish(1, IdentityOf(1)));
    PublishReady(states[2], 2);
    states, actions := Extend(states, actions, Publish(2, IdentityOf(2)));
  }

  /** Client 1 has fetched the list of all three, and then user 2 was removed. */
  predicate Removed2(s: State) {
    && s.admin == Some(0) && s.active == {0, 1} && s.history == [{}, {0, 1, 2}, {0, 1}]
    && s.origins == map[] && s.log == []
    && Ready(s, 0, {}) && Ready(s, 1, {Listing({0, 1, 2}, 1)}) && Ready(s, 2, {})
  }

  lemma RemoveAfterListing(before: seq<State>, done: seq<Action>) returns (states: seq<State>, actions: seq<Action>)
    requires IsRun(before, done)
    requires var s := before[|done|];
             && s.admin == None && s.history == [{}] && s.origins == map[] && s.log == []
             && Ready(s, 0, {}) && Ready(s, 1, {}) && Ready(s, 2, {})
    ensures IsRun(states, actions) && |actions| == |done| + 3 && before <= states
    ensures Removed2(states[|actions|])
  {
    var s := before[|done|];
    var n := |done|;
    assert 1 in {1, 2} - {0};
    assert {1, 2} + {0} == {0, 1, 2} && {0, 1, 2} - {2} == {0, 1};
    states, actions := Extend(before, done, CreateGroup(0, {1, 2}));
    states, actions := Extend(states, actions, Refresh(1));
    states, actions := Extend(states, actions, RemoveMember(0, 2));
  }

  lemma RekeyFromStaleList(before: seq<State>, done: seq<Action>) returns (states: seq<State>, actions: seq<Action>)
    requires IsRun(before, done) && Removed2(before[|done|])
    ensures IsRun(states, actions) && |actions| == |done| + 2 && before <= states && done <= actions
    ensures actions[|done|].Distribute? && actions[|done|].draw == 7
    ensures var s := states[|actions|];
            && s.admin == Some(0) && s.active == {0, 1} && Ready(s, 0, {}) && Ready(s, 2, {})
            && 7 in s.origins
            && |s.log| == 1 && s.log[0].KeyRecord?
            && AcceptKeyDistribution(s.log[0].dist, IdentityOf(2).keyId, KemPrivate(2)) == Some(RandomKey(7))
  {
    DistinctIdentities();
    var s := before[|done|];
    var id0, id2 := IdentityOf(0).keyId, IdentityOf(2).keyId;
    var recipients := [Recipient(id0, KemPublic(0)), Recipient(id2, KemPublic(2))];
    var keyWraps := map[id0 := WrapEpochKey(RandomKey(7), KemPublic(0), 0),
                        id2 := WrapEpochKey(RandomKey(7), KemPublic(2), 1)];
    TwoWraps(recipients, keyWraps);
    assert Owners(s, recipients) == {0, 2} by {
      assert recipients[0] in recipients && recipients[1] in recipients;
    }
    assert {0, 1, 2} - {1} == {0, 2};
    var rekey := Distribute(1, Listing({0, 1, 2}, 1), 1, recipients, keyWraps, 7, 0);
    states, actions := Extend(before, done, rekey);
    states, actions := Extend(states, actions, Post(1, Distributed(s, rekey)));
  }

  lemma TwoWraps(recipients: seq<Recipient>, keyWraps: map<string, EpochKeyWrap>)
    requires |recipients| == 2 && recipients[0].identityKeyId != recipients[1].identityKeyId
    requires keyWraps == map[recipients[0].identityKeyId := WrapEpochKey(RandomKey(7), recipients[0].kemPublicKey, 0),
                             recipients[1].identityKeyId := WrapEpochKey(RandomKey(7), recipients[1].kemPublicKey, 1)]
    ensures WrapsKeyFor(keyWraps, RandomKey(7), recipients)
  {
  }

  lemma RejoinAndCatchUp(before: seq<State>, done: seq<Action>) returns (states: seq<State>, actions: seq<Action>)
    requires IsRun(before, done)
    requires var s := before[|done|];
             && s.admin == Some(0) && s.active == {0, 1} && Ready(s, 0, {}) && Ready(s, 2, {})
             && |s.log| == 1 && s.log[0].KeyRecord?
             && AcceptKeyDistribution(s.log[0].dist, IdentityOf(2).keyId, KemPrivate(2)) == Some(RandomKey(7))
    ensures IsRun(states, actions) && |actions| == |done| + 3 && before <= states && done <= actions
    ensures 2 in states[|actions|].clients && Holds(states[|actions|], 2, 7)
  {
    states, actions := Extend(before, done, AddMember(0, 2));
    states, actions := Extend(states, actions, Receive(2));
    var s := states[|actions|];
    states, actions := Extend(states, actions, Process(2, 0));
    SetKeyStoreHolds(s.clients[2].storage, s.conv, s.log[0].dist.epoch, RandomKey(7), s.log[0].dist.epoch);
  }

  /**
   It is the fetch that counts, not the distribution. Client 1 lists the group, user 2 is
   removed, and client 1 re-keys from the list it still has: the key, created while user 2
   is out, is wrapped for user 2 too, who picks it up after being re-admitted.
   */
  lemma StaleListReachesTheGap(start: State) returns (states: seq<State>, actions: seq<Action>)
    requires Initial(start)
    requires forall n :: 0 <= n < 3 ==> n in start.clients && start.clients[n].user == n
    ensures IsRun(states, actions) && states[0] == start && |actions| == 11
    ensures 2 !in states[6].active && actions[6].Distribute? && actions[6].draw == 7
    ensures 2 in states[11].clients && Holds(states[11], 2, 7)
  {
    states, actions := ThreePublish(start);
    states, actions := RemoveAfterListing(states, actions);
    states, actions := RekeyFromStaleList(states, actions);
    states, actions := RejoinAndCatchUp(states, actions);
  }
}
