/**
 Runs of a 1:1 conversation: two browsers that look keys up, seal, post, open, back up and lose
 their storage, each step one stretch between awaits, and what their sides can read and agree on.
 */
module DirectRuns {
  import opened Wrappers
  import opened SymbolicCrypto
  import opened DirectKeys
  import Runs

  datatype Outbound = Outbound(message: Message, text: string)

  /**
   One side. Work under way may rest on anything found earlier: `fetched` are the backups read
   from the server, `resolved` the keys look-ups ended with, `ended` the keys sends and receipts
   ended with and may still back up; `outgoing` is the message sealed and not yet posted.
   */
  datatype Client = Client(
    device: Device, fetched: set<Option<Backup>>, resolved: set<Option<SymKey>>, ended: set<SymKey>,
    outgoing: Option<Outbound>)

  /** An encapsulation made during the run. */
  datatype Keying = Keying(initiator: Side, key: SymKey)

  /** `texts` is what was typed for each message of the log. */
  datatype State = State(alice: Client, bob: Client, log: seq<Message>, texts: seq<string>, keyings: seq<Keying>) {
    function At(side: Side): Client { if side.Alice? then alice else bob }

    function With(side: Side, c: Client): State { if side.Alice? then this.(alice := c) else this.(bob := c) }
  }

  datatype Action =
    | Lookup(side: Side)
    | FinishLookup(side: Side, backup: Option<Backup>)
    | SealText(side: Side, existing: Option<SymKey>, text: string, coins: nat, nonce: nat)
    | Post(side: Side, delivered: bool)
    | OpenOne(side: Side, existing: Option<SymKey>, i: nat)
    | BackUp(side: Side, key: SymKey, nonce: nat)
    | ClearLocal(side: Side)

  predicate Enabled(s: State, a: Action) {
    var c := s.At(a.side);
    match a
    case Lookup(_) => true
    case FinishLookup(_, backup) => backup in c.fetched
    case SealText(_, existing, _, _, _) => existing in c.resolved && c.outgoing.None?
    case Post(_, _) => c.outgoing.Some?
    case OpenOne(_, existing, i) => existing in c.resolved && i < |s.log|
    case BackUp(_, key, _) => key in c.ended && c.device.me.wrapKey.Some?
    case ClearLocal(_) => true
  }

  /** The key in a fetched backup. */
  function Recovered(d: Device, backup: Option<Backup>): Option<SymKey> {
    if d.me.wrapKey.None? || backup.None? then None else UnwrapBackup(d.me.wrapKey.value, backup.value, d.conv)
  }

  function AfterLookup(c: Client): Client {
    if c.device.local.Some? then c.(resolved := c.resolved + {c.device.local})
    else c.(fetched := c.fetched + {if c.device.me.wrapKey.None? then None else c.device.backup})
  }

  /** A recovered key is stored whatever has been stored meanwhile. */
  function AfterRecovery(c: Client, backup: Option<Backup>): Client {
    var key := Recovered(c.device, backup);
    c.(device := if key.Some? then c.device.(local := key) else c.device, resolved := c.resolved + {key})
  }

  /** A new key is stored unless another one has been stored meanwhile. */
  function AfterSealing(c: Client, existing: Option<SymKey>, text: string, coins: nat, nonce: nat): Client {
    var (m, key) := Outgoing(c.device, text, existing, coins, nonce);
    c.(device := if existing.Some? || c.device.local.None? then c.device.(local := Some(key)) else c.device,
       ended := if existing.None? then c.ended + {key} else c.ended,
       outgoing := Some(Outbound(m, text)))
  }

  function AfterOpening(c: Client, m: Message, existing: Option<SymKey>): Client {
    var accepted := if m.sender == c.device.side then {}
                    else match Incoming(c.device, m, existing)
                      case Ok((_, key)) => {key}
                      case Err(_) => {};
    c.(device := OpenWith(c.device, m, existing).1, ended := c.ended + accepted)
  }

  function Next(s: State, a: Action): State
    requires Enabled(s, a)
  {
    var c := s.At(a.side);
    match a
    case Lookup(side) => s.With(side, AfterLookup(c))
    case FinishLookup(side, backup) => s.With(side, AfterRecovery(c, backup))
    case SealText(side, existing, text, coins, nonce) =>
      var key := Outgoing(c.device, text, existing, coins, nonce).1;
      s.With(side, AfterSealing(c, existing, text, coins, nonce))
      .(keyings := if existing.None? then s.keyings + [Keying(side, key)] else s.keyings)
    case Post(side, delivered) =>
      var out := c.outgoing.value;
      var s' := s.With(side, c.(outgoing := None));
      if delivered then s'.(log := s.log + [out.message], texts := s.texts + [out.text]) else s'
    case OpenOne(side, existing, i) => s.With(side, AfterOpening(c, s.log[i], existing))
    case BackUp(side, key, nonce) =>
      var d := c.device;
      s.With(side, c.(device := d.(backup := Some(WrapBackup(d.me.wrapKey.value, key, d.conv, nonce)))))
    case ClearLocal(side) => s.With(side, c.(device := c.device.(local := None)))
  }

  /** Nothing known and nothing under way. */
  predicate Blank(c: Client) {
    && c.device.local == None && c.device.backup == None
    && c.fetched <= {None} && c.resolved <= {None} && c.ended == {} && c.outgoing == None
  }

  predicate Initial(s: State) {
    && Wired(s) && Blank(s.alice) && Blank(s.bob)
    && s.log == [] && s.texts == [] && s.keyings == []
  }

  predicate Step(s: State, a: Action, s': State) {
    Enabled(s, a) && s' == Next(s, a)
  }

  ghost predicate IsRun(states: seq<State>, actions: seq<Action>) {
    Runs.IsRun(Step, states, actions) && Initial(states[0])
  }

  // ---- Every run ---------------------------------------------------------------------

  predicate Wired(s: State) {
    s.alice.device.side == Alice && s.bob.device.side == Bob && Paired(s.alice.device, s.bob.device)
  }

  /** `m` was sealed by its sender, and a KEM ciphertext in it establishes its own key for the other side. */
  predicate Authored(s: State, m: Message) {
    var author := s.At(m.sender).device;
    && m.senderKeyId == author.me.keyId && m.envelope.sig.Some?
    && (m.ciphertext, m.envelope.sig.value) ==
       Seal(m.ciphertext.key, m.ciphertext.plaintext, author.me, author.conv, m.envelope.nonce)
    && (m.envelope.kem.Some? ==>
          var kem := m.envelope.kem.value;
          && kem.recipient == s.At(m.sender.Peer()).device.me.kem.Public()
          && m.ciphertext.key == DerivedKey(Shared(kem.recipient, kem.coins), MessagePurpose))
  }

  predicate OutgoingHolds(s: State, side: Side) {
    var out := s.At(side).outgoing;
    out.Some? ==> out.value.message.sender == side && Authored(s, out.value.message)
                  && out.value.text == out.value.message.ciphertext.plaintext
  }

  predicate LogHolds(s: State) {
    && |s.texts| == |s.log|
    && forall i :: 0 <= i < |s.log| ==> Authored(s, s.log[i]) && s.texts[i] == s.log[i].ciphertext.plaintext
  }

  predicate Sealed(s: State) {
    Wired(s) && OutgoingHolds(s, Alice) && OutgoingHolds(s, Bob) && LogHolds(s)
  }

  /** Who the sides are never changes. */
  predicate SameOwners(s: State, s': State) {
    forall side: Side ::
      && s'.At(side).device.side == s.At(side).device.side && s'.At(side).device.conv == s.At(side).device.conv
      && s'.At(side).device.me == s.At(side).device.me && s'.At(side).device.peer == s.At(side).device.peer
  }

  lemma StepKeepsOwners(s: State, a: Action)
    requires Enabled(s, a)
    ensures SameOwners(s, Next(s, a))
  {
  }

  lemma AuthoredPersists(s: State, s': State, m: Message)
    requires SameOwners(s, s') && Authored(s, m)
    ensures Authored(s', m)
  {
  }

  lemma SealedTextIsAuthored(s: State, a: Action)
    requires Sealed(s) && Enabled(s, a) && a.SealText?
    ensures OutgoingHolds(Next(s, a), a.side)
  {
    StepKeepsOwners(s, a);
  }

  lemma StepKeepsLog(s: State, a: Action)
    requires Sealed(s) && Enabled(s, a)
    ensures LogHolds(Next(s, a))
  {
    var s' := Next(s, a);
    StepKeepsOwners(s, a);
    forall m | Authored(s, m) ensures Authored(s', m) {
      AuthoredPersists(s, s', m);
    }
  }

  lemma StepKeepsOutgoing(s: State, a: Action, side: Side)
    requires Sealed(s) && Enabled(s, a)
    ensures OutgoingHolds(Next(s, a), side)
  {
    StepKeepsOwners(s, a);
    if a.SealText? && a.side == side {
      SealedTextIsAuthored(s, a);
    } else if s.At(side).outgoing.Some? {
      AuthoredPersists(s, Next(s, a), s.At(side).outgoing.value.message);
    }
  }

  lemma StepKeepsSealed(s: State, a: Action)
    requires Sealed(s) && Enabled(s, a)
    ensures Sealed(Next(s, a))
  {
    StepKeepsOwners(s, a);
    StepKeepsOutgoing(s, a, Alice);
    StepKeepsOutgoing(s, a, Bob);
    StepKeepsLog(s, a);
  }

  /** In every run, every message of the log is what its sender sealed for what was typed. */
  lemma RunIsSealed(states: seq<State>, actions: seq<Action>, n: nat)
    requires IsRun(states, actions) && n < |states|
    ensures Sealed(states[n])
  {
    forall s, a, s' | Sealed(s) && Step(s, a, s') ensures Sealed(s') {
      StepKeepsSealed(s, a);
    }
    Runs.Invariant(Step, Sealed, states, actions, 0, n);
  }

  predicate PeerKeying(side: Side, m: Message) {
    m.sender != side && m.envelope.kem.Some?
  }

  /** Whether `side`, having found `existing`, opens `m`. */
  predicate Opens(side: Side, m: Message, existing: Option<SymKey>) {
    PeerKeying(side, m) || existing == Some(m.ciphertext.key)
  }

  /** Opening an authored message: when it succeeds, with what, and which key is stored then. */
  lemma OpensExactly(s: State, side: Side, d: Device, m: Message, existing: Option<SymKey>)
    requires Wired(s) && Authored(s, m) && d == s.At(side).device.(local := d.local)
    ensures var (result, d') := OpenWith(d, m, existing);
            && (if Opens(side, m, existing) then result == Ok(m.ciphertext.plaintext) else result.Err?)
            && d' == if Opens(side, m, existing) && m.sender != side then d.(local := Some(m.ciphertext.key)) else d
  {
  }

  /**
   In every run, however many encapsulations it has, a message opens on receipt, to the very text
   that was sent, exactly if it is the peer's keying message or the key found is the one it was
   sealed under.
   */
  lemma OpensOnReceipt(states: seq<State>, actions: seq<Action>, n: nat, side: Side, i: nat)
    requires IsRun(states, actions) && n < |states| && i < |states[n].log|
    ensures var s := states[n];
            var d := s.At(side).device;
            && i < |s.texts|
            && var result := OpenFor(d, s.log[i]).0;
               if Opens(side, s.log[i], Resolve(d)) then result == Ok(s.texts[i]) else result.Err?
  {
    RunIsSealed(states, actions, n);
    var s := states[n];
    var d := s.At(side).device;
    OpensExactly(s, side, d.(local := Resolve(d)), s.log[i], Resolve(d));
  }

  // ---- The stored key ------------------------------------------------------------------

  /**
   What a step does to the key `side` has stored. A key found for a send is stored again; a new one
   only if none has been stored since the look-up; a recovered one whatever is stored; an opened
   message of the peer stores its own; clearing removes it; nothing else touches it.
   */
  function StoredNext(s: State, a: Action, s': State, side: Side): Option<SymKey>
    requires a.OpenOne? ==> a.i < |s.log|
  {
    var local, d := s.At(side).device.local, s.At(side).device;
    if a.side != side then local
    else
      match a
      case SealText(_, Some(key), _, _, _) => Some(key)
      case SealText(_, None, _, _, _) =>
        if local.Some? then local else if s'.keyings == [] then None else Some(s'.keyings[|s'.keyings| - 1].key)
      case FinishLookup(_, Some(backup)) =>
        if d.me.wrapKey.None? || UnwrapBackup(d.me.wrapKey.value, backup, d.conv).None? then local
        else UnwrapBackup(d.me.wrapKey.value, backup, d.conv)
      case OpenOne(_, existing, i) =>
        var m := s.log[i];
        if m.sender != side && (m.envelope.kem.Some? || existing == Some(m.ciphertext.key))
        then Some(m.ciphertext.key) else local
      case ClearLocal(_) => None
      case _ => local
  }

  /** In every run, at every step: in particular a key stored while a first message was being sealed stays. */
  lemma StoredKeyChangesExactlySo(states: seq<State>, actions: seq<Action>, n: nat, side: Side)
    requires IsRun(states, actions) && n < |actions|
    ensures actions[n].OpenOne? ==> actions[n].i < |states[n].log|
    ensures states[n + 1].At(side).device.local == StoredNext(states[n], actions[n], states[n + 1], side)
  {
    assert Step(states[n], actions[n], states[n + 1]);
    RunIsSealed(states, actions, n);
    if actions[n].OpenOne? && actions[n].side == side {
      OpensExactly(states[n], side, states[n].At(side).device, states[n].log[actions[n].i], actions[n].existing);
    }
  }

  /** A backed-up key survives the loss of local storage, until another is backed up. */
  lemma {:induction false} BackedUpKeySurvives(states: seq<State>, actions: seq<Action>, k: nat, n: nat, side: Side)
    requires IsRun(states, actions) && k < n < |states| && actions[k].BackUp? && actions[k].side == side
    requires forall i :: k < i < n ==> !(actions[i].BackUp? && actions[i].side == side)
    ensures Resolve(states[n].At(side).device.(local := None)) == Some(actions[k].key)
  {
    assert Step(states[n - 1], actions[n - 1], states[n]);
    StepKeepsOwners(states[n - 1], actions[n - 1]);
    if k < n - 1 {
      BackedUpKeySurvives(states, actions, k, n - 1, side);
      OtherStepsKeepBackup(states[n - 1], actions[n - 1], side);
    }
  }

  lemma OtherStepsKeepBackup(s: State, a: Action, side: Side)
    requires Enabled(s, a) && !(a.BackUp? && a.side == side)
    ensures Next(s, a).At(side).device.backup == s.At(side).device.backup
  {
  }

  // ---- Replaying the history -----------------------------------------------------------

  /** The key in hand when entry `n` has its turn: the last peer keying's before it, else `existing`. */
  function InHand(existing: Option<SymKey>, side: Side, log: seq<Message>, n: nat): Option<SymKey>
    requires n <= |log|
  {
    if n == 0 then existing
    else if PeerKeying(side, log[n - 1]) then Some(log[n - 1].ciphertext.key)
    else InHand(existing, side, log, n - 1)
  }

  /** How far a replay has come after `n` messages. */
  predicate ReadSoFar(s: State, side: Side, n: nat, results: seq<Result<string, OpenError>>, d: Device)
    requires n <= |s.log| && n <= |s.texts|
  {
    var start := s.At(side).device;
    && |results| == n && d == start.(local := d.local)
    && Resolve(d) == InHand(Resolve(start), side, s.log, n)
    && forall i :: 0 <= i < n ==> ReadAs(s, side, i, results[i])
  }

  /** Entry `i` read as the key in hand by its turn says. */
  predicate ReadAs(s: State, side: Side, i: nat, result: Result<string, OpenError>)
    requires i < |s.log| && i < |s.texts|
  {
    var key := InHand(Resolve(s.At(side).device), side, s.log, i);
    if Opens(side, s.log[i], key) then result == Ok(s.texts[i]) else result.Err?
  }

  /** Opening one more message moves the key in hand on. */
  lemma HandMovesOn(s: State, side: Side, d: Device, m: Message)
    requires Wired(s) && Authored(s, m) && d == s.At(side).device.(local := d.local)
    ensures var (result, d') := OpenFor(d, m);
            && d' == d.(local := d'.local)
            && Resolve(d') == (if PeerKeying(side, m) then Some(m.ciphertext.key) else Resolve(d))
            && if Opens(side, m, Resolve(d)) then result == Ok(m.ciphertext.plaintext) else result.Err?
  {
    OpensExactly(s, side, d.(local := Resolve(d)), m, Resolve(d));
  }

  lemma ReadOneMore(s: State, side: Side, n: nat, results: seq<Result<string, OpenError>>, d: Device)
    requires Wired(s) && n < |s.log| && n < |s.texts| && ReadSoFar(s, side, n, results, d)
    requires Authored(s, s.log[n]) && s.texts[n] == s.log[n].ciphertext.plaintext
    ensures var (result, d') := OpenFor(d, s.log[n]); ReadSoFar(s, side, n + 1, results + [result], d')
  {
    HandMovesOn(s, side, d, s.log[n]);
    var (result, _) := OpenFor(d, s.log[n]);
    assert ReadAs(s, side, n, result);
  }

  lemma {:induction false} ReplayPrefix(s: State, side: Side, n: nat)
    requires Sealed(s) && n <= |s.log|
    ensures var (results, d) := ReplayAll(s.At(side).device, s.log[..n]); ReadSoFar(s, side, n, results, d)
  {
    if n > 0 {
      ReplayPrefix(s, side, n - 1);
      assert s.log[..n][..n - 1] == s.log[..n - 1];
      var (results, d) := ReplayAll(s.At(side).device, s.log[..n - 1]);
      ReadOneMore(s, side, n - 1, results, d);
    }
  }

  /**
   In every run, with any number of encapsulations: replaying the history opens entry `i`, to the
   text that was sent, exactly if it is the peer's keying message or the key in hand by its turn
   is the one it was sealed under; afterwards the side resolves the key in hand at the end.
   */
  lemma ReplayOpensExactly(states: seq<State>, actions: seq<Action>, n: nat, side: Side)
    requires IsRun(states, actions) && n < |states|
    ensures var s := states[n];
            && |s.texts| == |s.log|
            && var (results, d) := ReplayAll(s.At(side).device, s.log);
               ReadSoFar(s, side, |s.log|, results, d)
  {
    RunIsSealed(states, actions, n);
    ReplayPrefix(states[n], side, |states[n].log|);
    assert states[n].log[..|states[n].log|] == states[n].log;
  }

  // ---- When the two sides agree ---------------------------------------------------------

  /** The last keying message `side` has posted. */
  function LastKeying(log: seq<Message>, side: Side): Option<Message> {
    if log == [] then None
    else
      var m := log[|log| - 1];
      if m.sender == side && m.envelope.kem.Some? then Some(m) else LastKeying(log[..|log| - 1], side)
  }

  lemma {:induction false} InHandAtTheEnd(existing: Option<SymKey>, side: Side, log: seq<Message>, n: nat)
    requires n <= |log|
    ensures InHand(existing, side, log, n) ==
            match LastKeying(log[..n], side.Peer())
            case None => existing
            case Some(m) => Some(m.ciphertext.key)
  {
    if n > 0 {
      assert log[..n][..n - 1] == log[..n - 1];
      InHandAtTheEnd(existing, side, log, n - 1);
    }
  }

  lemma {:induction false} LastKeyingIsPosted(log: seq<Message>, side: Side)
    ensures var last := LastKeying(log, side);
            last.Some? ==> last.value in log && last.value.sender == side && last.value.envelope.kem.Some?
  {
    if log != [] {
      LastKeyingIsPosted(log[..|log| - 1], side);
    }
  }

  /**
   Whether the sides agree once both have replayed. With no keying message posted, exactly if they
   resolve the same; with one side's only, exactly if that side still resolves the key of its
   last one; with both sides', exactly if the last ones carry the same KEM ciphertext.
   */
  predicate AgreeIf(s: State) {
    var a, b := Resolve(s.alice.device), Resolve(s.bob.device);
    match LastKeying(s.log, Alice)
    case None => (match LastKeying(s.log, Bob)
                  case None => a == b
                  case Some(y) => b == Some(y.ciphertext.key))
    case Some(x) => (match LastKeying(s.log, Bob)
                     case None => a == Some(x.ciphertext.key)
                     case Some(y) => x.envelope.kem == y.envelope.kem)
  }

  predicate BothKeyed(s: State) {
    LastKeying(s.log, Alice).Some? && LastKeying(s.log, Bob).Some?
  }

  /** What `side` resolves after replaying the whole history. */
  function AfterReplay(s: State, side: Side): Option<SymKey> {
    Resolve(ReplayAll(s.At(side).device, s.log).1)
  }

  lemma AfterReplayIs(states: seq<State>, actions: seq<Action>, n: nat, side: Side)
    requires IsRun(states, actions) && n < |states|
    ensures AfterReplay(states[n], side) ==
            match LastKeying(states[n].log, side.Peer())
            case None => Resolve(states[n].At(side).device)
            case Some(m) => Some(m.ciphertext.key)
  {
    ReplayOpensExactly(states, actions, n, side);
    var s := states[n];
    InHandAtTheEnd(Resolve(s.At(side).device), side, s.log, |s.log|);
    assert s.log[..|s.log|] == s.log;
  }

  /**
   In every run: after both sides replay the history they resolve the same if and only if
   `AgreeIf` holds. In particular, once both have posted a keying message, replaying never brings
   them together: for two different KEM keys the two ciphertexts are never the same.
   */
  lemma SidesAgreeAfterReplayIff(states: seq<State>, actions: seq<Action>, n: nat)
    requires IsRun(states, actions) && n < |states|
    ensures var s := states[n];
            && (AfterReplay(s, Alice) == AfterReplay(s, Bob) <==> AgreeIf(s))
            && (BothKeyed(s) && s.alice.device.me.kem.Public() != s.bob.device.me.kem.Public() ==> !AgreeIf(s))
  {
    AfterReplayIs(states, actions, n, Alice);
    AfterReplayIs(states, actions, n, Bob);
    RunIsSealed(states, actions, n);
    var s := states[n];
    LastKeyingIsPosted(s.log, Alice);
    LastKeyingIsPosted(s.log, Bob);
  }

  // ---- Runs with at most one encapsulation ---------------------------------------------------

  predicate OnlyKeyIs(c: Client, key: SymKey) {
    && c.device.local in {None, Some(key)} && Recovered(c.device, c.device.backup) in {None, Some(key)}
    && (forall backup <- c.fetched :: Recovered(c.device, backup) in {None, Some(key)})
    && c.resolved <= {None, Some(key)} && c.ended <= {key}
  }

  /** A message of the one key; it carries the encapsulation only if the initiator sent it first of all. */
  predicate OfKey(m: Message, k: Keying, first: bool) {
    m.ciphertext.key == k.key && (m.envelope.kem.Some? ==> first && m.sender == k.initiator)
  }

  /** A message under way is of the one key; while it carries the encapsulation, the peer has nothing. */
  predicate OutgoingIsOf(s: State, side: Side, k: Keying) {
    var out := s.At(side).outgoing;
    out.Some? ==> OfKey(out.value.message, k, s.log == [] && side == k.initiator && Blank(s.At(side.Peer())))
  }

  predicate OneKey(s: State, k: Keying) {
    && OnlyKeyIs(s.alice, k.key) && OnlyKeyIs(s.bob, k.key)
    && OutgoingIsOf(s, Alice, k) && OutgoingIsOf(s, Bob, k)
    && forall i :: 0 <= i < |s.log| ==> OfKey(s.log[i], k, i == 0)
  }

  predicate AtMostOneKey(s: State) {
    && Sealed(s)
    && (|s.keyings| == 0 ==> Blank(s.alice) && Blank(s.bob) && s.log == [])
    && (|s.keyings| == 1 ==> OneKey(s, s.keyings[0]))
  }

  lemma BlankStays(s: State, a: Action)
    requires Enabled(s, a) && Blank(s.At(a.side)) && s.log == [] && !a.SealText?
    ensures Blank(Next(s, a).At(a.side))
  {
  }

  lemma FirstSealKeepsOneKey(s: State, a: Action)
    requires AtMostOneKey(s) && Enabled(s, a) && a.SealText? && |s.keyings| == 0
    ensures |Next(s, a).keyings| == 1 && OneKey(Next(s, a), Next(s, a).keyings[0])
  {
  }

  lemma SealKeepsOneKey(s: State, a: Action)
    requires AtMostOneKey(s) && Enabled(s, a) && a.SealText? && |s.keyings| == 1 && a.existing.Some?
    ensures OneKey(Next(s, a), s.keyings[0])
  {
  }

  lemma OpenKeepsOneKey(s: State, a: Action)
    requires AtMostOneKey(s) && Enabled(s, a) && a.OpenOne? && |s.keyings| == 1
    ensures OneKey(Next(s, a), s.keyings[0])
  {
    OpensExactly(s, a.side, s.At(a.side).device, s.log[a.i], a.existing);
    assert OfKey(s.log[a.i], s.keyings[0], a.i == 0);
  }

  lemma PostKeepsOneKey(s: State, a: Action)
    requires AtMostOneKey(s) && Enabled(s, a) && a.Post? && |s.keyings| == 1
    ensures OneKey(Next(s, a), s.keyings[0])
  {
  }

  /** Looking up, recovering, backing up and clearing bring no other key, and seal nothing. */
  lemma QuietStepKeepsKey(s: State, a: Action, key: SymKey)
    requires Enabled(s, a) && OnlyKeyIs(s.At(a.side), key)
    requires a.Lookup? || a.FinishLookup? || a.BackUp? || a.ClearLocal?
    ensures OnlyKeyIs(Next(s, a).At(a.side), key)
    ensures var s' := Next(s, a);
            && s'.At(a.side).outgoing == s.At(a.side).outgoing && s'.At(a.side.Peer()) == s.At(a.side.Peer())
            && s'.log == s.log && s'.keyings == s.keyings
  {
  }

  lemma QuietStepKeepsOneKey(s: State, a: Action)
    requires AtMostOneKey(s) && Enabled(s, a) && |s.keyings| == 1
    requires a.Lookup? || a.FinishLookup? || a.BackUp? || a.ClearLocal?
    ensures OneKey(Next(s, a), s.keyings[0])
  {
    QuietStepKeepsKey(s, a, s.keyings[0].key);
    if Blank(s.At(a.side)) && s.log == [] {
      BlankStays(s, a);
    }
  }

  lemma StepKeepsAtMostOneKey(s: State, a: Action)
    requires AtMostOneKey(s) && Enabled(s, a)
    ensures AtMostOneKey(Next(s, a))
  {
    StepKeepsSealed(s, a);
    if a.SealText? {
      if |s.keyings| == 0 {
        FirstSealKeepsOneKey(s, a);
      } else if |s.keyings| == 1 && a.existing.Some? {
        SealKeepsOneKey(s, a);
      }
    } else if |s.keyings| == 0 {
      BlankStays(s, a);
    } else if |s.keyings| == 1 {
      match a {
        case OpenOne(_, _, _) => OpenKeepsOneKey(s, a);
        case Post(_, _) => PostKeepsOneKey(s, a);
        case _ => QuietStepKeepsOneKey(s, a);
      }
    }
  }

  lemma RunKeepsAtMostOneKey(states: seq<State>, actions: seq<Action>, n: nat)
    requires IsRun(states, actions) && n < |states|
    ensures AtMostOneKey(states[n])
  {
    forall s, a, s' | AtMostOneKey(s) && Step(s, a, s') ensures AtMostOneKey(s') {
      StepKeepsAtMostOneKey(s, a);
    }
    Runs.Invariant(Step, AtMostOneKey, states, actions, 0, n);
  }

  /** With at most one encapsulation, both sides that hold a key, locally or in their backup, hold the same one. */
  lemma SidesAgree(states: seq<State>, actions: seq<Action>, n: nat)
    requires IsRun(states, actions) && n < |states| && |states[n].keyings| <= 1
    ensures var a, b := Resolve(states[n].alice.device), Resolve(states[n].bob.device);
            a.Some? && b.Some? ==> a == b
  {
    RunKeepsAtMostOneKey(states, actions, n);
  }

  /** A side that resolves the key, or was sent it in a posted keying message. */
  predicate CanRead(s: State, side: Side) {
    Resolve(s.At(side).device).Some? || (s.log != [] && PeerKeying(side, s.log[0]))
  }

  /** With one key, what is in hand is that key or nothing; nothing exactly until it can be had. */
  lemma {:induction false} OneKeyInHand(s: State, k: Keying, side: Side, n: nat)
    requires OneKey(s, k) && n <= |s.log|
    ensures var existing := Resolve(s.At(side).device);
            && InHand(existing, side, s.log, n) in {None, Some(k.key)}
            && (InHand(existing, side, s.log, n).Some? <==> existing.Some? || (n > 0 && PeerKeying(side, s.log[0])))
  {
    if n > 0 {
      OneKeyInHand(s, k, side, n - 1);
      assert OfKey(s.log[n - 1], k, n - 1 == 0);
    }
  }

  /**
   The single-keying case of the replay theorem: the whole history opens, own and peer's, to the
   texts that were sent, exactly if the side can still resolve the key or was sent it in a posted
   keying message; otherwise none of it does.
   */
  lemma ReplayOpensAllOrNothing(states: seq<State>, actions: seq<Action>, n: nat, side: Side)
    requires IsRun(states, actions) && n < |states| && |states[n].keyings| <= 1
    ensures var s := states[n];
            && |s.texts| == |s.log|
            && var results := ReplayAll(s.At(side).device, s.log).0;
               if CanRead(s, side)
               then forall i :: 0 <= i < |s.log| ==> results[i] == Ok(s.texts[i])
               else forall i :: 0 <= i < |s.log| ==> results[i].Err?
  {
    ReplayOpensExactly(states, actions, n, side);
    RunKeepsAtMostOneKey(states, actions, n);
    var s := states[n];
    if s.log != [] {
      var k := s.keyings[0];
      forall i | 0 <= i < |s.log|
        ensures Opens(side, s.log[i], InHand(Resolve(s.At(side).device), side, s.log, i)) <==> CanRead(s, side)
      {
        OneKeyInHand(s, k, side, i);
        assert OfKey(s.log[i], k, i == 0);
      }
    }
  }

  // ---- Two runs ---------------------------------------------------------------------------

  /** Prolongs a run by one enabled action. */
  lemma Extend(states: seq<State>, actions: seq<Action>, a: Action) returns (states': seq<State>, actions': seq<Action>)
    requires IsRun(states, actions) && Enabled(states[|actions|], a)
    ensures IsRun(states', actions') && actions' == actions + [a] && states' == states + [Next(states[|actions|], a)]
  {
    states', actions' := Runs.Extend(Step, states, actions, a, Next(states[|actions|], a));
  }

  /** A look-up that finds nothing, with no backup to fetch. */
  lemma FindNothing(before: seq<State>, done: seq<Action>, side: Side)
    returns (states: seq<State>, actions: seq<Action>)
    requires IsRun(before, done)
    requires var d := before[|done|].At(side).device; d.local == None && d.backup == None
    ensures IsRun(states, actions) && |actions| == |done| + 2 && before <= states && done <= actions
    ensures var s, c := before[|done|], before[|done|].At(side);
            states[|actions|] == s.With(side, c.(fetched := c.fetched + {None}, resolved := c.resolved + {None}))
  {
    states, actions := Extend(before, done, Lookup(side));
    states, actions := Extend(states, actions, FinishLookup(side, None));
  }

  /** A side that found nothing seals its first message. */
  lemma SealFirst(before: seq<State>, done: seq<Action>, side: Side, text: string, coins: nat, nonce: nat)
    returns (states: seq<State>, actions: seq<Action>)
    requires IsRun(before, done)
    requires var c := before[|done|].At(side); None in c.resolved && c.device.local == None && c.outgoing == None
    ensures IsRun(states, actions) && |actions| == |done| + 1 && before <= states && done <= actions
    ensures var s, s', c := before[|done|], states[|actions|], before[|done|].At(side);
            var (m, key) := Outgoing(c.device, text, None, coins, nonce);
            && s' == s.With(side, s'.At(side)).(keyings := s.keyings + [Keying(side, key)])
            && s'.At(side).device == c.device.(local := Some(key)) && s'.At(side).outgoing == Some(Outbound(m, text))
  {
    states, actions := Extend(before, done, SealText(side, None, text, coins, nonce));
  }

  /** A side with a key looks it up and sends under it. */
  lemma SendOn(before: seq<State>, done: seq<Action>, side: Side, text: string, coins: nat, nonce: nat)
    returns (states: seq<State>, actions: seq<Action>)
    requires IsRun(before, done)
    requires before[|done|].At(side).device.local.Some? && before[|done|].At(side).outgoing == None
    ensures IsRun(states, actions) && |actions| == |done| + 3 && before <= states && done <= actions
    ensures var s, s' := before[|done|], states[|actions|];
            var m := Outgoing(s.At(side).device, text, s.At(side).device.local, coins, nonce).0;
            && s'.log == s.log + [m] && s'.keyings == s.keyings
            && s'.alice.device == s.alice.device && s'.bob.device == s.bob.device
  {
    var existing := before[|done|].At(side).device.local;
    states, actions := Extend(before, done, Lookup(side));
    states, actions := Extend(states, actions, SealText(side, existing, text, coins, nonce));
    states, actions := Extend(states, actions, Post(side, true));
  }

  /**
   The keying message must reach the server. The initiator keeps its new key even when the post
   fails; its next message then carries no KEM ciphertext and the peer cannot open it.
   */
  lemma LostKeyingMessageLocksPeerOut(start: State) returns (states: seq<State>, actions: seq<Action>)
    requires Initial(start)
    ensures IsRun(states, actions) && states[0] == start && |actions| == 7
    ensures var s := states[7];
            |s.keyings| == 1 && |s.log| == 1 && OpenFor(s.bob.device, s.log[0]).0 == Err(MissingKem)
  {
    states, actions := FindNothing([start], [], Alice);
    states, actions := SealFirst(states, actions, Alice, "hello", 0, 0);
    states, actions := Extend(states, actions, Post(Alice, false));
    states, actions := SendOn(states, actions, Alice, "again", 0, 1);
  }

  /** Both sides have posted a keying message and opened neither. */
  predicate Crossed(start: State, s: State) {
    var (hello, a) := Outgoing(start.alice.device, "hello", None, 0, 0);
    var (hi, b) := Outgoing(start.bob.device, "hi", None, 1, 1);
    && s.log == [hello, hi] && s.keyings == [Keying(Alice, a), Keying(Bob, b)]
    && s.alice.device == start.alice.device.(local := Some(a)) && s.bob.device == start.bob.device.(local := Some(b))
    && s.alice.outgoing == None && s.bob.outgoing == None
  }

  lemma BothInitiate(start: State) returns (states: seq<State>, actions: seq<Action>)
    requires Initial(start)
    ensures IsRun(states, actions) && states[0] == start && |actions| == 8 && Crossed(start, states[8])
  {
    states, actions := FindNothing([start], [], Alice);
    states, actions := FindNothing(states, actions, Bob);
    states, actions := SealFirst(states, actions, Alice, "hello", 0, 0);
    states, actions := SealFirst(states, actions, Bob, "hi", 1, 1);
    states, actions := Extend(states, actions, Post(Alice, true));
    states, actions := Extend(states, actions, Post(Bob, true));
  }

  /** A side that looks its key up and opens the peer's keying message adopts that message's key. */
  lemma Adopt(before: seq<State>, done: seq<Action>, side: Side, i: nat)
    returns (states: seq<State>, actions: seq<Action>)
    requires IsRun(before, done)
    requires var s := before[|done|];
             s.At(side).device.local.Some? && i < |s.log| && PeerKeying(side, s.log[i])
    ensures IsRun(states, actions) && |actions| == |done| + 2 && before <= states && done <= actions
    ensures var s, s' := before[|done|], states[|actions|];
            && s'.log == s.log && s'.keyings == s.keyings && s'.At(side.Peer()) == s.At(side.Peer())
            && s'.At(side).device == s.At(side).device.(local := Some(s.log[i].ciphertext.key))
            && s'.At(side).outgoing == s.At(side).outgoing
  {
    var s := before[|done|];
    RunIsSealed(before, done, |done|);
    OpensExactly(s, side, s.At(side).device, s.log[i], s.At(side).device.local);
    states, actions := Extend(before, done, Lookup(side));
    states, actions := Extend(states, actions, OpenOne(side, s.At(side).device.local, i));
  }

  /**
   An instance of disagreement: when both sides start a conversation at once, a replay on both
   leaves them apart; opening on receipt they end up with each other's keys, and the next message
   one of them sends does not open for the other.
   */
  lemma CrossedKeyingsSwapKeys(start: State) returns (states: seq<State>, actions: seq<Action>)
    requires Initial(start)
    ensures IsRun(states, actions) && states[0] == start && |actions| == 15
    ensures Crossed(start, states[8]) && !AgreeIf(states[8])
    ensures AfterReplay(states[8], Alice) != AfterReplay(states[8], Bob)
    ensures var s := states[15];
            && |s.keyings| == 2 && |s.log| == 3 && s.keyings[0].key != s.keyings[1].key
            && s.alice.device.local == Some(s.keyings[1].key) && s.bob.device.local == Some(s.keyings[0].key)
            && OpenFor(s.alice.device, s.log[2]).0 == Ok("next") && OpenFor(s.bob.device, s.log[2]).0 == Err(BadTag)
  {
    states, actions := BothInitiate(start);
    SidesAgreeAfterReplayIff(states, actions, 8);
    CrossedDisagree(start, states[8]);
    states, actions := Adopt(states, actions, Alice, 1);
    states, actions := Adopt(states, actions, Bob, 0);
    OtherKeyRefuses(states[12].alice.device, states[12].bob.device, "next", 2, 2);
    states, actions := SendOn(states, actions, Alice, "next", 2, 2);
  }

  lemma CrossedDisagree(start: State, s: State)
    requires Initial(start) && Crossed(start, s)
    ensures LastKeying(s.log, Alice) == Some(s.log[0]) && LastKeying(s.log, Bob) == Some(s.log[1]) && !AgreeIf(s)
    ensures s.log[0].ciphertext.key == s.keyings[0].key && s.log[1].ciphertext.key == s.keyings[1].key
    ensures s.keyings[0].key != s.keyings[1].key
  {
    assert s.log[..1] == [s.log[0]];
    assert LastKeying(s.log[..1], Alice) == Some(s.log[0]);
  }
}
