/**
 The server's conversation lifecycle: direct and group creation, membership changes,
 deletion, and the two ways a message is stored (send and file upload).
 */
module Conversations {
  import opened Wrappers
  import Runs

  type UserId = nat
  type ConvId = nat
  type MessageId = nat

  datatype ConversationType = Direct | Group
  datatype Role = Member | GroupAdmin

  datatype Conversation = Conversation(kind: ConversationType, createdBy: UserId, lastMessageAt: Option<int>)
  datatype Membership = Membership(role: Option<Role>, joinedAt: int, leftAt: Option<int>)
  datatype Message = Message(conv: ConvId, sentAt: int)

  /** The tables. Memberships are unique per (conversation, user), as the schema requires. */
  datatype Db = Db(
    conversations: map<ConvId, Conversation>, members: map<(ConvId, UserId), Membership>,
    messages: map<MessageId, Message>)

  datatype Error =
    | InvalidRequest | ConversationNotFound | TypeMismatch | NotGroupAdmin | NotParticipant | AlreadyActive
    | FileTooLarge | InvalidIdentityKey | InvalidEnvelope | MalformedCiphertext | UploadFailed | SizeMismatch

  function Rows(db: Db, conv: ConvId): set<UserId> {
    set k | k in db.members && k.0 == conv :: k.1
  }

  function ToSet(users: seq<UserId>): set<UserId> {
    set u | u in users
  }

  lemma ToSetAppend(users: seq<UserId>, u: UserId)
    ensures ToSet(users + [u]) == ToSet(users) + {u}
    ensures u in ToSet(users) <==> u in users
  {
  }

  predicate IsActive(db: Db, conv: ConvId, user: UserId) {
    (conv, user) in db.members && db.members[(conv, user)].leftAt == None
  }

  function ActiveMembers(db: Db, conv: ConvId): set<UserId> {
    set k | k in db.members && k.0 == conv && db.members[k].leftAt == None :: k.1
  }

  predicate IsActiveAdmin(db: Db, conv: ConvId, user: UserId) {
    IsActive(db, conv, user) && db.members[(conv, user)].role == Some(GroupAdmin)
  }

  /** A direct conversation holding a membership row of each of the two users, left or not. */
  predicate IsDirectOf(db: Db, conv: ConvId, a: UserId, b: UserId) {
    && conv in db.conversations && db.conversations[conv].kind == Direct
    && (conv, a) in db.members && (conv, b) in db.members
  }

  function Reactivated(m: Membership): Membership {
    m.(leftAt := None)
  }

  /** `after` is `before` with the same row written for each of `users` in `conv`. */
  ghost predicate WritesRows(before: map<(ConvId, UserId), Membership>, after: map<(ConvId, UserId), Membership>,
                             conv: ConvId, users: set<UserId>, row: Membership)
  {
    && (forall k :: k in after <==> k in before || (k.0 == conv && k.1 in users))
    && (forall k <- after :: after[k] == if k.0 == conv && k.1 in users then row else before[k])
  }

  // ---- What each operation does ------------------------------------------------------

  ghost predicate CreatesDirect(db: Db, creator: UserId, others: seq<UserId>, now: int, id: ConvId, db': Db,
                                r: Result<ConvId, Error>) {
    if |others| != 1 || others[0] == creator then r == Err(InvalidRequest) && db' == db
    else if exists conv :: IsDirectOf(db, conv, creator, others[0]) then
      && r.Ok? && IsDirectOf(db, r.value, creator, others[0])
      && db' == db.(members := db.members[(r.value, creator) := Reactivated(db.members[(r.value, creator)])])
    else
      && r == Ok(id)
      && db' == db.(
           conversations := db.conversations[id := Conversation(Direct, creator, None)],
           members := db.members[(id, creator) := Membership(None, now, None)]
                                [(id, others[0]) := Membership(None, now, None)])
  }

  ghost predicate CreatesGroup(db: Db, creator: UserId, others: seq<UserId>, now: int, id: ConvId, db': Db,
                               r: Result<ConvId, Error>) {
    var members := ToSet(others) - {creator};
    if members == {} then r == Err(InvalidRequest) && db' == db
    else
      && r == Ok(id)
      && db' == db.(
           conversations := db.conversations[id := Conversation(Group, creator, None)],
           members := db'.members)
      && WritesRows(db.members[(id, creator) := Membership(Some(GroupAdmin), now, None)], db'.members,
                    id, members, Membership(Some(Member), now, None))
  }

  ghost predicate AddsParticipant(db: Db, conv: ConvId, actor: UserId, target: UserId, now: int, db': Db,
                                  r: Result<(), Error>) {
    if conv !in db.conversations then r == Err(ConversationNotFound) && db' == db
    else if db.conversations[conv].kind != Group then r == Err(TypeMismatch) && db' == db
    else if !IsActiveAdmin(db, conv, actor) then r == Err(NotGroupAdmin) && db' == db
    else if IsActive(db, conv, target) then r == Err(AlreadyActive) && db' == db
    else
      && r == Ok(())
      && db' == db.(members := db.members[(conv, target) :=
           if (conv, target) in db.members then Reactivated(db.members[(conv, target)])
           else Membership(Some(Member), now, None)])
  }

  ghost predicate RemovesParticipant(db: Db, conv: ConvId, actor: UserId, target: UserId, now: int, db': Db,
                                     r: Result<(), Error>) {
    if conv !in db.conversations then r == Err(ConversationNotFound) && db' == db
    else if db.conversations[conv].kind != Group then r == Err(TypeMismatch) && db' == db
    else if !IsActive(db, conv, target) then r == Err(NotParticipant) && db' == db
    else if actor != target && !IsActiveAdmin(db, conv, actor) then r == Err(NotGroupAdmin) && db' == db
    else
      && r == Ok(())
      && db' == db.(members := db.members[(conv, target) := db.members[(conv, target)].(leftAt := Some(now))])
  }

  ghost predicate Deletes(db: Db, conv: ConvId, requester: UserId, now: int, db': Db, r: Result<(), Error>) {
    if conv !in db.conversations then r == Err(ConversationNotFound) && db' == db
    else if !IsActive(db, conv, requester) then r == Err(NotParticipant) && db' == db
    else
      && r == Ok(())
      && db' == if db.conversations[conv].kind == Direct
                then Db(db.conversations - {conv},
                        map k | k in db.members && k.0 != conv :: db.members[k],
                        map m | m in db.messages && db.messages[m].conv != conv :: db.messages[m])
                else db.(members := db.members[(conv, requester) :=
                           db.members[(conv, requester)].(leftAt := Some(now))])
  }

  function LaterOf(last: Option<int>, sentAt: int): Option<int> {
    if last.None? || sentAt > last.value then Some(sentAt) else last
  }

  /** Storing a message: a direct conversation brings back whoever left it, a group does not. */
  ghost predicate Stores(db: Db, conv: ConvId, now: int, id: MessageId, db': Db, recipients: set<UserId>) {
    var direct := conv in db.conversations && db.conversations[conv].kind == Direct;
    && recipients == (if direct then Rows(db, conv) else ActiveMembers(db, conv))
    && db'.messages == db.messages[id := Message(conv, now)]
    && db'.members == (map k | k in db.members :: if direct && k.0 == conv then Reactivated(db.members[k])
                       else db.members[k])
    && db'.conversations == if conv in db.conversations
         then db.conversations[conv :=
                db.conversations[conv].(lastMessageAt := LaterOf(db.conversations[conv].lastMessageAt, now))]
         else db.conversations
  }

  ghost predicate Sends(db: Db, conv: ConvId, sender: UserId, keyActive: bool, envelopeValid: bool, decodes: bool,
                        now: int, id: MessageId, db': Db, r: Result<set<UserId>, Error>) {
    if !IsActive(db, conv, sender) then r == Err(NotParticipant) && db' == db
    else if !keyActive then r == Err(InvalidIdentityKey) && db' == db
    else if !envelopeValid then r == Err(InvalidEnvelope) && db' == db
    else if !decodes then r == Err(MalformedCiphertext) && db' == db
    else r.Ok? && Stores(db, conv, now, id, db', r.value)
  }

  function Sum(chunks: seq<nat>): nat {
    if chunks == [] then 0 else Sum(chunks[..|chunks| - 1]) + chunks[|chunks| - 1]
  }

  /** An upload as it reaches the server; `chunks` are the sizes read, absent if storage failed. */
  datatype Upload = Upload(declared: int, maxBytes: int, keyActive: bool, envelopeValid: bool, chunks: Option<seq<nat>>)

  ghost predicate Uploads(db: Db, conv: ConvId, sender: UserId, up: Upload, now: int, id: MessageId, db': Db,
                          r: Result<set<UserId>, Error>) {
    if !IsActive(db, conv, sender) then r == Err(NotParticipant) && db' == db
    else if up.declared <= 0 || up.declared > up.maxBytes then r == Err(FileTooLarge) && db' == db
    else if !up.keyActive then r == Err(InvalidIdentityKey) && db' == db
    else if !up.envelopeValid then r == Err(InvalidEnvelope) && db' == db
    else if up.chunks.None? then r == Err(UploadFailed) && db' == db
    else if Sum(up.chunks.value) != up.declared then r == Err(SizeMismatch) && db' == db
    else r.Ok? && Stores(db, conv, now, id, db', r.value)
  }

  // ---- The services --------------------------------------------------------------

  /** The session all services of one request share. */
  class Repository {
    var conversations: map<ConvId, Conversation>
    var members: map<(ConvId, UserId), Membership>
    var messages: map<MessageId, Message>

    constructor ()
      ensures Contents() == Db(map[], map[], map[])
    {
      conversations, members, messages := map[], map[], map[];
    }

    ghost function Contents(): Db
      reads this
    {
      Db(conversations, members, messages)
    }

    method FindDirect(a: UserId, b: UserId) returns (found: Option<ConvId>)
      ensures found.Some? ==> IsDirectOf(Contents(), found.value, a, b)
      ensures found.None? ==> forall conv :: !IsDirectOf(Contents(), conv, a, b)
    {
      var candidates := set conv | conv in conversations && conversations[conv].kind == Direct
                                   && (conv, a) in members && (conv, b) in members;
      if candidates == {} {
        assert forall conv :: IsDirectOf(Contents(), conv, a, b) ==> conv in candidates;
        return None;
      }
      var conv :| conv in candidates;
      return Some(conv);
    }

    method AddRow(conv: ConvId, user: UserId, row: Membership)
      modifies this`members
      ensures members == old(members)[(conv, user) := row]
    {
      members := members[(conv, user) := row];
    }

    method AddRows(conv: ConvId, users: seq<UserId>, row: Membership)
      modifies this`members
      ensures WritesRows(old(members), members, conv, ToSet(users), row)
    {
      for i := 0 to |users|
        invariant WritesRows(old(members), members, conv, ToSet(users[..i]), row)
      {
        assert users[..i + 1] == users[..i] + [users[i]];
        ToSetAppend(users[..i], users[i]);
        AddRow(conv, users[i], row);
      }
      assert users[..|users|] == users;
    }

    method MarkLeft(conv: ConvId, user: UserId, now: int)
      requires (conv, user) in members
      modifies this`members
      ensures members == old(members)[(conv, user) :=
                           if old(members)[(conv, user)].leftAt == None
                           then old(members)[(conv, user)].(leftAt := Some(now)) else old(members)[(conv, user)]]
    {
      if members[(conv, user)].leftAt == None {
        members := members[(conv, user) := members[(conv, user)].(leftAt := Some(now))];
      }
    }

    method MarkReactivated(conv: ConvId, user: UserId)
      requires (conv, user) in members
      modifies this`members
      ensures members == old(members)[(conv, user) := Reactivated(old(members)[(conv, user)])]
    {
      if members[(conv, user)].leftAt != None {
        members := members[(conv, user) := members[(conv, user)].(leftAt := None)];
      }
    }

    method UpdateLastMessageAt(conv: ConvId, sentAt: int)
      modifies this`conversations
      ensures conversations == if conv in old(conversations)
                then var row := old(conversations)[conv];
                     old(conversations)[conv := row.(lastMessageAt := LaterOf(row.lastMessageAt, sentAt))]
                else old(conversations)
    {
      if conv in conversations {
        var last := conversations[conv].lastMessageAt;
        if last == None || sentAt > last.value {
          conversations := conversations[conv := conversations[conv].(lastMessageAt := Some(sentAt))];
        }
      }
    }

    /** Stores the row, brings back left members of a direct conversation, and moves its clock. */
    method StoreMessage(conv: ConvId, now: int, id: MessageId) returns (recipients: set<UserId>)
      modifies this
      ensures Stores(old(Contents()), conv, now, id, Contents(), recipients)
    {
      messages := messages[id := Message(conv, now)];
      var all := set k | k in members && k.0 == conv :: k.1;
      var direct := conv in conversations && conversations[conv].kind == Direct;
      if direct {
        var todo := all;
        while todo != {}
          invariant todo <= all
          invariant conversations == old(conversations) && messages == old(messages)[id := Message(conv, now)]
          invariant members == map k | k in old(members) ::
                      if k.0 == conv && k.1 !in todo then Reactivated(old(members)[k]) else old(members)[k]
        {
          var user :| user in todo;
          assert (conv, user) in members;
          if members[(conv, user)].leftAt != None {
            MarkReactivated(conv, user);
          }
          todo := todo - {user};
        }
        recipients := all;
      } else {
        recipients := set k | k in members && k.0 == conv && members[k].leftAt == None :: k.1;
      }
      UpdateLastMessageAt(conv, now);
    }
  }

  class ConversationService {
    const repo: Repository

    constructor (repo: Repository)
      ensures this.repo == repo
    {
      this.repo := repo;
    }

    method CreateDirect(creator: UserId, others: seq<UserId>, now: int, id: ConvId) returns (r: Result<ConvId, Error>)
      modifies repo
      ensures CreatesDirect(old(repo.Contents()), creator, others, now, id, repo.Contents(), r)
    {
      if |others| != 1 {
        return Err(InvalidRequest);
      }
      var other := others[0];
      if other == creator {
        return Err(InvalidRequest);
      }
      ghost var before := repo.Contents();
      var existing := repo.FindDirect(creator, other);
      if existing.Some? {
        repo.MarkReactivated(existing.value, creator);
        return Ok(existing.value);
      }
      assert repo.Contents() == before;
      assert forall conv :: !IsDirectOf(before, conv, creator, other);
      repo.conversations := repo.conversations[id := Conversation(Direct, creator, None)];
      repo.AddRow(id, creator, Membership(None, now, None));
      repo.AddRow(id, other, Membership(None, now, None));
      return Ok(id);
    }

    method CreateGroup(creator: UserId, others: seq<UserId>, now: int, id: ConvId) returns (r: Result<ConvId, Error>)
      modifies repo
      ensures CreatesGroup(old(repo.Contents()), creator, others, now, id, repo.Contents(), r)
    {
      var otherIds := Distinct(others, creator);
      if otherIds == [] {
        return Err(InvalidRequest);
      }
      repo.conversations := repo.conversations[id := Conversation(Group, creator, None)];
      repo.AddRow(id, creator, Membership(Some(GroupAdmin), now, None));
      repo.AddRows(id, otherIds, Membership(Some(Member), now, None));
      return Ok(id);
    }

    /** The ids in order of first appearance, each once, without the creator. */
    static method Distinct(ids: seq<UserId>, creator: UserId) returns (distinct: seq<UserId>)
      ensures ToSet(distinct) == ToSet(ids) - {creator}
      ensures distinct == [] <==> ToSet(ids) - {creator} == {}
      ensures forall i, j :: 0 <= i < j < |distinct| ==> distinct[i] != distinct[j]
    {
      distinct := [];
      for i := 0 to |ids|
        invariant ToSet(distinct) == ToSet(ids[..i]) - {creator}
        invariant forall j, k :: 0 <= j < k < |distinct| ==> distinct[j] != distinct[k]
      {
        assert ids[..i + 1] == ids[..i] + [ids[i]];
        ToSetAppend(ids[..i], ids[i]);
        ToSetAppend(distinct, ids[i]);
        if ids[i] !in distinct && ids[i] != creator {
          distinct := distinct + [ids[i]];
        }
      }
      assert ids[..|ids|] == ids;
      if distinct != [] {
        assert distinct[0] in ToSet(distinct);
      }
    }

    method AddParticipant(conv: ConvId, actor: UserId, target: UserId, now: int) returns (r: Result<(), Error>)
      modifies repo
      ensures AddsParticipant(old(repo.Contents()), conv, actor, target, now, repo.Contents(), r)
    {
      if conv !in repo.conversations {
        return Err(ConversationNotFound);
      }
      if repo.conversations[conv].kind != Group {
        return Err(TypeMismatch);
      }
      var admin := AuthorizeGroupAdmin(conv, actor);
      if !admin {
        return Err(NotGroupAdmin);
      }
      if (conv, target) in repo.members {
        if repo.members[(conv, target)].leftAt == None {
          return Err(AlreadyActive);
        }
        repo.MarkReactivated(conv, target);
        return Ok(());
      }
      repo.AddRow(conv, target, Membership(Some(Member), now, None));
      return Ok(());
    }

    method RemoveParticipant(conv: ConvId, actor: UserId, target: UserId, now: int) returns (r: Result<(), Error>)
      modifies repo
      ensures RemovesParticipant(old(repo.Contents()), conv, actor, target, now, repo.Contents(), r)
    {
      if conv !in repo.conversations {
        return Err(ConversationNotFound);
      }
      if repo.conversations[conv].kind != Group {
        return Err(TypeMismatch);
      }
      if (conv, target) !in repo.members || repo.members[(conv, target)].leftAt != None {
        return Err(NotParticipant);
      }
      if actor != target {
        var admin := AuthorizeGroupAdmin(conv, actor);
        if !admin {
          return Err(NotGroupAdmin);
        }
      }
      repo.MarkLeft(conv, target, now);
      return Ok(());
    }

    method AuthorizeGroupAdmin(conv: ConvId, user: UserId) returns (ok: bool)
      ensures ok <==> IsActiveAdmin(repo.Contents(), conv, user)
    {
      if (conv, user) !in repo.members {
        return false;
      }
      var participant := repo.members[(conv, user)];
      return participant.leftAt == None && participant.role == Some(GroupAdmin);
    }

    method DeleteConversation(conv: ConvId, requester: UserId, now: int) returns (r: Result<(), Error>)
      modifies repo
      ensures Deletes(old(repo.Contents()), conv, requester, now, repo.Contents(), r)
    {
      if conv !in repo.conversations {
        return Err(ConversationNotFound);
      }
      if (conv, requester) !in repo.members || repo.members[(conv, requester)].leftAt != None {
        return Err(NotParticipant);
      }
      if repo.conversations[conv].kind == Direct {
        repo.conversations := repo.conversations - {conv};
        repo.members := map k | k in repo.members && k.0 != conv :: repo.members[k];
        repo.messages := map m | m in repo.messages && repo.messages[m].conv != conv :: repo.messages[m];
      } else {
        repo.MarkLeft(conv, requester, now);
      }
      return Ok(());
    }
  }

  class MessagingService {
    const repo: Repository

    constructor (repo: Repository)
      ensures this.repo == repo
    {
      this.repo := repo;
    }

    method Send(conv: ConvId, sender: UserId, keyActive: bool, envelopeValid: bool, decodes: bool, now: int,
                id: MessageId)
      returns (r: Result<set<UserId>, Error>)
      modifies repo
      ensures Sends(old(repo.Contents()), conv, sender, keyActive, envelopeValid, decodes, now, id, repo.Contents(), r)
    {
      if (conv, sender) !in repo.members || repo.members[(conv, sender)].leftAt != None {
        return Err(NotParticipant);
      }
      if !keyActive {
        return Err(InvalidIdentityKey);
      }
      if !envelopeValid {
        return Err(InvalidEnvelope);
      }
      if !decodes {
        return Err(MalformedCiphertext);
      }
      var recipients := repo.StoreMessage(conv, now, id);
      return Ok(recipients);
    }
  }

  class FileService {
    const repo: Repository

    constructor (repo: Repository)
      ensures this.repo == repo
    {
      this.repo := repo;
    }

    /** Streams the upload to storage, counting what is actually read. */
    method CountBytes(chunks: seq<nat>) returns (bytesRead: nat)
      ensures bytesRead == Sum(chunks)
    {
      bytesRead := 0;
      for i := 0 to |chunks|
        invariant bytesRead == Sum(chunks[..i])
      {
        assert chunks[..i + 1][..i] == chunks[..i];
        bytesRead := bytesRead + chunks[i];
      }
      assert chunks[..|chunks|] == chunks;
    }

    method Accept(conv: ConvId, sender: UserId, up: Upload, now: int, id: MessageId)
      returns (r: Result<set<UserId>, Error>)
      modifies repo
      ensures Uploads(old(repo.Contents()), conv, sender, up, now, id, repo.Contents(), r)
    {
      if (conv, sender) !in repo.members || repo.members[(conv, sender)].leftAt != None {
        return Err(NotParticipant);
      }
      if up.declared <= 0 || up.declared > up.maxBytes {
        return Err(FileTooLarge);
      }
      if !up.keyActive {
        return Err(InvalidIdentityKey);
      }
      if !up.envelopeValid {
        return Err(InvalidEnvelope);
      }
      if up.chunks.None? {
        return Err(UploadFailed);
      }
      var actual := CountBytes(up.chunks.value);
      if actual != up.declared || actual > up.maxBytes {
        return Err(SizeMismatch);
      }
      var recipients := repo.StoreMessage(conv, now, id);
      return Ok(recipients);
    }
  }

  // ---- Runs ------------------------------------------------------------------------

  datatype Op =
    | OpCreateDirect(creator: UserId, others: seq<UserId>, now: int, id: ConvId)
    | OpCreateGroup(creator: UserId, others: seq<UserId>, now: int, id: ConvId)
    | OpAdd(conv: ConvId, actor: UserId, target: UserId, now: int)
    | OpRemove(conv: ConvId, actor: UserId, target: UserId, now: int)
    | OpDelete(conv: ConvId, requester: UserId, now: int)
    | OpSend(conv: ConvId, sender: UserId, keyActive: bool, envelopeValid: bool, decodes: bool, now: int,
             messageId: MessageId)
    | OpUpload(conv: ConvId, sender: UserId, up: Upload, now: int, messageId: MessageId)

  /** One service call, with the new row ids it draws being unused. */
  ghost predicate Step(db: Db, op: Op, db': Db) {
    match op
    case OpCreateDirect(creator, others, now, id) =>
      id !in db.conversations && exists r :: CreatesDirect(db, creator, others, now, id, db', r)
    case OpCreateGroup(creator, others, now, id) =>
      id !in db.conversations && exists r :: CreatesGroup(db, creator, others, now, id, db', r)
    case OpAdd(conv, actor, target, now) => exists r :: AddsParticipant(db, conv, actor, target, now, db', r)
    case OpRemove(conv, actor, target, now) => exists r :: RemovesParticipant(db, conv, actor, target, now, db', r)
    case OpDelete(conv, requester, now) => exists r :: Deletes(db, conv, requester, now, db', r)
    case OpSend(conv, sender, keyActive, envelopeValid, decodes, now, id) =>
      id !in db.messages && exists r :: Sends(db, conv, sender, keyActive, envelopeValid, decodes, now, id, db', r)
    case OpUpload(conv, sender, up, now, id) =>
      id !in db.messages && exists r :: Uploads(db, conv, sender, up, now, id, db', r)
  }

  ghost predicate IsRun(dbs: seq<Db>, ops: seq<Op>) {
    Runs.IsRun(Step, dbs, ops)
  }

  const EMPTY := Db(map[], map[], map[])

  // ---- What every reachable database satisfies ------------------------------------

  predicate DirectIsPair(db: Db, conv: ConvId)
    requires conv in db.conversations
  {
    var users := Rows(db, conv);
    && |users| == 2
    && forall u <- users ::
         (conv, u) in db.members && db.members[(conv, u)].leftAt == None && db.members[(conv, u)].role == None
  }

  /** Two direct conversations never share both members. */
  predicate OnePerPair(db: Db) {
    forall a <- db.conversations, b <- db.conversations ::
      a != b && db.conversations[a].kind == Direct && db.conversations[b].kind == Direct ==> Rows(db, a) != Rows(db, b)
  }

  predicate CreatorIsOnlyAdmin(db: Db, conv: ConvId)
    requires conv in db.conversations
  {
    && (conv, db.conversations[conv].createdBy) in db.members
    && forall u <- Rows(db, conv) :: (conv, u) in db.members &&
         (db.members[(conv, u)].role == Some(GroupAdmin) <==> u == db.conversations[conv].createdBy)
  }

  /** `last_message_at` is the newest of the conversation's messages, and absent without any. */
  predicate LastIsNewest(db: Db, conv: ConvId)
    requires conv in db.conversations
  {
    var last := db.conversations[conv].lastMessageAt;
    && (forall m <- db.messages :: db.messages[m].conv == conv ==> last.Some? && db.messages[m].sentAt <= last.value)
    && (last.Some? ==> exists m <- db.messages :: db.messages[m] == Message(conv, last.value))
  }

  predicate NoOrphans(db: Db) {
    && (forall k <- db.members :: k.0 in db.conversations)
    && (forall m <- db.messages :: db.messages[m].conv in db.conversations)
  }

  predicate Inv(db: Db) {
    && NoOrphans(db) && OnePerPair(db)
    && forall conv <- db.conversations ::
         && LastIsNewest(db, conv)
         && if db.conversations[conv].kind == Direct then DirectIsPair(db, conv) else CreatorIsOnlyAdmin(db, conv)
  }

  lemma RowsAre(db: Db, conv: ConvId)
    ensures forall u :: u in Rows(db, conv) <==> (conv, u) in db.members
    ensures forall u :: u in ActiveMembers(db, conv) <==> IsActive(db, conv, u)
  {
  }

  lemma PairIs(s: set<UserId>, a: UserId, b: UserId)
    requires |s| == 2 && a in s && b in s && a != b
    ensures s == {a, b}
  {
    assert |s - {a, b}| == 0;
  }

  /** The good shape of one conversation. */
  predicate Good(db: Db, conv: ConvId)
    requires conv in db.conversations
  {
    if db.conversations[conv].kind == Direct then DirectIsPair(db, conv) else CreatorIsOnlyAdmin(db, conv)
  }

  ghost predicate SameRows(db: Db, db': Db, conv: ConvId) {
    forall u :: ((conv, u) in db'.members <==> (conv, u) in db.members)
                && ((conv, u) in db.members ==> db'.members[(conv, u)] == db.members[(conv, u)])
  }

  /** A conversation whose own rows an operation leaves alone keeps its shape. */
  lemma UntouchedStaysGood(db: Db, db': Db, conv: ConvId)
    requires conv in db.conversations && conv in db'.conversations && Good(db, conv)
    requires db'.conversations[conv].kind == db.conversations[conv].kind
    requires db'.conversations[conv].createdBy == db.conversations[conv].createdBy
    requires SameRows(db, db', conv)
    ensures Good(db', conv) && Rows(db', conv) == Rows(db, conv)
  {
    RowsAre(db, conv);
    RowsAre(db', conv);
    assert Rows(db', conv) == Rows(db, conv);
  }

  lemma LastStaysNewest(db: Db, db': Db, conv: ConvId)
    requires conv in db.conversations && conv in db'.conversations && LastIsNewest(db, conv)
    requires db'.conversations[conv].lastMessageAt == db.conversations[conv].lastMessageAt
    requires forall m :: (m in db'.messages && db'.messages[m].conv == conv) <==>
             (m in db.messages && db.messages[m].conv == conv)
    requires forall m <- db.messages ::
               db.messages[m].conv == conv ==> m in db'.messages && db'.messages[m] == db.messages[m]
    ensures LastIsNewest(db', conv)
  {
  }

  /** Rewriting memberships of one group to (re)admit or release a non-admin-changing row keeps it good. */
  lemma GroupRowChange(db: Db, db': Db, conv: ConvId, user: UserId, row: Membership)
    requires Inv(db) && conv in db.conversations && db.conversations[conv].kind == Group
    requires db' == db.(members := db.members[(conv, user) := row])
    requires if (conv, user) in db.members then row.role == db.members[(conv, user)].role else row.role == Some(Member)
    ensures Inv(db')
  {
    RowsAre(db, conv);
    RowsAre(db', conv);
    forall c | c in db'.conversations ensures Good(db', c) && LastIsNewest(db', c)
        && (c != conv ==> Rows(db', c) == Rows(db, c)) {
      LastStaysNewest(db, db', c);
      if c != conv {
        UntouchedStaysGood(db, db', c);
      } else {
        assert Good(db, c);
      }
    }
  }

  /** Conversations that keep their kind and rows, or vanish, stay one per pair. */
  lemma StillOnePerPair(db: Db, db': Db)
    requires OnePerPair(db)
    requires forall c <- db'.conversations ::
               c in db.conversations && db'.conversations[c].kind == db.conversations[c].kind
               && Rows(db', c) == Rows(db, c)
    ensures OnePerPair(db')
  {
  }

  /** Creating a pair leaves every other conversation as it was. */
  lemma {:induction false} NewPairLeavesOthers(db: Db, creator: UserId, other: UserId, now: int, id: ConvId, db': Db)
    requires Inv(db) && id !in db.conversations && creator != other
    requires forall conv :: !IsDirectOf(db, conv, creator, other)
    requires db' == db.(
               conversations := db.conversations[id := Conversation(Direct, creator, None)],
               members := db.members[(id, creator) := Membership(None, now, None)]
                                    [(id, other) := Membership(None, now, None)])
    ensures forall c <- db.conversations ::
              c in db'.conversations && Good(db', c) && LastIsNewest(db', c) && Rows(db', c) == Rows(db, c)
  {
    forall c | c in db.conversations ensures Good(db', c) && LastIsNewest(db', c) && Rows(db', c) == Rows(db, c) {
      LastStaysNewest(db, db', c);
      UntouchedStaysGood(db, db', c);
    }
  }

  lemma NewPairKeepsInv(db: Db, creator: UserId, other: UserId, now: int, id: ConvId, db': Db)
    requires Inv(db) && id !in db.conversations && creator != other
    requires forall conv :: !IsDirectOf(db, conv, creator, other)
    requires db' == db.(
               conversations := db.conversations[id := Conversation(Direct, creator, None)],
               members := db.members[(id, creator) := Membership(None, now, None)]
                                    [(id, other) := Membership(None, now, None)])
    ensures Inv(db')
  {
    RowsAre(db, id);
    RowsAre(db', id);
    assert Rows(db', id) == {creator, other};
    NewPairLeavesOthers(db, creator, other, now, id, db');
    forall c | c in db.conversations && db.conversations[c].kind == Direct ensures Rows(db', c) != Rows(db', id) {
      assert !IsDirectOf(db, c, creator, other);
      RowsAre(db, c);
    }
    assert LastIsNewest(db', id) && DirectIsPair(db', id);
  }

  /** A direct membership that is found has never been left, so restarting it changes nothing. */
  lemma RestartChangesNothing(db: Db, conv: ConvId, a: UserId, b: UserId)
    requires Inv(db) && IsDirectOf(db, conv, a, b)
    ensures db.members[(conv, a) := Reactivated(db.members[(conv, a)])] == db.members
  {
    RowsAre(db, conv);
    assert Good(db, conv);
  }

  lemma CreateDirectKeepsInv(db: Db, creator: UserId, others: seq<UserId>, now: int, id: ConvId, db': Db,
                             r: Result<ConvId, Error>)
    requires Inv(db) && id !in db.conversations && CreatesDirect(db, creator, others, now, id, db', r)
    ensures Inv(db')
    ensures r.Ok? && r.value != id ==> db' == db
  {
    if r.Ok? {
      if exists conv :: IsDirectOf(db, conv, creator, others[0]) {
        RestartChangesNothing(db, r.value, creator, others[0]);
        assert db' == db;
      } else {
        NewPairKeepsInv(db, creator, others[0], now, id, db');
      }
    }
  }

  /** Creating a group leaves every other conversation as it was. */
  lemma NewGroupLeavesOthers(db: Db, creator: UserId, others: seq<UserId>, now: int, id: ConvId, db': Db,
                             r: Result<ConvId, Error>, c: ConvId)
    requires Inv(db) && id !in db.conversations && CreatesGroup(db, creator, others, now, id, db', r)
    requires c in db.conversations
    ensures c in db'.conversations && Good(db', c) && LastIsNewest(db', c) && Rows(db', c) == Rows(db, c)
  {
    LastStaysNewest(db, db', c);
    UntouchedStaysGood(db, db', c);
  }

  lemma NewGroupIsGood(db: Db, creator: UserId, others: seq<UserId>, now: int, id: ConvId, db': Db,
                       r: Result<ConvId, Error>)
    requires Inv(db) && id !in db.conversations && CreatesGroup(db, creator, others, now, id, db', r) && r.Ok?
    ensures id in db'.conversations && Good(db', id) && LastIsNewest(db', id)
  {
    RowsAre(db', id);
  }

  lemma {:induction false} CreateGroupKeepsInv(
    db: Db, creator: UserId, others: seq<UserId>, now: int, id: ConvId, db': Db, r: Result<ConvId, Error>)
    requires Inv(db) && id !in db.conversations && CreatesGroup(db, creator, others, now, id, db', r)
    ensures Inv(db')
  {
    if r.Ok? {
      NewGroupIsGood(db, creator, others, now, id, db', r);
      forall c | c in db.conversations
        ensures c in db'.conversations && Good(db', c) && LastIsNewest(db', c) && Rows(db', c) == Rows(db, c)
      {
        NewGroupLeavesOthers(db, creator, others, now, id, db', r, c);
      }
    }
  }

  lemma {:induction false} DeleteKeepsInv(db: Db, conv: ConvId, requester: UserId, now: int, db': Db,
                                          r: Result<(), Error>)
    requires Inv(db) && Deletes(db, conv, requester, now, db', r)
    ensures Inv(db')
  {
    if r.Ok? && db.conversations[conv].kind == Direct {
      forall c | c in db'.conversations ensures Good(db', c) && LastIsNewest(db', c) && Rows(db', c) == Rows(db, c) {
        LastStaysNewest(db, db', c);
        UntouchedStaysGood(db, db', c);
      }
    } else if r.Ok? {
      GroupRowChange(db, db', conv, requester, db.members[(conv, requester)].(leftAt := Some(now)));
    }
  }

  /** In a good database storing a message changes no membership at all. */
  lemma StoringLeavesMembersAlone(db: Db, conv: ConvId, now: int, id: MessageId, db': Db, recipients: set<UserId>)
    requires Inv(db) && Stores(db, conv, now, id, db', recipients)
    ensures db'.members == db.members
    ensures recipients == ActiveMembers(db, conv)
  {
  }

  lemma StoringKeepsOne(db: Db, conv: ConvId, now: int, id: MessageId, db': Db, recipients: set<UserId>, c: ConvId)
    requires Inv(db) && conv in db.conversations && id !in db.messages && Stores(db, conv, now, id, db', recipients)
    requires db'.members == db.members && c in db.conversations
    ensures c in db'.conversations && db'.conversations[c].kind == db.conversations[c].kind
    ensures Good(db', c) && LastIsNewest(db', c) && Rows(db', c) == Rows(db, c)
  {
    UntouchedStaysGood(db, db', c);
    if c != conv {
      LastStaysNewest(db, db', c);
    } else {
      NewestAfterStoring(db, conv, now, id, db');
    }
  }

  lemma {:induction false} StoringKeepsInv(
    db: Db, conv: ConvId, now: int, id: MessageId, db': Db, recipients: set<UserId>)
    requires Inv(db) && conv in db.conversations && id !in db.messages && Stores(db, conv, now, id, db', recipients)
    ensures Inv(db')
  {
    StoringLeavesMembersAlone(db, conv, now, id, db', recipients);
    assert db'.conversations.Keys == db.conversations.Keys;
    forall c | c in db.conversations
      ensures db'.conversations[c].kind == db.conversations[c].kind
      ensures Good(db', c) && LastIsNewest(db', c) && Rows(db', c) == Rows(db, c)
    {
      StoringKeepsOne(db, conv, now, id, db', recipients, c);
    }
    StillOnePerPair(db, db');
    assert NoOrphans(db');
  }

  lemma NewestAfterStoring(db: Db, conv: ConvId, now: int, id: MessageId, db': Db)
    requires conv in db.conversations && conv in db'.conversations && LastIsNewest(db, conv) && id !in db.messages
    requires db'.messages == db.messages[id := Message(conv, now)]
    requires db'.conversations[conv].lastMessageAt == LaterOf(db.conversations[conv].lastMessageAt, now)
    ensures LastIsNewest(db', conv)
  {
    assert db'.messages[id] == Message(conv, now);
    var last := db.conversations[conv].lastMessageAt;
    if last.Some? {
      var m :| m in db.messages && db.messages[m] == Message(conv, last.value);
      assert db'.messages[m] == Message(conv, last.value);
    }
  }

  lemma ActiveHasConversation(db: Db, conv: ConvId, user: UserId)
    requires Inv(db) && IsActive(db, conv, user)
    ensures conv in db.conversations
  {
  }

  lemma {:induction false} StepKeepsInv(db: Db, op: Op, db': Db)
    requires Inv(db) && Step(db, op, db')
    ensures Inv(db')
  {
    match op {
      case OpCreateDirect(creator, others, now, id) =>
        var r :| CreatesDirect(db, creator, others, now, id, db', r);
        CreateDirectKeepsInv(db, creator, others, now, id, db', r);
      case OpCreateGroup(creator, others, now, id) =>
        var r :| CreatesGroup(db, creator, others, now, id, db', r);
        CreateGroupKeepsInv(db, creator, others, now, id, db', r);
      case OpAdd(conv, actor, target, now) =>
        var r :| AddsParticipant(db, conv, actor, target, now, db', r);
        if r.Ok? {
          GroupRowChange(db, db', conv, target, db'.members[(conv, target)]);
        }
      case OpRemove(conv, actor, target, now) =>
        var r :| RemovesParticipant(db, conv, actor, target, now, db', r);
        if r.Ok? {
          GroupRowChange(db, db', conv, target, db'.members[(conv, target)]);
        }
      case OpDelete(conv, requester, now) =>
        var r :| Deletes(db, conv, requester, now, db', r);
        DeleteKeepsInv(db, conv, requester, now, db', r);
      case OpSend(conv, sender, keyActive, envelopeValid, decodes, now, id) =>
        var r :| Sends(db, conv, sender, keyActive, envelopeValid, decodes, now, id, db', r);
        if r.Ok? {
          ActiveHasConversation(db, conv, sender);
          StoringKeepsInv(db, conv, now, id, db', r.value);
        }
      case OpUpload(conv, sender, up, now, id) =>
        var r :| Uploads(db, conv, sender, up, now, id, db', r);
        if r.Ok? {
          ActiveHasConversation(db, conv, sender);
          StoringKeepsInv(db, conv, now, id, db', r.value);
        }
    }
  }

  lemma RunKeepsInv(dbs: seq<Db>, ops: seq<Op>, n: nat)
    requires IsRun(dbs, ops) && dbs[0] == EMPTY && n < |dbs|
    ensures Inv(dbs[n])
  {
    forall db, op, db' | Inv(db) && Step(db, op, db') ensures Inv(db') {
      StepKeepsInv(db, op, db');
    }
    Runs.Invariant(Step, Inv, dbs, ops, 0, n);
  }

  /**
   At every point of every run from an empty database, a direct conversation has exactly two
   members, both active and never having left, and shares both with no other direct conversation;
   so any two users share at most one, and it is theirs alone.
   */
  lemma DirectConversationsArePairs(dbs: seq<Db>, ops: seq<Op>, n: nat, conv: ConvId)
    requires IsRun(dbs, ops) && dbs[0] == EMPTY && n < |dbs|
    requires conv in dbs[n].conversations && dbs[n].conversations[conv].kind == Direct
    ensures var db := dbs[n];
            && |Rows(db, conv)| == 2 && ActiveMembers(db, conv) == Rows(db, conv)
            && forall u <- Rows(db, conv) :: (conv, u) in db.members && db.members[(conv, u)].leftAt == None
    ensures forall other <- dbs[n].conversations ::
              dbs[n].conversations[other].kind == Direct && Rows(dbs[n], other) == Rows(dbs[n], conv) ==> other == conv
    ensures forall a: UserId, b: UserId, other ::
              a != b && IsDirectOf(dbs[n], conv, a, b) && IsDirectOf(dbs[n], other, a, b) ==>
              other == conv && Rows(dbs[n], conv) == {a, b}
  {
    RunKeepsInv(dbs, ops, n);
    var db := dbs[n];
    assert Good(db, conv);
    RowsAre(db, conv);
    assert ActiveMembers(db, conv) == Rows(db, conv);
    forall a: UserId, b: UserId, other | a != b && IsDirectOf(db, conv, a, b) && IsDirectOf(db, other, a, b)
      ensures other == conv && Rows(db, conv) == {a, b}
    {
      assert Good(db, other);
      RowsAre(db, other);
      PairIs(Rows(db, conv), a, b);
      PairIs(Rows(db, other), a, b);
    }
  }

  /** Sending and uploading therefore reactivate nobody: no membership row ever changes by them. */
  lemma ReactivationLoopsChangeNothing(dbs: seq<Db>, ops: seq<Op>, n: nat)
    requires IsRun(dbs, ops) && dbs[0] == EMPTY && n < |ops| && (ops[n].OpSend? || ops[n].OpUpload?)
    ensures dbs[n + 1].members == dbs[n].members
  {
    RunKeepsInv(dbs, ops, n);
    var db, db' := dbs[n], dbs[n + 1];
    assert Step(db, ops[n], db');
    match ops[n] {
      case OpSend(conv, sender, keyActive, envelopeValid, decodes, now, id) =>
        var r :| Sends(db, conv, sender, keyActive, envelopeValid, decodes, now, id, db', r);
        if r.Ok? {
          StoringLeavesMembersAlone(db, conv, now, id, db', r.value);
        }
      case OpUpload(conv, sender, up, now, id) =>
        var r :| Uploads(db, conv, sender, up, now, id, db', r);
        if r.Ok? {
          StoringLeavesMembersAlone(db, conv, now, id, db', r.value);
        }
    }
  }

  /** Starting the same pair again, from either side, finds the same conversation and changes nothing. */
  lemma CreateDirectIsGetOrCreate(dbs: seq<Db>, ops: seq<Op>, n: nat, a: UserId, b: UserId, now: int, id: ConvId,
                                  db1: Db, first: Result<ConvId, Error>, now': int, id': ConvId, db2: Db,
                                  second: Result<ConvId, Error>)
    requires IsRun(dbs, ops) && dbs[0] == EMPTY && n < |dbs|
    requires a != b && id !in dbs[n].conversations && id' !in db1.conversations
    requires CreatesDirect(dbs[n], a, [b], now, id, db1, first)
    requires CreatesDirect(db1, b, [a], now', id', db2, second)
    ensures first.Ok? && second == first && db2 == db1 && IsDirectOf(db1, first.value, a, b)
  {
    RunKeepsInv(dbs, ops, n);
    CreateDirectKeepsInv(dbs[n], a, [b], now, id, db1, first);
    assert IsDirectOf(db1, first.value, a, b);
    assert IsDirectOf(db1, first.value, b, a);
    CreateDirectKeepsInv(db1, b, [a], now', id', db2, second);
    var same := second.value;
    RowsAre(db1, first.value);
    RowsAre(db1, same);
    assert Good(db1, first.value) && Good(db1, same);
    PairIs(Rows(db1, first.value), a, b);
    PairIs(Rows(db1, same), a, b);
  }

  /** `last_message_at` is at every point the newest stored message's time. */
  lemma LastMessageAtIsNewest(dbs: seq<Db>, ops: seq<Op>, n: nat, conv: ConvId)
    requires IsRun(dbs, ops) && dbs[0] == EMPTY && n < |dbs| && conv in dbs[n].conversations
    ensures LastIsNewest(dbs[n], conv)
  {
    RunKeepsInv(dbs, ops, n);
  }

  // ---- Groups whose admin has left -------------------------------------------------

  /** The one admin of the group has left. */
  predicate Orphaned(db: Db, conv: ConvId) {
    && conv in db.conversations && db.conversations[conv].kind == Group
    && (conv, db.conversations[conv].createdBy) in db.members
    && !IsActive(db, conv, db.conversations[conv].createdBy)
  }

  /** No row of `conv` is admitted: its active members can only go. */
  lemma ActiveShrinks(db: Db, db': Db, conv: ConvId)
    requires Orphaned(db, conv) && conv in db'.conversations
    requires db'.conversations[conv].kind == Group
    requires db'.conversations[conv].createdBy == db.conversations[conv].createdBy
    requires forall u :: (conv, u) in db.members ==> (conv, u) in db'.members
    requires forall u :: IsActive(db', conv, u) ==> IsActive(db, conv, u)
    ensures Orphaned(db', conv) && ActiveMembers(db', conv) <= ActiveMembers(db, conv)
  {
    RowsAre(db, conv);
    RowsAre(db', conv);
  }

  lemma OrphanHasNoAdmin(db: Db, conv: ConvId)
    requires Inv(db) && Orphaned(db, conv)
    ensures forall u :: !IsActiveAdmin(db, conv, u)
  {
  }

  lemma OrphanAfterStoring(db: Db, c: ConvId, now: int, id: MessageId, db': Db, recipients: set<UserId>, conv: ConvId)
    requires Inv(db) && Orphaned(db, conv) && Stores(db, c, now, id, db', recipients)
    ensures Orphaned(db', conv) && ActiveMembers(db', conv) <= ActiveMembers(db, conv)
  {
  }

  lemma OrphanAfterDirect(db: Db, op: Op, db': Db, conv: ConvId)
    requires Inv(db) && Orphaned(db, conv) && Step(db, op, db') && op.OpCreateDirect?
    ensures Orphaned(db', conv) && ActiveMembers(db', conv) <= ActiveMembers(db, conv)
  {
  }

  lemma OrphanAfterGroup(db: Db, creator: UserId, others: seq<UserId>, now: int, id: ConvId, db': Db,
                         r: Result<ConvId, Error>, conv: ConvId)
    requires Inv(db) && Orphaned(db, conv) && id !in db.conversations
             && CreatesGroup(db, creator, others, now, id, db', r)
    ensures Orphaned(db', conv) && ActiveMembers(db', conv) <= ActiveMembers(db, conv)
  {
    ActiveShrinks(db, db', conv);
  }

  lemma {:induction false} OrphanAfterMembership(db: Db, op: Op, db': Db, conv: ConvId)
    requires Inv(db) && Orphaned(db, conv) && Step(db, op, db') && (op.OpAdd? || op.OpRemove? || op.OpDelete?)
    ensures Orphaned(db', conv) && ActiveMembers(db', conv) <= ActiveMembers(db, conv)
  {
    OrphanHasNoAdmin(db, conv);
    if op.OpAdd? {
      var r :| AddsParticipant(db, op.conv, op.actor, op.target, op.now, db', r);
    } else if op.OpRemove? {
      var r :| RemovesParticipant(db, op.conv, op.actor, op.target, op.now, db', r);
    } else {
      var r :| Deletes(db, op.conv, op.requester, op.now, db', r);
    }
    ActiveShrinks(db, db', conv);
  }

  lemma {:induction false} OrphanedGroupStep(db: Db, op: Op, db': Db, conv: ConvId)
    requires Inv(db) && Orphaned(db, conv) && Step(db, op, db')
    ensures Orphaned(db', conv) && ActiveMembers(db', conv) <= ActiveMembers(db, conv)
  {
    match op {
      case OpSend(c, sender, keyActive, envelopeValid, decodes, now, id) =>
        var r :| Sends(db, c, sender, keyActive, envelopeValid, decodes, now, id, db', r);
        if r.Ok? {
          OrphanAfterStoring(db, c, now, id, db', r.value, conv);
        }
      case OpUpload(c, sender, up, now, id) =>
        var r :| Uploads(db, c, sender, up, now, id, db', r);
        if r.Ok? {
          OrphanAfterStoring(db, c, now, id, db', r.value, conv);
        }
      case OpCreateDirect(_, _, _, _) => OrphanAfterDirect(db, op, db', conv);
      case OpCreateGroup(creator, others, now, id) =>
        var r :| CreatesGroup(db, creator, others, now, id, db', r);
        OrphanAfterGroup(db, creator, others, now, id, db', r, conv);
      case _ => OrphanAfterMembership(db, op, db', conv);
    }
  }

  /** Every group has exactly one admin row, its creator's. */
  lemma GroupHasOneAdmin(dbs: seq<Db>, ops: seq<Op>, n: nat, conv: ConvId, u: UserId)
    requires IsRun(dbs, ops) && dbs[0] == EMPTY && n < |dbs|
    requires conv in dbs[n].conversations && dbs[n].conversations[conv].kind == Group
    ensures ((conv, u) in dbs[n].members && dbs[n].members[(conv, u)].role == Some(GroupAdmin)) <==>
            u == dbs[n].conversations[conv].createdBy
  {
    RunKeepsInv(dbs, ops, n);
    RowsAre(dbs[n], conv);
    assert Good(dbs[n], conv);
  }

  /** The group is orphaned and has no active member it did not have in `first`. */
  predicate OnlyShrunk(first: Db, db: Db, conv: ConvId) {
    Orphaned(db, conv) && ActiveMembers(db, conv) <= ActiveMembers(first, conv)
  }

  lemma OrphanedOneMore(first: Db, dbs: seq<Db>, ops: seq<Op>, n: nat, conv: ConvId)
    requires IsRun(dbs, ops) && dbs[0] == EMPTY && n < |ops| && OnlyShrunk(first, dbs[n], conv)
    ensures OnlyShrunk(first, dbs[n + 1], conv)
  {
    RunKeepsInv(dbs, ops, n);
    assert Step(dbs[n], ops[n], dbs[n + 1]);
    OrphanedGroupStep(dbs[n], ops[n], dbs[n + 1], conv);
  }

  /**
   Once the admin has left, the group's active members never grow again, in any
   continuation and whatever is sent, uploaded or attempted.
   */
  lemma {:induction false} OrphanedGroupNeverGrows(dbs: seq<Db>, ops: seq<Op>, from: nat, to: nat, conv: ConvId)
    requires IsRun(dbs, ops) && dbs[0] == EMPTY && from <= to < |dbs|
    requires Orphaned(dbs[from], conv)
    ensures OnlyShrunk(dbs[from], dbs[to], conv)
  {
    if from < to {
      OrphanedGroupNeverGrows(dbs, ops, from, to - 1, conv);
      OrphanedOneMore(dbs[from], dbs, ops, to - 1, conv);
    }
  }

  // ---- Who may change what -----------------------------------------------------------

  /** The group's creator calls, and is still active. */
  predicate ByActiveCreator(db: Db, conv: ConvId, actor: UserId) {
    conv in db.conversations && actor == db.conversations[conv].createdBy && IsActive(db, conv, actor)
  }

  /** In a reachable database the active admin of a group is its active creator and nobody else. */
  lemma AdminIsCreator(db: Db, conv: ConvId, u: UserId)
    requires Inv(db) && conv in db.conversations && db.conversations[conv].kind == Group
    ensures IsActiveAdmin(db, conv, u) <==> ByActiveCreator(db, conv, u)
  {
    RowsAre(db, conv);
    assert Good(db, conv);
  }

  /** The steps that end `u`'s membership: leaving, being removed by the active creator, or deleting the chat. */
  predicate Ends(db: Db, op: Op, conv: ConvId, u: UserId) {
    || (op.OpRemove? && op.conv == conv && op.target == u && (op.actor == u || ByActiveCreator(db, conv, op.actor)))
    || (op.OpDelete? && op.conv == conv && op.requester == u)
  }

  /** The step that begins it: an addition by the active creator. */
  predicate Begins(db: Db, op: Op, conv: ConvId, u: UserId) {
    op.OpAdd? && op.conv == conv && op.target == u && ByActiveCreator(db, conv, op.actor)
  }

  lemma MembershipStep(db: Db, op: Op, db': Db, conv: ConvId, u: UserId)
    requires Inv(db) && Step(db, op, db') && (op.OpAdd? || op.OpRemove? || op.OpDelete?)
    requires conv in db.conversations && conv in db'.conversations && db.conversations[conv].kind == Group
    ensures IsActive(db', conv, u) <==> if IsActive(db, conv, u) then !Ends(db, op, conv, u)
            else Begins(db, op, conv, u)
  {
    AdminIsCreator(db, conv, if op.OpDelete? then u else op.actor);
    if op.OpAdd? {
      var r :| AddsParticipant(db, op.conv, op.actor, op.target, op.now, db', r);
    } else if op.OpRemove? {
      var r :| RemovesParticipant(db, op.conv, op.actor, op.target, op.now, db', r);
    } else {
      var r :| Deletes(db, op.conv, op.requester, op.now, db', r);
    }
  }

  predicate SameRow(db: Db, db': Db, k: (ConvId, UserId)) {
    (k in db'.members <==> k in db.members) && (k in db.members ==> db'.members[k] == db.members[k])
  }

  lemma DirectKeepsRow(db: Db, creator: UserId, others: seq<UserId>, now: int, id: ConvId, db': Db,
                       r: Result<ConvId, Error>, k: (ConvId, UserId))
    requires Inv(db) && id !in db.conversations && CreatesDirect(db, creator, others, now, id, db', r)
             && k.0 in db.conversations
    ensures SameRow(db, db', k)
  {
    CreateDirectKeepsInv(db, creator, others, now, id, db', r);
    if r.Ok? && r.value == id {
      assert db.conversations != db'.conversations ==> k.0 != id;
    }
  }

  lemma GroupKeepsRow(db: Db, creator: UserId, others: seq<UserId>, now: int, id: ConvId, db': Db,
                      r: Result<ConvId, Error>, k: (ConvId, UserId))
    requires id !in db.conversations && CreatesGroup(db, creator, others, now, id, db', r) && k.0 in db.conversations
    ensures SameRow(db, db', k)
  {
  }

  /** Creating a conversation leaves every row of the others alone. */
  lemma CreationKeepsRow(db: Db, op: Op, db': Db, k: (ConvId, UserId))
    requires Inv(db) && Step(db, op, db') && (op.OpCreateDirect? || op.OpCreateGroup?) && k.0 in db.conversations
    ensures SameRow(db, db', k)
  {
    if op.OpCreateDirect? {
      var r :| CreatesDirect(db, op.creator, op.others, op.now, op.id, db', r);
      DirectKeepsRow(db, op.creator, op.others, op.now, op.id, db', r, k);
    } else {
      var r :| CreatesGroup(db, op.creator, op.others, op.now, op.id, db', r);
      GroupKeepsRow(db, op.creator, op.others, op.now, op.id, db', r, k);
    }
  }

  lemma OtherStepsKeepGroupMembers(db: Db, op: Op, db': Db, conv: ConvId, u: UserId)
    requires Inv(db) && Step(db, op, db') && !op.OpAdd? && !op.OpRemove? && !op.OpDelete?
    requires conv in db.conversations && db.conversations[conv].kind == Group
    ensures IsActive(db', conv, u) <==> IsActive(db, conv, u)
  {
    match op {
      case OpSend(c, sender, keyActive, envelopeValid, decodes, now, id) =>
        var r :| Sends(db, c, sender, keyActive, envelopeValid, decodes, now, id, db', r);
      case OpUpload(c, sender, up, now, id) =>
        var r :| Uploads(db, c, sender, up, now, id, db', r);
      case _ => CreationKeepsRow(db, op, db', (conv, u));
    }
  }

  /**
   In every run from an empty database, in a group that survives a step: a member stops being
   active exactly if they leave or delete the chat themselves or the active creator removes them,
   and somebody becomes active exactly if the active creator adds them.
   */
  lemma GroupMembersChangeExactlySo(dbs: seq<Db>, ops: seq<Op>, n: nat, conv: ConvId, u: UserId)
    requires IsRun(dbs, ops) && dbs[0] == EMPTY && n < |ops|
    requires conv in dbs[n].conversations && conv in dbs[n + 1].conversations
             && dbs[n].conversations[conv].kind == Group
    ensures IsActive(dbs[n + 1], conv, u) <==>
            if IsActive(dbs[n], conv, u) then !Ends(dbs[n], ops[n], conv, u) else Begins(dbs[n], ops[n], conv, u)
  {
    RunKeepsInv(dbs, ops, n);
    assert Step(dbs[n], ops[n], dbs[n + 1]);
    if ops[n].OpAdd? || ops[n].OpRemove? || ops[n].OpDelete? {
      MembershipStep(dbs[n], ops[n], dbs[n + 1], conv, u);
    } else {
      OtherStepsKeepGroupMembers(dbs[n], ops[n], dbs[n + 1], conv, u);
    }
  }

  /** A new group has exactly its creator and those named as active members; without anyone else named there is none. */
  lemma GroupStartsWithThoseNamed(dbs: seq<Db>, ops: seq<Op>, n: nat, u: UserId)
    requires IsRun(dbs, ops) && dbs[0] == EMPTY && n < |ops| && ops[n].OpCreateGroup?
    ensures var op, db, db' := ops[n], dbs[n], dbs[n + 1];
            if forall other <- op.others :: other == op.creator then db' == db
            else
              && op.id in db'.conversations && db'.conversations[op.id].kind == Group
              && db'.conversations[op.id].createdBy == op.creator
              && (IsActive(db', op.id, u) <==> u == op.creator || u in op.others)
  {
    RunKeepsInv(dbs, ops, n);
    var op, db, db' := ops[n], dbs[n], dbs[n + 1];
    assert Step(db, op, db');
    var r :| CreatesGroup(db, op.creator, op.others, op.now, op.id, db', r);
    assert (op.id, u) !in db.members;
    if other :| other in op.others && other != op.creator {
      assert other in ToSet(op.others) - {op.creator};
    }
  }

  /** Starting a direct conversation needs exactly one other user, and leaves the two sharing one. */
  lemma DirectStartsBetweenTwo(dbs: seq<Db>, ops: seq<Op>, n: nat)
    requires IsRun(dbs, ops) && dbs[0] == EMPTY && n < |ops| && ops[n].OpCreateDirect?
    ensures var op, db, db' := ops[n], dbs[n], dbs[n + 1];
            if |op.others| == 1 && op.others[0] != op.creator
            then exists conv :: IsDirectOf(db', conv, op.creator, op.others[0])
            else db' == db
  {
    var op, db' := ops[n], dbs[n + 1];
    assert Step(dbs[n], op, db');
    var r :| CreatesDirect(dbs[n], op.creator, op.others, op.now, op.id, db', r);
    if r.Ok? {
      assert IsDirectOf(db', r.value, op.creator, op.others[0]);
    }
  }

  /** The conditions under which a step stores a message `m`. */
  predicate Stored(db: Db, op: Op, m: MessageId) {
    || (op.OpSend? && op.messageId == m && IsActive(db, op.conv, op.sender)
        && op.keyActive && op.envelopeValid && op.decodes)
    || (op.OpUpload? && op.messageId == m && IsActive(db, op.conv, op.sender)
        && op.up.keyActive && op.up.envelopeValid && 0 < op.up.declared <= op.up.maxBytes
        && op.up.chunks.Some? && Sum(op.up.chunks.value) == op.up.declared)
  }

  /**
   In every run a message is stored exactly if an active member sends or uploads it, under an
   active identity key, with a valid envelope, and with a text that decodes or a file whose bytes
   are as many as declared and allowed.
   */
  lemma StoredExactlyIfAllowed(dbs: seq<Db>, ops: seq<Op>, n: nat, m: MessageId)
    requires IsRun(dbs, ops) && dbs[0] == EMPTY && n < |ops| && m !in dbs[n].messages
    ensures m in dbs[n + 1].messages <==> Stored(dbs[n], ops[n], m)
    ensures m in dbs[n + 1].messages ==> dbs[n + 1].messages[m] == Message(ops[n].conv, ops[n].now)
  {
    var db, op, db' := dbs[n], ops[n], dbs[n + 1];
    assert Step(db, op, db');
    match op {
      case OpCreateDirect(creator, others, now, id) =>
        var r :| CreatesDirect(db, creator, others, now, id, db', r);
      case OpCreateGroup(creator, others, now, id) =>
        var r :| CreatesGroup(db, creator, others, now, id, db', r);
      case OpAdd(conv, actor, target, now) =>
        var r :| AddsParticipant(db, conv, actor, target, now, db', r);
      case OpRemove(conv, actor, target, now) =>
        var r :| RemovesParticipant(db, conv, actor, target, now, db', r);
      case OpDelete(conv, requester, now) =>
        var r :| Deletes(db, conv, requester, now, db', r);
      case OpSend(conv, sender, keyActive, envelopeValid, decodes, now, id) =>
        var r :| Sends(db, conv, sender, keyActive, envelopeValid, decodes, now, id, db', r);
      case OpUpload(conv, sender, up, now, id) =>
        var r :| Uploads(db, conv, sender, up, now, id, db', r);
    }
  }

  /** In every reachable database a message goes to exactly the conversation's active members. */
  lemma RecipientsAreActiveMembers(dbs: seq<Db>, ops: seq<Op>, n: nat, conv: ConvId, sender: UserId, keyActive: bool,
                                   envelopeValid: bool, decodes: bool, now: int, id: MessageId, db': Db,
                                   recipients: set<UserId>)
    requires IsRun(dbs, ops) && dbs[0] == EMPTY && n < |dbs|
    requires Sends(dbs[n], conv, sender, keyActive, envelopeValid, decodes, now, id, db', Ok(recipients))
    ensures sender in recipients && forall u :: u in recipients <==> IsActive(dbs[n], conv, u)
  {
    RunKeepsInv(dbs, ops, n);
    RowsAre(dbs[n], conv);
    ActiveHasConversation(dbs[n], conv, sender);
    assert Good(dbs[n], conv);
  }

  /** The rows and messages of a conversation. */
  predicate NothingOf(db: Db, conv: ConvId) {
    (forall k <- db.members :: k.0 != conv) && (forall m <- db.messages :: db.messages[m].conv != conv)
  }

  /** Everything but conversation `gone` is as it was. */
  ghost predicate OnlyLost(db: Db, db': Db, gone: ConvId) {
    && (forall c :: c != gone ==> (c in db'.conversations <==> c in db.conversations))
    && (forall c <- db'.conversations :: c in db.conversations && db'.conversations[c] == db.conversations[c])
    && (forall k <- db.members :: k.0 != gone ==> k in db'.members && db'.members[k] == db.members[k])
    && (forall m <- db.messages :: db.messages[m].conv != gone ==>
        m in db'.messages && db'.messages[m] == db.messages[m])
  }

  /**
   In every run a conversation ends exactly if an active member deletes it and it is direct; then
   none of its rows and messages remain, and everything else stays as it was.
   */
  lemma EndsExactlyIfDeleted(dbs: seq<Db>, ops: seq<Op>, n: nat, conv: ConvId)
    requires IsRun(dbs, ops) && dbs[0] == EMPTY && n < |ops| && conv in dbs[n].conversations
    ensures conv !in dbs[n + 1].conversations <==>
            && dbs[n].conversations[conv].kind == Direct
            && ops[n].OpDelete? && ops[n].conv == conv && IsActive(dbs[n], conv, ops[n].requester)
    ensures conv !in dbs[n + 1].conversations ==> NothingOf(dbs[n + 1], conv) && OnlyLost(dbs[n], dbs[n + 1], conv)
  {
    var db, op, db' := dbs[n], ops[n], dbs[n + 1];
    assert Step(db, op, db');
    match op {
      case OpCreateDirect(creator, others, now, id) =>
        var r :| CreatesDirect(db, creator, others, now, id, db', r);
      case OpCreateGroup(creator, others, now, id) =>
        var r :| CreatesGroup(db, creator, others, now, id, db', r);
      case OpAdd(c, actor, target, now) =>
        var r :| AddsParticipant(db, c, actor, target, now, db', r);
      case OpRemove(c, actor, target, now) =>
        var r :| RemovesParticipant(db, c, actor, target, now, db', r);
      case OpDelete(c, requester, now) =>
        var r :| Deletes(db, c, requester, now, db', r);
      case OpSend(c, sender, keyActive, envelopeValid, decodes, now, id) =>
        var r :| Sends(db, c, sender, keyActive, envelopeValid, decodes, now, id, db', r);
      case OpUpload(c, sender, up, now, id) =>
        var r :| Uploads(db, c, sender, up, now, id, db', r);
    }
  }

  /** The row of `u`, where it exists before and after, keeps role and joining time. */
  predicate SameRoleAndJoin(db: Db, db': Db, conv: ConvId, u: UserId) {
    (conv, u) in db.members && (conv, u) in db'.members ==>
      && db'.members[(conv, u)].role == db.members[(conv, u)].role
      && db'.members[(conv, u)].joinedAt == db.members[(conv, u)].joinedAt
  }

  lemma CreationsKeepRows(db: Db, op: Op, db': Db, conv: ConvId, u: UserId)
    requires Inv(db) && Step(db, op, db') && (op.OpCreateDirect? || op.OpCreateGroup?)
    ensures SameRoleAndJoin(db, db', conv, u)
  {
    if (conv, u) in db.members {
      CreationKeepsRow(db, op, db', (conv, u));
    }
  }

  lemma ChangesKeepRows(db: Db, op: Op, db': Db, conv: ConvId, u: UserId)
    requires Step(db, op, db') && (op.OpAdd? || op.OpRemove? || op.OpDelete?)
    ensures SameRoleAndJoin(db, db', conv, u)
  {
    if op.OpAdd? {
      var r :| AddsParticipant(db, op.conv, op.actor, op.target, op.now, db', r);
    } else if op.OpRemove? {
      var r :| RemovesParticipant(db, op.conv, op.actor, op.target, op.now, db', r);
    } else {
      var r :| Deletes(db, op.conv, op.requester, op.now, db', r);
    }
  }

  lemma StoringKeepsRows(db: Db, op: Op, db': Db, conv: ConvId, u: UserId)
    requires Step(db, op, db') && (op.OpSend? || op.OpUpload?)
    ensures SameRoleAndJoin(db, db', conv, u)
  {
    if op.OpSend? {
      var r :| Sends(db, op.conv, op.sender, op.keyActive, op.envelopeValid, op.decodes, op.now, op.messageId, db', r);
    } else {
      var r :| Uploads(db, op.conv, op.sender, op.up, op.now, op.messageId, db', r);
    }
  }

  /**
   A membership keeps its role and its joining time for as long as its row exists, through leaving
   and coming back.
   */
  lemma RowsKeepRoleAndJoin(dbs: seq<Db>, ops: seq<Op>, n: nat, conv: ConvId, u: UserId)
    requires IsRun(dbs, ops) && dbs[0] == EMPTY && n < |ops|
    requires (conv, u) in dbs[n].members && (conv, u) in dbs[n + 1].members
    ensures var row, row' := dbs[n].members[(conv, u)], dbs[n + 1].members[(conv, u)];
            row'.role == row.role && row'.joinedAt == row.joinedAt
  {
    RunKeepsInv(dbs, ops, n);
    var op := ops[n];
    assert Step(dbs[n], op, dbs[n + 1]);
    if op.OpCreateDirect? || op.OpCreateGroup? {
      CreationsKeepRows(dbs[n], op, dbs[n + 1], conv, u);
    } else if op.OpSend? || op.OpUpload? {
      StoringKeepsRows(dbs[n], op, dbs[n + 1], conv, u);
    } else {
      ChangesKeepRows(dbs[n], op, dbs[n + 1], conv, u);
    }
  }

  // ---- Which refusal --------------------------------------------------------------------

  /** In a reachable database: exactly which addition is refused for what. */
  lemma AdditionRefusedFor(dbs: seq<Db>, ops: seq<Op>, n: nat, conv: ConvId, actor: UserId, target: UserId, now: int,
                           db': Db, r: Result<(), Error>)
    requires IsRun(dbs, ops) && dbs[0] == EMPTY && n < |dbs|
    requires AddsParticipant(dbs[n], conv, actor, target, now, db', r)
    ensures var db := dbs[n];
            var group := conv in db.conversations && db.conversations[conv].kind == Group;
            && (r == Err(ConversationNotFound) <==> conv !in db.conversations)
            && (r == Err(TypeMismatch) <==> conv in db.conversations && !group)
            && (r == Err(NotGroupAdmin) <==> group && !ByActiveCreator(db, conv, actor))
            && (r == Err(AlreadyActive) <==> group && ByActiveCreator(db, conv, actor) && IsActive(db, conv, target))
            && (r.Ok? <==> group && ByActiveCreator(db, conv, actor) && !IsActive(db, conv, target))
  {
    RunKeepsInv(dbs, ops, n);
    if conv in dbs[n].conversations && dbs[n].conversations[conv].kind == Group {
      AdminIsCreator(dbs[n], conv, actor);
    }
  }

  /** Which removal is refused for what. */
  lemma RemovalRefusedFor(dbs: seq<Db>, ops: seq<Op>, n: nat, conv: ConvId, actor: UserId, target: UserId, now: int,
                          db': Db, r: Result<(), Error>)
    requires IsRun(dbs, ops) && dbs[0] == EMPTY && n < |dbs|
    requires RemovesParticipant(dbs[n], conv, actor, target, now, db', r)
    ensures var db := dbs[n];
            var group := conv in db.conversations && db.conversations[conv].kind == Group;
            var may := actor == target || ByActiveCreator(db, conv, actor);
            && (r == Err(ConversationNotFound) <==> conv !in db.conversations)
            && (r == Err(TypeMismatch) <==> conv in db.conversations && !group)
            && (r == Err(NotParticipant) <==> group && !IsActive(db, conv, target))
            && (r == Err(NotGroupAdmin) <==> group && IsActive(db, conv, target) && !may)
            && (r.Ok? <==> group && IsActive(db, conv, target) && may)
  {
    RunKeepsInv(dbs, ops, n);
    if conv in dbs[n].conversations && dbs[n].conversations[conv].kind == Group {
      AdminIsCreator(dbs[n], conv, actor);
    }
  }

  /** Which deletion, which send and which upload is refused for what: the first check that fails decides. */
  lemma DeletionRefusedFor(db: Db, conv: ConvId, requester: UserId, now: int, db': Db, r: Result<(), Error>)
    requires Deletes(db, conv, requester, now, db', r)
    ensures r.Err? ==> db' == db
    ensures r == Err(ConversationNotFound) <==> conv !in db.conversations
    ensures r == Err(NotParticipant) <==> conv in db.conversations && !IsActive(db, conv, requester)
    ensures r.Ok? <==> conv in db.conversations && IsActive(db, conv, requester)
  {
  }

  lemma SendRefusedFor(db: Db, conv: ConvId, sender: UserId, keyActive: bool, envelopeValid: bool, decodes: bool,
                       now: int, id: MessageId, db': Db, r: Result<set<UserId>, Error>)
    requires Sends(db, conv, sender, keyActive, envelopeValid, decodes, now, id, db', r)
    ensures r.Err? ==> db' == db
    ensures r == Err(NotParticipant) <==> !IsActive(db, conv, sender)
    ensures r == Err(InvalidIdentityKey) <==> IsActive(db, conv, sender) && !keyActive
    ensures r == Err(InvalidEnvelope) <==> IsActive(db, conv, sender) && keyActive && !envelopeValid
    ensures r == Err(MalformedCiphertext) <==> IsActive(db, conv, sender) && keyActive && envelopeValid && !decodes
    ensures r.Ok? <==> IsActive(db, conv, sender) && keyActive && envelopeValid && decodes
  {
  }

  lemma UploadRefusedFor(db: Db, conv: ConvId, sender: UserId, up: Upload, now: int, id: MessageId, db': Db,
                         r: Result<set<UserId>, Error>)
    requires Uploads(db, conv, sender, up, now, id, db', r)
    ensures var sized := 0 < up.declared <= up.maxBytes;
            var sound := IsActive(db, conv, sender) && sized && up.keyActive && up.envelopeValid;
            && (r.Err? ==> db' == db)
            && (r == Err(NotParticipant) <==> !IsActive(db, conv, sender))
            && (r == Err(FileTooLarge) <==> IsActive(db, conv, sender) && !sized)
            && (r == Err(InvalidIdentityKey) <==> IsActive(db, conv, sender) && sized && !up.keyActive)
            && (r == Err(InvalidEnvelope) <==> IsActive(db, conv, sender) && sized && up.keyActive && !up.envelopeValid)
            && (r == Err(UploadFailed) <==> sound && up.chunks == None)
            && (r == Err(SizeMismatch) <==> sound && up.chunks.Some? && Sum(up.chunks.value) != up.declared)
            && (r.Ok? <==> sound && up.chunks.Some? && Sum(up.chunks.value) == up.declared)
  {
  }
}
