# Verified model of the messaging core

A Dafny 4.11 model of an end-to-end-encrypted messenger: a server that keeps conversations,
memberships, opaque messages, identity keys and sessions, and browsers that establish keys,
encrypt, and read history back. Cryptography is symbolic; what is proved is the protocol and
its state. Verify everything with `dafny verify dfyconfig.toml`.

## What is modelled

| file | part of the system |
|---|---|
| `GroupProtocol.dfy` | group epoch keys as a state machine over membership, shared log and every client's key store: who can ever hold which key |
| `GroupEpochs.dfy`, `GroupKeyStore.dfy`, `GroupReplay.dfy` | creating, wrapping, accepting and storing epoch keys; sealing; replaying a group log; choosing the epoch of a manual re-key |
| `GroupRuns.dfy` | what any client reads back of the log any run leaves |
| `DirectKeys.dfy`, `DirectRuns.dfy` | 1:1 key establishment, backup and replay; two browsers as a state machine: what each can read and when they agree |
| `Vault.dfy`, `IdentityWrap.dfy` | the password-wrapped identity: publish, recover, cache |
| `History.dfy`, `MessageCursor.dfy` | keyset pages, the walk back through the whole history with inserts in between, the cursor text |
| `Conversations.dfy`, `IdentityDirectory.dfy`, `Sessions.dfy` | the backend services and repositories as classes, and what every run of them keeps |
| `SingleFlight.dfy` | the API client's shared refresh, in every interleaving at await points |
| `Usernames.dfy`, `LikePattern.dfy`, `AccessTokens.dfy`, `Base64.dfy`, `WireBytes.dfy`, `FileFrame.dfy`, `AssociatedData.dfy` | the dense algorithms |
| `Runs.dfy`, `SymbolicCrypto.dfy`, `Decimal.dfy`, `Strings.dfy`, `Wrappers.dfy` | runs of a step relation; the term algebra for cryptography; decimal text, splitting, results |

Code that updates state is a class or method proved against a function or relation over plain
values; runs are then sequences of states linked by that function or relation, and the run
theorems are about those. A group client's steps are the stretches between its awaits, so
actions of different clients, and of one client's several pending actions, interleave freely: a
client may distribute from any participant list it ever obtained and post what it sealed later.

## Assumptions

- Backend service calls run one at a time; a call that raises is rolled back
  (`backend/src/core/database.py:20-33`).
- A KEM ciphertext opens to the shared secret only under the matching private key and to an
  unrelated secret under any other (FIPS 203); an AEAD box opens only under its own key, nonce
  and associated data; a signature verifies only under its signer's public key over the very
  same ciphertext, nonce and associated data (FIPS 204). Randomness is an argument; where two
  draws must differ, the step demands it.
- Epochs, times and ids are unbounded integers or text; JSON, UTF-8, ISO time and UUID text are
  invertible printers or left out; local storage is a map, once its key texts are proved distinct.
- One browser profile per signed-in user and one conversation per run in the group and 1:1
  machines; in a 1:1 run the two published identities stay as they are and a side posts or drops
  one message before it seals the next. A 1:1 send, receipt or backup may rest on a key or backup
  found at any earlier time.
- Recipients of a stored message are a set: the order of participants plays no part.
- `removeGroupMember` on oneself re-keys nothing, because the refreshed list no longer holds the
  conversation; the participant lists a client has obtained, by fetching or by its own creations
  and additions, are explicit state.
- Secrecy of epoch keys is stated over key values, not epoch numbers, since two clients may pick
  the same number at once.

## Where code and description disagree

The model follows the code.

- `AuthService.refresh` says a disabled account's old token is dead and its session revoked
  (`backend/src/services/auth_service.py:218-230`); it then raises, and the raise rolls back the
  rotation and the revocation. `Sessions.DisabledRefreshLeavesTokenAlive`.
- `rekeyGroup` promises an epoch strictly above any existing one
  (`frontend/src/store/messagingStore.ts:1021-1027`), but looks only at the stored marker and the
  displayed log, and loads nothing first. `GroupReplay.RekeyEpochAboveHistoryIff`: the promise
  fails exactly through entries this device missed and that nothing it saw covers: entries from
  before joining, distributions not wrapped for it, and entries it has not downloaded, as when two
  devices re-key at once. `GroupReplay.RekeyMayReuseAnEpoch` gives instances.
- The group key manager's header says no future epoch includes a removed member
  (`frontend/src/crypto/providers/groupKeyManager.ts:21-25`). A distribution includes a user, other
  than its creator's, exactly if they are on the participant list it was built from, whenever it
  is sent: `GroupProtocol.WrappedExactlyIfListed`, `GroupProtocol.StaleListDecides`. So it holds
  for lists fetched after the removal (`GroupProtocol.RemovedMemberGetsNoKeyOfTheGap`), and a
  re-key from an older list hands its key over (`GroupProtocol.StaleListReachesTheGap`).
- The key is stored and backed up before its keying message is posted
  (`frontend/src/store/messagingStore.ts:1161-1178`); if that post fails, later messages carry no
  KEM ciphertext and the peer cannot open them. `DirectRuns.LostKeyingMessageLocksPeerOut`.
- The guard against clobbering a fresher key (`frontend/src/store/messagingStore.ts:1153-1163`) does
  not make two crossing first messages converge: once both sides have posted a keying message,
  replaying the history on both never brings them together.
  `DirectRuns.SidesAgreeAfterReplayIff` says exactly when it does; `DirectRuns.CrossedKeyingsSwapKeys`
  is an instance.
- The delete route says nothing cascades (`backend/src/api/v1/conversations.py:110`); the service
  hard-deletes a direct conversation with its rows and messages. The reactivation of left direct
  members (`backend/src/services/messaging_service.py:139-153`) therefore never has anyone to
  reactivate. `Conversations.ReactivationLoopsChangeNothing`.
- The username loop has no bound: past 32 characters it repeats names already tried.
  `Usernames.EndsIffOneFits`; `UniqueUsername` demands exactly that condition, and
  `FindOrCreateUser` only where it creates an account.

## Model

| member | source | states |
|---|---|---|
| `GroupProtocol.HoldersWereAddressed` | frontend/src/store/messagingStore.ts:250-286 | over every run, a client holding an epoch key created it, or its user was one of those it was wrapped for, all of them active members when the distribution's participant list was fetched, however long before |
| `GroupProtocol.OutsiderAtFetchNeverHolds` | frontend/src/crypto/providers/groupKeyManager.ts:177-190 | a client whose user was not a member at that fetch never holds the key, on any continuation: neither a later member nor a removed one |
| `GroupProtocol.RemovedMemberGetsNoKeyOfTheGap` | frontend/src/store/messagingStore.ts:975-1006 | a user out of the group over a stretch of the run never holds, then or after rejoining, a key distributed from a list fetched in that stretch |
| `GroupProtocol.StaysOut` | backend/src/services/conversation_service.py:150-201 | without an addition or creation naming them, a user outside the group is in no later participant list |
| `GroupProtocol.WrappedExactlyIfListed` | frontend/src/store/messagingStore.ts:250-286 | over every run, a distribution in the log holds a wrap for a user other than its creator's exactly if that user is on the participant list it was built from |
| `GroupProtocol.StaleListDecides` | frontend/src/store/messagingStore.ts:1008-1054 | a key distributed while a user is out of the group is addressed to them, for ever after, exactly if they are on the distributing client's list, which then dates from while they were a member |
| `GroupProtocol.ProcessedKeyIsHeldIff` | frontend/src/crypto/providers/groupKeyManager.ts:177-190 | in every run, after processing a delivered distribution a client holds its key exactly if it did before or the distribution has a wrap under its current identity |
| `GroupProtocol.ComposedUnderTheMarker` | frontend/src/store/messagingStore.ts:1112-1134 | in every run, composing adds one record to the outbox: the text typed, for the epoch the client's marker names, sealed under the key stored for it; nothing else changes |
| `GroupProtocol.TextsUseTheNewestKey` | frontend/src/crypto/providers/groupKeyManager.ts:287-293 | after a client stores a key of an epoch above its marker, every text it composes is sealed under it until it forgets the conversation or gets another key of that epoch or above |
| `GroupProtocol.StepKeepsInv` | frontend/src/store/messagingStore.ts:842-1054 | create, add, remove, refresh, distribute, compose, post, receive, process and clear each keep the invariant on lists, wraps, sealed texts, outboxes, log and key stores |
| `GroupProtocol.RunKeepsInv` | frontend/src/store/messagingStore.ts:842-1054 | the invariant holds at every point of every interleaving of those steps |
| `GroupProtocol.RunGrows` | frontend/src/store/messagingStore.ts:250-286 | no step takes back history, log entries, published keys or the origin of a key |
| `GroupProtocol.WithoutTheKeyNothingOpens` | frontend/src/crypto/providers/groupKeyManager.ts:234-254 | a client without an epoch key opens nothing sealed under it with any key it stores |
| `GroupProtocol.AddressedClientGetsTheKey` | frontend/src/crypto/providers/groupKeyManager.ts:177-190 | processing a delivered distribution gives a client its key if and only if the client's current identity was addressed |
| `GroupProtocol.StaleListReachesTheGap` | frontend/src/store/messagingStore.ts:1008-1054 | a concrete run: a re-key from a list fetched before a removal hands its key to the removed user once re-admitted |
| `GroupRuns.RunLogIsSealed` | frontend/src/store/messagingStore.ts:250-286 | the log of every run is, for every client, one with distinct ids whose texts were sealed by the owner of the key they name |
| `GroupRuns.RunReplayReadsExactly` | frontend/src/store/messagingStore.ts:1527-1569 | so in every run, for every client, a replay reads, counts and fails exactly the texts their key by turn says |
| `GroupRuns.ReadTextIsEntitled` | frontend/src/store/messagingStore.ts:305-344 | a text a client reads back in any run is sealed under a key created for its epoch, by that client or wrapped for its user |
| `GroupRuns.ReadsOnlyWhatItWasGiven` | frontend/src/store/messagingStore.ts:1527-1569 | and in the second case its user was an active member when the key's participant list was fetched |
| `GroupRuns.RemovedMemberReadsNothingOfTheGap` | frontend/src/store/messagingStore.ts:975-1006 | a user out of the group over a stretch of a run never reads back, then or after rejoining, a text under a key someone else distributed from a list fetched in that stretch |
| `GroupRuns.TextsAfterRekeyStayClosed` | frontend/src/crypto/providers/groupKeyManager.ts:15-28 | after a client distributes a new key from a list that leaves a user out, no text it composes, until it forgets the conversation or gets another key of that epoch or above, is ever read back by any client of that user |
| `GroupRuns.OutsiderReadsNothing` | frontend/src/crypto/providers/groupKeyManager.ts:15-28 | a user outside the list a key was distributed from reads nothing sealed under it, in any run |
| `GroupRuns.ReplayedAmongFiles` | frontend/src/store/messagingStore.ts:288-313 | files shared in between change nothing of what a client reads back |
| `GroupRuns.RunHasOneKeyPerEpoch` | frontend/src/store/messagingStore.ts:256-261 | if no two distributions of a run picked the same epoch, its texts, its wraps and every client's store agree on one key per epoch |
| `GroupRuns.RunReadsIffWrapped` | frontend/src/store/messagingStore.ts:1521-1569 | in such a run, with distributions before their content, a client reads a text exactly if it is post-join and the key was stored or a post-join distribution of its epoch has a wrap under the client's identity |
| `GroupEpochs.CreateAndWrapNewEpoch` | frontend/src/crypto/providers/groupKeyManager.ts:160-172 | the epoch is the previous one plus one, exactly the recipients are addressed, and each wrap opens to the new key under the last KEM key listed for that id and under no other |
| `GroupEpochs.UnwrapOpensOnlyForRecipient` | frontend/src/crypto/providers/groupKeyManager.ts:71-102 | a wrap opens under the recipient's private key and no other |
| `GroupEpochs.AddressedKeyPresent` | frontend/src/crypto/providers/groupKeyManager.ts:167-170 | an id is addressed exactly if some recipient has it, and then by a key listed for it |
| `GroupEpochs.AcceptExactlyWhenAddressed` | frontend/src/crypto/providers/groupKeyManager.ts:177-190 | a distribution hands its key to exactly the identities it was built for, and gives everyone else nothing |
| `GroupEpochs.GroupMessageOpensOnlyInPlace` | frontend/src/crypto/providers/groupKeyManager.ts:207-254 | sealed content opens, to its own text, exactly under its epoch key, author's key, conversation, sender key id and epoch |
| `GroupKeyStore.SlotTextInjective` | frontend/src/crypto/providers/groupKeyManager.ts:258-264 | no two (conversation, epoch) items or epoch markers share a storage key |
| `GroupKeyStore.Store.Put` | frontend/src/crypto/providers/groupKeyManager.ts:287-293 | stores the key and moves the marker only to a newer epoch |
| `GroupKeyStore.Store.Forget` | frontend/src/crypto/providers/groupKeyManager.ts:295-303 | the deletion loop removes the marker and exactly the conversation's keys of epochs 1 up to it |
| `GroupKeyStore.ClearIsExact` | frontend/src/crypto/providers/groupKeyManager.ts:295-303 | clearing leaves nothing of the conversation exactly if every stored epoch was at least 1, and touches no other conversation |
| `GroupKeyStore.SetKeyKeepsMarker` | frontend/src/crypto/providers/groupKeyManager.ts:287-293 | storing any key in any conversation keeps every marker the greatest stored epoch |
| `GroupKeyStore.RunKeepsMarker` | frontend/src/crypto/providers/groupKeyManager.ts:266-304 | over every sequence of stores and clears the marker is the greatest stored epoch, and every epoch reads back the key last stored since the last clear |
| `GroupReplay.MessagingStore.OpenIncoming` | frontend/src/store/messagingStore.ts:305-344 | opening a group message absorbs a distribution, skips a file share, and otherwise ends in the text, the no-key failure or another failure |
| `GroupReplay.MessagingStore.DecryptConversationLog` | frontend/src/store/messagingStore.ts:1527-1569 | the loop over the log with its skips leaves caches, key store and count as the replay function says |
| `GroupReplay.ReplayReadsExactly` | frontend/src/store/messagingStore.ts:1527-1569 | on any honestly sealed log, from an empty text cache, even with several keys for one epoch: a post-join text is decrypted, to its own text, exactly if the key last stored or handed over for its epoch by its turn is the one it was sealed under; counted exactly if there is none; failed exactly if it is another; the keys held after are those last handed over |
| `GroupReplay.PlacedDistributionsDecide` | frontend/src/store/messagingStore.ts:1521-1526 | with one key per epoch and each distribution before its epoch's content, a text is read exactly if it is post-join and its key was stored or is wrapped for this device in some post-join distribution |
| `GroupReplay.InHandInTime` | frontend/src/store/messagingStore.ts:1521-1526 | where distributions come first, no later entry changes the key of a text's epoch |
| `GroupReplay.EveryTextIsAccountedFor` | frontend/src/store/messagingStore.ts:1539-1568 | on any log whatever: every post-join text not read before is decrypted, counted or recorded as failed, exactly one of them and once, so the count returned is exactly what remains |
| `GroupReplay.FilesPlayNoPart` | frontend/src/store/messagingStore.ts:288-313 | a replay is that of the log without the messages of kind "file", whatever epoch or wraps those name |
| `GroupReplay.OtherKindsPlayNoPart` | frontend/src/store/messagingStore.ts:288-313 | any other kind is as good as none |
| `GroupReplay.ReadTextsPlayNoPart` | frontend/src/store/messagingStore.ts:1540-1541 | a text read once is kept as it was and is neither opened, counted nor failed again |
| `GroupReplay.DisplayedAre` | frontend/src/store/messagingStore.ts:730-746 | the displayed log holds exactly the entries that are neither distributions nor from before joining |
| `GroupReplay.RekeyBaseEpoch` | frontend/src/store/messagingStore.ts:1028-1033 | the loop finds the greatest of the stored epoch and the displayed epochs |
| `GroupReplay.RekeyEpochIsNew` | frontend/src/store/messagingStore.ts:1028-1044 | the re-key epoch is above every epoch stored here and every displayed one, after any history of the store |
| `GroupReplay.MarkerAfterReplay` | frontend/src/store/messagingStore.ts:305-320 | a replay leaves the current-epoch marker at the greatest of what it was and the epochs handed over |
| `GroupReplay.RekeyEpochAboveHistoryIff` | frontend/src/store/messagingStore.ts:1021-1044 | after a replay of what was downloaded, the re-key epoch is above every epoch the server holds exactly if each entry this device missed, from before joining, a distribution not wrapped for it or not downloaded, is covered by the marker it started from or by an entry it was shown or handed |
| `GroupReplay.RekeyMayReuseAnEpoch` | frontend/src/store/messagingStore.ts:256-261 | two instances: a distribution downloaded but not wrapped for this device, or not downloaded yet, is not covered, and the new epoch repeats its number |
| `DirectKeys.PrepareOutgoing` | frontend/src/crypto/conversationCrypto.ts:155-198 | reuses an established key; otherwise encapsulates, and only the peer's private key establishes the same key from the envelope |
| `DirectKeys.OpenIncoming` | frontend/src/crypto/conversationCrypto.ts:209-256 | accepted exactly if the peer signed it and it is a box of this conversation under the key for it; a KEM ciphertext makes the cached key play no part; which error, in which order |
| `DirectKeys.OpenIncomingForConversation` | frontend/src/store/messagingStore.ts:346-384 | own messages under the resolved key, never decapsulated; a peer's key kept once its message opens |
| `DirectKeys.DecryptConversationLog` | frontend/src/store/messagingStore.ts:1540-1567 | the loop threads the key store through the messages oldest-first, as the replay function says |
| `DirectKeys.BackupRoundTrip` | frontend/src/crypto/conversationKeyBackup.ts:24-60 | a backup opens exactly under its wrapping key and its conversation id |
| `DirectKeys.OwnMessageNeverDecapsulated` | frontend/src/store/messagingStore.ts:348-377 | opening an own message does not depend on the own KEM key |
| `DirectKeys.OwnKeyingMessageWouldFail` | frontend/src/store/messagingStore.ts:348-357 | decapsulating one's own keying message would end in a tag failure |
| `DirectKeys.KeyingMessageAlwaysOpens` | frontend/src/crypto/conversationCrypto.ts:227-240 | a peer's keying message opens and brings its key whatever the recipient has cached or lost |
| `DirectKeys.MessageOpensOnlyInPlace` | frontend/src/crypto/conversationCrypto.ts:77-132 | a 1:1 message opens exactly under its key, author's key, conversation and sender key id |
| `DirectRuns.StepKeepsSealed` | frontend/src/store/messagingStore.ts:1143-1178 | each look-up, seal, post, receipt, backup and storage clear keeps: every message posted or under way is what its sender sealed for what was typed, and a KEM ciphertext in it establishes its own key for the other side |
| `DirectRuns.RunIsSealed` | frontend/src/store/messagingStore.ts:1143-1178 | so it is in every run, however many encapsulations it has |
| `DirectRuns.OpensOnReceipt` | frontend/src/store/messagingStore.ts:346-384 | in every run a message opens on receipt, to the text that was sent, exactly if it is the peer's keying message or the key found is the one it was sealed under |
| `DirectRuns.StoredKeyChangesExactlySo` | frontend/src/store/messagingStore.ts:1153-1163 | what each step does to the stored key, in every run: a key stored while a first message was being sealed stays, a found key is stored again, a recovered or accepted one replaces it |
| `DirectRuns.BackedUpKeySurvives` | frontend/src/store/messagingStore.ts:386-415 | a backed-up key is resolved again after local storage is lost, until another is backed up |
| `DirectRuns.ReplayOpensExactly` | frontend/src/store/messagingStore.ts:1527-1569 | in every run a full replay opens each message exactly if it is the peer's keying message or the key in hand by its turn, the last peer keying's before it or else the resolved one, is its own; the key held afterwards is the one in hand at the end |
| `DirectRuns.SidesAgreeAfterReplayIff` | frontend/src/crypto/conversationCrypto.ts:227-240 | in every run, after both sides replay they resolve the same exactly if: no keying message was posted and they did before; or only one side posted one and still resolves the key of its last; or both did, with the same KEM ciphertext, which different KEM keys rule out |
| `DirectRuns.StepKeepsAtMostOneKey` | frontend/src/store/messagingStore.ts:346-384 | with at most one encapsulation, every step keeps all keys anywhere, under way included, the one key |
| `DirectRuns.SidesAgree` | frontend/src/store/messagingStore.ts:346-384 | so in such a run two sides that hold a key (locally or in backup) hold the same one |
| `DirectRuns.ReplayOpensAllOrNothing` | frontend/src/store/messagingStore.ts:1527-1569 | the single-keying case of the replay theorem: it opens every message, own and peer's, exactly if the side still resolves the key or was sent it in a posted keying message; otherwise none |
| `DirectRuns.LostKeyingMessageLocksPeerOut` | frontend/src/store/messagingStore.ts:1161-1178 | a concrete run: a keying message that never reaches the server leaves the initiator's next message unreadable for the peer |
| `DirectRuns.CrossedKeyingsSwapKeys` | frontend/src/store/messagingStore.ts:1153-1163 | an instance: both sides post a first message, a replay leaves them apart; opening on receipt they swap keys and the next message fails for the peer |
| `Vault.WrapKeypairForPublish` | frontend/src/crypto/vault.ts:200-229 | the published record, both nonces copied side by side into one 24-byte field |
| `Vault.UnwrapGivesBackThePair` | frontend/src/crypto/vault.ts:233-268 | a published record gives back all four keys through the concatenated nonces |
| `Vault.UnwrapFailsIfTampered` | frontend/src/crypto/identityWrap.ts:115-127 | with either public key replaced or another wrapping key, unwrapping succeeds exactly if key and both public keys are the original ones |
| `Vault.CacheRoundTripIff` | frontend/src/crypto/vault.ts:132-160 | the cached form gives an identity back unchanged exactly when no wrapping field is an empty byte string |
| `Vault.IdentityVault.UnlockIdentity` | frontend/src/crypto/vault.ts:312-391 | the decision tree: result, browser cache, old global slot and server record after every branch, a publish refused or its answer lost included |
| `Vault.PublishedIdentityIsRecovered` | frontend/src/crypto/vault.ts:312-391 | an identity that reached the server through the generate path, even with the answer lost, is recovered on any browser without it, with the same password: same four keys, key id, salt and parameters, nothing published again |
| `Vault.RecoveryNeedsTheWrapKey` | frontend/src/crypto/identityWrap.ts:115-127 | another password recovers a published identity exactly if it derives the same wrapping key; otherwise nothing is cached or published |
| `Vault.LockedWithoutPassword` | frontend/src/crypto/vault.ts:320-325 | without a cached identity and a password, nothing but the refusal |
| `Vault.RecoveryPublishesNothing` | frontend/src/crypto/vault.ts:336-360 | a record that can be unwrapped is never replaced and the old global slot not emptied; success gives its key id |
| `Vault.OtherwiseAnIdentityIsPublished` | frontend/src/crypto/vault.ts:361-391 | any other record or none is replaced: the old global pair adopted if there is one, its slot emptied exactly once the publish is accepted, the record naming the identity's public keys, both nonces, the salt and this cipher |
| `Vault.UnlockedIdentityIsCached` | frontend/src/crypto/vault.ts:320-325 | after an unlock the browser answers without the password exactly if it was a cache hit or the salt is not empty |
| `IdentityWrap.ParseWrapKdfParams` | frontend/src/crypto/identityWrap.ts:55-78 | the loop over the parts, first bad part deciding the error, last repeat of a key winning |
| `IdentityWrap.ParamsRoundTrip` | frontend/src/crypto/identityWrap.ts:51-78 | parameters written in the stored form are read back exactly |
| `IdentityWrap.ParseAcceptsIff` | frontend/src/crypto/identityWrap.ts:55-78 | accepted, with given parameters, exactly if the text names argon2id, every part gives one of the three a positive value, and the last one for each is the one returned |
| `History.MessageTable.ListForConversation` | backend/src/repositories/message_repository.py:36-72 | a page is the newest messages older than the cursor, oldest first; a next cursor exists exactly if more are left, and is the page's first message |
| `History.PageInPlainTerms` | backend/src/repositories/message_repository.py:48-66 | as many as there are but at most the limit, taken as 1 below 1 and as 200 above 200; of this conversation, strictly before the cursor, ascending in (sent_at, id), all older ones left out only by a full page |
| `History.ReverseList` | backend/src/repositories/message_repository.py:66-66 | the in-place reversal of the page |
| `History.FetchAllMessages` | frontend/src/store/messagingStore.ts:453-464 | ascending; exactly the messages of the first fetch plus those that slipped in behind a cursor; in exactly as many fetches as that fills pages, whatever is inserted between them and for any limit |
| `History.QuietWalk` | frontend/src/store/messagingStore.ts:443-464 | while only newer messages arrive, however many: exactly the conversation as of the first fetch, oldest first, in as many fetches as that fills pages |
| `History.FlattenReversed` | frontend/src/store/messagingStore.ts:461-463 | the pages put back oldest first |
| `History.WalkIsSnapshotIff` | frontend/src/store/messagingStore.ts:443-464 | the result is the conversation as of the first fetch, in order and each once, exactly if nothing slips in behind the walk |
| `History.NewerArrivalsAreNeverLate` | frontend/src/store/messagingStore.ts:453-464 | messages newer than everything at the first fetch never slip in behind it, whatever the page size |
| `History.AscendingUnique` | backend/src/repositories/message_repository.py:59-66 | one set of messages has only one ascending list |
| `MessageCursor.CursorRoundTrip` | backend/src/repositories/message_repository.py:22-30 | a cursor handed back names the very position it was made from |
| `Conversations.ConversationService.CreateDirect` | backend/src/services/conversation_service.py:62-113 | get or create by unordered pair, every table and error |
| `Conversations.ConversationService.CreateGroup` | backend/src/services/conversation_service.py:115-148 | one admin row for the creator, one member row for each other distinct user |
| `Conversations.ConversationService.Distinct` | backend/src/services/conversation_service.py:130-134 | the creator and repeated ids dropped |
| `Conversations.ConversationService.AddParticipant` | backend/src/services/conversation_service.py:150-179 | reactivates or adds, for the active admin only |
| `Conversations.ConversationService.RemoveParticipant` | backend/src/services/conversation_service.py:181-201 | leaves by oneself or removed by the active admin; error order |
| `Conversations.ConversationService.DeleteConversation` | backend/src/services/conversation_service.py:218-244 | a direct conversation goes with its rows and messages, a group is only left |
| `Conversations.Repository.FindDirect` | backend/src/repositories/conversation_repository.py:51-74 | finds a direct conversation of the pair if there is one |
| `Conversations.Repository.MarkLeft` | backend/src/repositories/conversation_repository.py:137-143 | stamps a row once |
| `Conversations.Repository.MarkReactivated` | backend/src/repositories/conversation_repository.py:145-152 | clears the stamp of one row |
| `Conversations.Repository.UpdateLastMessageAt` | backend/src/repositories/conversation_repository.py:154-163 | moves the time forward only |
| `Conversations.Repository.StoreMessage` | backend/src/services/messaging_service.py:133-159 | the store, reactivate, collect-recipients and timestamp tail of send and upload |
| `Conversations.MessagingService.Send` | backend/src/services/messaging_service.py:88-161 | each refusal in its order, else the message, the recipients and the new state |
| `Conversations.FileService.CountBytes` | backend/src/services/file_service.py:45-57 | the counting reader adds up what was read |
| `Conversations.FileService.Accept` | backend/src/services/file_service.py:83-171 | each refusal of an upload in its order, else the same state change as a send |
| `Conversations.StepKeepsInv` | backend/src/services/conversation_service.py:62-252 | every operation, successful or refused, keeps all the invariants below |
| `Conversations.DirectConversationsArePairs` | backend/src/services/conversation_service.py:62-113 | at every point of every run from an empty database, any direct conversation has exactly two members, both active and never having left, and no other direct conversation has the same two |
| `Conversations.ReactivationLoopsChangeNothing` | backend/src/services/messaging_service.py:139-153 | so no send changes any membership row |
| `Conversations.CreateDirectIsGetOrCreate` | backend/src/services/conversation_service.py:68-80 | starting the same pair again from the other side gives the same conversation and changes nothing |
| `Conversations.DirectStartsBetweenTwo` | backend/src/services/conversation_service.py:62-113 | starting a direct conversation needs exactly one other user and leaves the two sharing one; otherwise nothing changes |
| `Conversations.LastMessageAtIsNewest` | backend/src/repositories/conversation_repository.py:154-163 | the last-message time is the newest stored message's, and absent without any |
| `Conversations.GroupHasOneAdmin` | backend/src/services/conversation_service.py:115-148 | a group has exactly one admin row, its creator's, in every run |
| `Conversations.GroupMembersChangeExactlySo` | backend/src/services/conversation_service.py:150-213 | in every run, in a group that survives a step: a member stops being active exactly if they leave or delete the chat themselves or the active creator removes them, and somebody becomes active exactly if the active creator adds them |
| `Conversations.GroupStartsWithThoseNamed` | backend/src/services/conversation_service.py:115-148 | a new group has exactly its creator and those named as active members; with nobody else named there is none |
| `Conversations.EndsExactlyIfDeleted` | backend/src/services/conversation_service.py:237-244 | a conversation ends exactly if it is direct and an active member deletes it; then none of its rows and messages remain and everything else is as it was |
| `Conversations.StoredExactlyIfAllowed` | backend/src/services/messaging_service.py:103-133 | in every run a message is stored exactly if an active member sends it under an active key with a valid envelope and decoding text, or uploads it with as many bytes as declared and allowed |
| `Conversations.RecipientsAreActiveMembers` | backend/src/services/messaging_service.py:135-155 | a message goes to exactly the active members, the sender among them |
| `Conversations.RowsKeepRoleAndJoin` | backend/src/repositories/conversation_repository.py:137-152 | a membership keeps its role and joining time through leaving and coming back |
| `Conversations.AdditionRefusedFor` | backend/src/services/conversation_service.py:150-179 | which addition is refused for what, in terms of the active creator |
| `Conversations.RemovalRefusedFor` | backend/src/services/conversation_service.py:181-201 | which removal is refused for what, likewise |
| `Conversations.DeletionRefusedFor` | backend/src/services/conversation_service.py:237-244 | which deletion is refused for what |
| `Conversations.SendRefusedFor` | backend/src/services/messaging_service.py:103-126 | which send is refused for what: the first check that fails |
| `Conversations.UploadRefusedFor` | backend/src/services/file_service.py:94-125 | which upload is refused for what, likewise |
| `Conversations.OrphanedGroupNeverGrows` | backend/src/services/conversation_service.py:203-213 | once the creator has left, the set of active members never grows again in any continuation |
| `IdentityDirectory.IdentityKeyService.Publish` | backend/src/services/identity_key_service.py:44-84 | adds the next version, or refuses and changes nothing |
| `IdentityDirectory.IdentityKeyService.Rotate` | backend/src/services/identity_key_service.py:100-155 | supersedes the newest active record and adds its successor only under a verifying attestation |
| `IdentityDirectory.IdentityKeyService.MarkSuperseded` | backend/src/repositories/identity_key_repository.py:42-48 | stamps one record |
| `IdentityDirectory.DirectoryMatchesHistory` | backend/src/services/identity_key_service.py:69-155 | after any run the n-th record has version n and the keys, material and label its call submitted, the newest is active, and record n is superseded exactly if record n+1 came from a rotation, whose attestation verifies under record n's signing key over both new keys |
| `IdentityDirectory.PublicationAcceptedIff` | backend/src/services/identity_key_service.py:44-84 | a publication is accepted exactly if all its material decodes, and becomes the newest record |
| `IdentityDirectory.ActiveHeadIsNewest` | backend/src/repositories/identity_key_repository.py:19-40 | the head of the active list is always the newest record |
| `IdentityDirectory.RotationAcceptedIff` | backend/src/services/identity_key_service.py:100-155 | in every reachable directory a rotation is accepted exactly if there is a record, the material decodes and the newest record's key attests it; refusals change nothing |
| `Sessions.AuthService.RefreshSession` | backend/src/services/session_service.py:57-78 | redeems the token of an active session and rotates it |
| `Sessions.AuthService.Refresh` | backend/src/services/auth_service.py:214-244 | redeems for an account in good standing; a refusal leaves every row as it was |
| `Sessions.AuthService.CreateSession` | backend/src/services/session_service.py:41-55 | a new active session under the minted token |
| `Sessions.AuthService.RevokeSession` | backend/src/services/auth_service.py:259-275 | revokes exactly an active session of the caller |
| `Sessions.SessionRepository.RevokeAllForUser` | backend/src/repositories/session_repository.py:27-32 | revokes every unrevoked session of the user and no other |
| `Sessions.SessionRepository.RotateRefreshToken` | backend/src/repositories/session_repository.py:40-53 | replaces hash and expiry of one row |
| `Sessions.StepKeepsInv` | backend/src/services/auth_service.py:149-275 | every service call keeps: each session stores its last token, no token has two sessions or comes back once redeemed |
| `Sessions.HashesStayUnique` | backend/src/repositories/session_repository.py:15-19 | the lookup by hash is never ambiguous |
| `Sessions.TokensRedeemOnce` | backend/src/services/session_service.py:57-78 | every refresh token ever issued redeems successfully at most once |
| `Sessions.OnlyLastTokenRedeems` | backend/src/services/session_service.py:57-78 | a token redeems a session exactly if it is the last one issued for it and the session is active |
| `Sessions.DeadStaysDead` | backend/src/services/session_service.py:57-78 | a revoked or expired session never becomes active again |
| `Sessions.RevokedIsDeadForEver` | backend/src/repositories/session_repository.py:27-38 | after a logout, a revocation of one's own session or of all of its user's, the session is dead and no token redeems it in any continuation |
| `Sessions.RedeemsAsHistorySays` | backend/src/services/session_service.py:57-78 | in every run a token redeems a session exactly if the history of logins, timely redemptions and revocations has granted it and not taken it away, and its time has not run out |
| `Sessions.DisabledRefreshLeavesTokenAlive` | backend/src/services/auth_service.py:216-230 | after a refresh refused for a disabled account the same token still redeems once the account is enabled, unless it expired |
| `SingleFlight.ApiClient.TryRefresh` | frontend/src/services/apiClient.ts:45-53 | joins the call in flight or starts one |
| `SingleFlight.ApiClient.OnResponse` | frontend/src/services/apiClient.ts:103-113 | each branch on a response is the protocol step of that response |
| `SingleFlight.ApiClient.OnFinally` | frontend/src/services/apiClient.ts:48-50 | clears the shared slot after its call has settled |
| `SingleFlight.ApiClient.OnRefreshed` | frontend/src/services/apiClient.ts:103-105 | resuming retries once or fails |
| `SingleFlight.StepKeepsInv` | frontend/src/services/apiClient.ts:43-113 | every stretch between awaits keeps the invariant on slot, calls and requests |
| `SingleFlight.OneRefreshAtATime` | frontend/src/services/apiClient.ts:39-53 | in every interleaving at most one handler call runs |
| `SingleFlight.AtMostTwoFetches` | frontend/src/services/apiClient.ts:87-113 | a request fetches at most twice, and an `/auth/` request never waits for a refresh |
| `SingleFlight.VerdictsAreFinal` | frontend/src/services/apiClient.ts:45-53 | a settled call keeps its verdict |
| `SingleFlight.WaitersShareTheResult` | frontend/src/services/apiClient.ts:39-53 | requests that waited for one call all retry or all fail |
| `SingleFlight.RetriesExactlyIfRefreshed` | frontend/src/services/apiClient.ts:103-105 | in every run, a resuming request is fetched once more, as a retry, exactly if the refresh it waited for settled with success; otherwise it ends as failed without another fetch |
| `SingleFlight.ResumesAfterSettling` | frontend/src/services/apiClient.ts:45-53 | whoever resumes was waiting for a call that settled before |
| `SingleFlight.OutcomeWasAnswered` | frontend/src/services/apiClient.ts:103-113 | a request succeeds only by an answer that says so, and fails only by an answer or by resuming after a failed refresh |
| `SingleFlight.LateComersJoin` | frontend/src/services/apiClient.ts:45-53 | which 401 waits, for which call, and that a signed-out handler sends no refresh request |
| `SingleFlight.CallsMatchClears` | frontend/src/services/apiClient.ts:39-53 | in every run there have been exactly as many handler calls as were cleared, and one more while one is in flight: between two clears at most one, however many 401s arrive |
| `SingleFlight.BurstSharesOneCall` | frontend/src/services/apiClient.ts:39-53 | all the 401s that come to wait between two clears wait for one and the same call |
| `SingleFlight.WaitingCanProgress` | frontend/src/services/apiClient.ts:79-85 | no circular wait: what a request waits for can itself move, or is an `/auth/` fetch on the network |
| `SingleFlight.EveryBurstEnds` | frontend/src/services/apiClient.ts:87-113 | between two application calls the loop takes no more steps than the work present |
| `Usernames.CandidatesDiffer` | backend/src/services/external_identity_linker.py:65-69 | names whose suffix fits the 32 characters are pairwise different |
| `Usernames.CandidatesRepeat` | backend/src/services/external_identity_linker.py:69-69 | every name beyond repeats one that fits |
| `Usernames.EndsIffOneFits` | backend/src/services/external_identity_linker.py:67-69 | the loop ends exactly if a name whose suffix fits is free |
| `Usernames.TakenAtLeast` | backend/src/services/external_identity_linker.py:67-69 | n taken first names mean at least n taken names |
| `Usernames.FewTakenMeansFewChecks` | backend/src/services/external_identity_linker.py:67-69 | with fewer names taken than fit, at most one check more than names taken |
| `Usernames.FirstFreeCandidate` | backend/src/services/external_identity_linker.py:65-70 | the loop stops at the first free name |
| `Usernames.BaseNameIs` | backend/src/services/external_identity_linker.py:62-64 | the base is the email's local part, up to 28 characters, others replaced, filled up to three; "user" for an empty one |
| `Usernames.UniqueUsername` | backend/src/services/external_identity_linker.py:61-70 | the base itself if free, else the base with the first decimal suffix that gives a free name, cut to 32; valid and untaken, with at most one check more than names taken whenever fewer are taken than fit |
| `Usernames.ExternalIdentityLinker.CreateUserFromProfile` | backend/src/services/external_identity_linker.py:72-88 | adds one account under the first free name its email gives |
| `Usernames.ExternalIdentityLinker.FindOrCreateUser` | backend/src/services/external_identity_linker.py:90-120 | linked account, else account with a verified email, else a new one with a fresh name; a conflict changes nothing; emails, usernames and links stay consistent |
| `LikePattern.ThreeReplacesEscapeOnce` | backend/src/repositories/user_repository.py:33-51 | the three successive replaces are escaping each character once |
| `LikePattern.EscapedMatchesPrefix` | backend/src/repositories/user_repository.py:33-51 | an escaped query followed by % matches exactly the texts starting with it |
| `LikePattern.SearchMatchesLiteralPrefix` | backend/src/repositories/user_repository.py:33-51 | under ILIKE, for every query and name: a match exactly if the query is a literal prefix up to case |
| `LikePattern.UnescapedUnderscoreIsAWildcard` | backend/src/repositories/user_repository.py:33-51 | without the escaping an underscore would match another letter |
| `AccessTokens.MintedTokenDecodes` | backend/src/services/access_tokens.py:51-89 | a minted token decodes to its user, session and expiry before that expiry and is refused from it on |
| `AccessTokens.AcceptedTokenIsSound` | backend/src/services/access_tokens.py:66-89 | any accepted token is three dot-free segments, signed over the first two, carrying the returned claims, unexpired |
| `Base64.PaddedRoundTrip` | backend/src/repositories/message_repository.py:22-30 | padded URL-safe base64 text decodes to its bytes |
| `Base64.KnownAnswers` | backend/src/repositories/message_repository.py:22-30 | "foobar" and "foob" encode as in section 10 of RFC 4648 |
| `Base64.UrlSafeAnswer` | backend/src/repositories/message_repository.py:22-30 | the URL-safe characters stand for 62 and 63 |
| `WireBytes.BytesToBase64` | frontend/src/crypto/bytes.ts:7-14 | the chunked loop hands the browser's encoder one character for each byte, and the text decodes to the same bytes |
| `WireBytes.Base64ToBytes` | frontend/src/crypto/bytes.ts:16-23 | the bytes of the decoded characters, or a refusal |
| `Base64.PaddingIsRestored` | backend/src/services/access_tokens.py:28-34 | the unpadded text plus -length mod 4 padding signs is the padded text |
| `Base64.RoundTrip` | backend/src/services/access_tokens.py:28-34 | every byte string survives the segment encoding, whose text is ASCII and dot-free |
| `AssociatedData.EncodeInjective` | frontend/src/crypto/providers/groupKeyManager.ts:194-196 | over all UUID-shaped ids and all integer epochs, equal associated data means the same kind, conversation, sender key and epoch |
| `AssociatedData.FileGroupCollision` | frontend/src/crypto/fileCrypto.ts:110-112 | for ids merely free of bars, file and group data coincide exactly when the sender key is the word "file" and the other key is the epoch's decimal text |
| `FileFrame.ConcatBytes` | frontend/src/crypto/bytes.ts:26-35 | the copy loop writes the parts one after the other, filling the buffer exactly |
| `FileFrame.PackFilePlaintext` | frontend/src/crypto/fileCrypto.ts:85-93 | the frame of name and bytes, or a refusal exactly for names over 65535 bytes |
| `FileFrame.UnpackFilePlaintext` | frontend/src/crypto/fileCrypto.ts:95-108 | returns name and bytes exactly if the buffer is their frame, and refuses exactly the buffers too short for their length header |
| `FileFrame.OpenFile` | frontend/src/crypto/fileCrypto.ts:149-173 | verify, decrypt and unpack, each failure in its order |
| `FileFrame.UnframeFrame` | frontend/src/crypto/fileCrypto.ts:84-108 | every name of at most 65535 bytes comes back with its file |
| `FileFrame.FrameUnframe` | frontend/src/crypto/fileCrypto.ts:95-108 | an accepted buffer is the frame of what it unpacks to; refused are exactly those too short for their big-endian length |
| `FileFrame.PayloadOpensOnlyInPlace` | frontend/src/crypto/providers/groupKeyManager.ts:207-254 | a box opens exactly under its key, author and the place it was sealed for, over all three kinds of place |
| `FileFrame.FileOpensOnlyInPlace` | frontend/src/crypto/fileCrypto.ts:120-173 | a 1:1 file opens exactly under its key, author and file context, and never in the place of a message or group text |
| `FileFrame.GroupFileIsGroupContent` | frontend/src/store/messagingStore.ts:1241-1262 | a file shared in a group opens exactly as group content of its conversation, sender and epoch, under the same associated data as a text there |

## Left out

- The insides of ML-KEM, ML-DSA, AES-GCM, HKDF, Argon2id and Ed25519: library calls, taken as functions with their correctness properties.
- Routers, schemas, cookies, rate limits, configuration, migrations, S3, Redis, mail, jobs, logging and audit records: wiring and I/O. Storing an uploaded file either succeeds with the sizes read or fails.
- OIDC and SAML clients, password checks, TOTP, e-mail verification, registration: a login in `Sessions` is the creation of a session for an account in good standing.
- React components, previews, username caches, file caching, WebSocket delivery and the realtime client: a delivered message is a message processed.
- Removal of users, and of links whose account is gone: foreign keys keep every link on an account.
- Order and cap of search results; only which usernames match is modelled.
- Failing look-ups of a peer's published keys: the action then ends before any state changes.
- Lower-casing of e-mail addresses and the full Unicode case mapping of ILIKE: e-mails are taken in lower case, and case folding is ASCII, the alphabet of usernames.
- UTF-8: file names are bytes, texts are strings; group and 1:1 texts are not encoded before sealing.
- The access token header in the API client, which plays no part in waiting and retrying.
- GroupProtocol.HoldersWereAddressed: speaks of what honest clients store, not of what an attacker could compute from the log; the server is trusted with the membership list and the identity directory.
- GroupReplay.ReplayReadsExactly: for logs sealed honestly with resolvable sender keys, which every run's log is; for forged entries only the method's contract and `GroupReplay.EveryTextIsAccountedFor` speak.
- DirectRuns.SidesAgree: for runs with at most one encapsulation; `DirectRuns.SidesAgreeAfterReplayIff` covers the others once both sides have replayed, and what they hold at other moments depends on which receipts came last.
- File shares in a 1:1 log: they are skipped when it is opened and carry no key.
- History.FetchAllMessages: what arrives between pages is a finite list of batches of any length, one per page read; with messages arriving for ever behind the walk it would not end.
- WireBytes.BytesToBase64: the insides of `btoa` and `atob` are the browser's; they are taken to be inverse to each other.
