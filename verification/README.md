# Axolotl session engine: a Dafny model

This project models the Axolotl / Double Ratchet session engine of the repository, together with the
key derivation, framing, prekey and addressing code that it rests on, and proves what the engine keeps
over whole runs of its operations.

Every operation that changes state in the source is a method over objects (`SessionState`,
`SessionRecord`, `SessionBuilder`, `SessionCipher`, `SenderKeyState`, `SenderKeyRecord`, `GroupCipher`,
`AxolotlStore`, `AxolotlManager`) and is proved to compute a function on values. Invariants and
properties of runs are proved about those functions, so they hold of the methods.

The main results, in the order of the modules:

- `SkippedKeys`: a chain that stores skipped keys hands out every key once, at its own counter, after
  any sequence of requests. Session chains (limit 2000) and group chains (no limit) are instances.
- `SessionProtocol`, `SessionRecords`, `SessionCiphers`: decryption of one message by one state; the
  search of up to 41 states with promotion and roll-back, with the exact condition under which it finds
  the right state; the methods and the order of their writes.
- `RatchetingSession`, `SessionBuilders`, `Establishment`: key agreement, role election, bundles, prekey
  messages and key exchanges, across the stores of both parties.
- `MasterSecrets`: which private keys give away the keys of a new session, and which do not.
- `Identities`: bundles and prekey messages are refused exactly when they should be, and over any run an
  address keeps one identity.
- `ArchiveOrder`: which session a full archive loses, over any run.
- `RecordRuns`, `HiddenSessions`: one record under any run of operations, and how a session can be hidden.
- `Conversation`: two peers over a network that loses, reorders and duplicates. Their ratchets agree in
  every reachable state, and the answer to every message is determined by history.
- `EndToEnd`: two managers with their stores, from a bundle on. Every prekey or plain message that is
  opened gives the sender's bytes or the refusal that history demands, and nothing is opened twice.
- `ForwardSecrecy`: the keys of a message that was read cannot be derived from what the session holds.
- `SessionRuns`: what one session guarantees under arbitrary, also forged, traffic.
- `Groups`, `GroupCiphers`: one sender and a member who joins at some iteration.
- `Hkdf`, `ByteUtil`, `Framing`, `MacBinding`: the two HKDF implementations against RFC 5869, messages as
  bytes, and what their MAC binds.
- `Jids`, `PreKeys`, `Managers`: addresses, prekey ids, padding, the cipher cache, and end-to-end delivery.

## How keys are modelled

Keys are free terms (`Ratchet.Term`): HMAC and HKDF are constructors, a Diffie-Hellman secret is the set
of the two public keys, and a MAC or a ciphertext names the key it was made with. "The MAC verifies" is
then equality of derived keys. `Hkdf` and `Framing` work on bytes instead, for every HMAC function with
32 bytes of output and every protobuf codec that parses what it serialised. Key pairs that the source
generates (`ourNew`, `sending`, `newBase`), the sender key id and the padding length are parameters;
properties that need fresh keys say so. Of Python's `int` only two things are assumed: it reads back what
`%d` prints (`Decimals.ReadsBack`), and it accepts no comma (`Jids.RejectsCommas`).

## Where the code and its description differ

- The group guard "over 2000 messages into the future" (axolotl/groups/groupcipher.py:75) subtracts the
  other way round and cannot fire (`Groups.GroupChainHasNoLimit`, `Groups.AnyJumpIsAccepted`).
- The HKDF block counter is written in UTF-8 (axolotl/kdf/hkdf.py:46-47), which is the octet of RFC 5869
  only up to block 127 (`Hkdf.FollowsStandardIff`). All callers ask for at most 112 bytes there.
- A prekey message without a prekey parses as one with prekey 0, and the receiver treats prekey 0 as
  none (axolotl/sessionbuilder.py:79). A bundle that does offer prekey 0 therefore fails
  (`Establishment.BundleToPlaintext`); generated ids are never 0 (`PreKeys.GeneratedPreKeysWork`).
- A duplicate ends the search of a record, so a state that has used up a counter hides later states that
  could still read the message. A peer that puts one ratchet key on two sessions can bring this about
  (`HiddenSessions.HiddenSession`); with exclusive ratchet keys it cannot happen
  (`RecordRuns.ExclusiveKeyIsFound`). `RecordRuns.SearchIsComplete` gives the exact condition.
- A trusted identity is saved before the message that brought it is decrypted
  (axolotl/sessionbuilder.py:49), so it stays when decryption fails
  (`SessionCiphers.PreKeyMessageIsTransactional`).
- Equal base keys make both sides of a symmetric exchange run as Bob (`RatchetingSession.SymmetricExchange`).
- `previousCounter` is carried in messages and never read by the receiver. Stored message keys of a
  session chain and of a group chain have no cap.
- The full form of a jid keeps single jids, and of comma lists only those whose commas do no harm
  (`Jids.FullJidKeepsNames` says which), and the cipher cache
  key is injective only for devices that are not negative (`Managers.CacheKeyCollisions`).

## Model

| member | source | states |
|---|---|---|
| `Curve.AgreementCommutes` | axolotl/ecc/curve.py:53-64 | Both ends of a Diffie-Hellman agreement get one secret: the commutativity that every other agreement result rests on |
| `Curve.WordsTrichotomy` | axolotl/ecc/djbec.py:31-35 | From any word on, at most one of two keys is the smaller one, and neither is exactly when the remaining bytes are equal |
| `Curve.WordsTransitive` | axolotl/ecc/djbec.py:31-35 | The comparison of signed words is transitive |
| `Curve.LessIsStrictTotalOrder` | axolotl/ecc/djbec.py:31-35 | The comparison of the eight signed words is a strict total order on 32-byte keys: for two different keys exactly one direction holds |
| `Curve.FirstDifferenceDecides` | axolotl/ecc/djbec.py:31-35 | Byte by byte, the first difference of two keys decides which is smaller, with every fourth byte taken as signed |
| `Ratchet.AdvanceInjective` | axolotl/ratchet/chainkey.py:25-40 | Equal MAC keys at one position of two chains come from equal chain seeds |
| `Ratchet.CreateChainAgrees` | axolotl/ratchet/rootkey.py:16-25 | The two ends of a ratchet step compute the same root key and chain key |
| `SkippedKeys.SkipToTracks` | axolotl/sessioncipher.py:205-208 | Storing the keys of skipped messages keeps the exact account of a chain: position, stored keys and handed-out counters partition everything before the index |
| `SkippedKeys.TakeStoredTracks` | axolotl/state/sessionstate.py:153-172 | Handing out a stored key removes it alone and marks its counter as handed out |
| `SkippedKeys.TakeIsExact` | axolotl/sessioncipher.py:193-211 | A request is refused as old if and only if its counter was handed out before or lies below the start, refused as distant if and only if it lies beyond the limit, and otherwise gets Next^i of the first chain key |
| `SkippedKeys.TakeIsTidy` | axolotl/sessioncipher.py:193-211 | On any chain with distinct stored counters behind its position a granted request is refused from then on |
| `SkippedKeys.HandedOutIsHistory` | axolotl/sessioncipher.py:193-211 | The set of handed-out counters is the history of successful requests |
| `SkippedKeys.RunTracks` | axolotl/sessioncipher.py:193-211 | After any sequence of requests with any counters a chain at index n holds Next^n of its first key, and its stored keys and the delivered counters partition [start, n) |
| `SkippedKeys.EachKeyOnce` | axolotl/sessioncipher.py:193-211 | Over any run no counter's key is handed out twice, every key is the one of its counter, and a duplicate is reported exactly for a counter handed out before |
| `SessionStates.WithChainKeepsKeys` | axolotl/state/sessionstate.py:174-196 | Replacing a receiver chain leaves every ratchet key at its place, and the new chain is found there |
| `SessionStates.AddedChainIsFound` | axolotl/state/sessionstate.py:104-115 | The chain just appended is found at the end of the list even when another one was evicted |
| `SessionStates.SessionState.Copy` | axolotl/state/sessionstate.py:14-21 | The copy has the same structure and is another object, so attempts on it leave the original alone |
| `SessionStates.SessionState.GetReceiverChain` | axolotl/state/sessionstate.py:80-91 | The search loop returns the first chain with the given ratchet key, or none if there is none |
| `SessionStates.SessionState.AddReceiverChain` | axolotl/state/sessionstate.py:104-115 | The list in place becomes the last five of the old chains and the new one |
| `SessionStates.SessionState.HasMessageKeys` | axolotl/state/sessionstate.py:139-151 | True exactly if the chain stores keys for the counter |
| `SessionStates.SessionState.RemoveMessageKeys` | axolotl/state/sessionstate.py:153-172 | Returns the stored keys of a counter and deletes that one entry of that one chain in place |
| `SessionStates.SessionState.SetMessageKeys` | axolotl/state/sessionstate.py:174-186 | Appends to the stored keys of one chain and changes nothing else; there is no cap |
| `SessionStates.SessionState.SetReceiverChainKey` | axolotl/state/sessionstate.py:188-196 | Moves the chain key of one chain and keeps its stored keys |
| `SessionProtocol.DecryptIsSound` | axolotl/sessioncipher.py:144-174 | Whatever arrives, succeeding or failing, every chain stays tidy and every stored message key remains one that the ratchet derived |
| `SessionProtocol.DecryptFailures` | axolotl/sessioncipher.py:144-211 | A state answers "duplicate" if and only if it holds the chain and the counter is behind it and not stored; a message made by one sender never breaks decryption otherwise than as invalid or duplicate |
| `SessionProtocol.DecryptOnNewChain` | axolotl/sessioncipher.py:176-211 | The exact answer and state for a first message on an unknown ratchet key: limit of 2000, derived keys, MAC, new chain and the two ratchet steps |
| `SessionProtocol.ReadOnce` | axolotl/sessioncipher.py:144-211 | A sound state that has read a message, on a new chain or on one it held, answers the same message with a duplicate |
| `SessionProtocol.StrangersRefuse` | axolotl/sessioncipher.py:144-167 | A session without a chain for the message's ratchet key, which would derive another MAC for it, calls it invalid; `ForeignSessionsRefuse` says which sessions these are |
| `SessionProtocol.DecryptIsForeign` | axolotl/sessioncipher.py:144-211 | Whatever arrives, a session never comes to hold a key that was derived from a master secret it did not grow from |
| `SessionProtocol.ForeignSessionsRefuse` | axolotl/sessioncipher.py:144-174 | A session that grew from another master secret never reads a message, and calls it invalid if it has no chain for its ratchet key |
| `SessionProtocol.DecryptStartsOneChain` | axolotl/sessioncipher.py:176-191 | Decryption starts a chain for no other ratchet key than that of the message |
| `SessionRecords.DecryptPreviousStops` | axolotl/sessioncipher.py:130-142 | The search of the archive ends at the first state that does not call the message invalid |
| `SessionRecords.SearchAndPromotion` | axolotl/sessioncipher.py:110-142 | On success the updated state is current, the old current is first in the archive, exactly the promoted one left it, and its size is unchanged; on any failure the record is what it was |
| `SessionRecords.CompleteSearch` | axolotl/sessioncipher.py:110-142 | In a sound record a message that some state can decrypt is decrypted if and only if no state in front of the first such one holds its chain with the counter used up |
| `RecordRuns.RecordsStaySound` | axolotl/sessioncipher.py:110-211 | Every record that a run of operations builds is sound: its chains are tidy and store only keys that the ratchet derived |
| `RecordRuns.RunKeepsAll` | axolotl/sessioncipher.py:110-142 | Over any run of operations, what all states of a record have in common (a property of keys and name that the messages and new sessions of the run keep) stays so |
| `RecordRuns.RecordsStayForeign` | axolotl/ratchet/ratchetingsession.py:40-112 | A record that operations build without agreeing on a secret with some key, such as a base key not yet generated, holds no session of that name and nothing derived from a master secret with that key |
| `RecordRuns.RatchetKeysStayNew` | axolotl/sessioncipher.py:176-191 | A record that operations build without some ratchet key holds no chain for it |
| `RecordRuns.SearchIsComplete` | axolotl/sessioncipher.py:110-142 | The same for every record that any run of operations from a new record leaves, without further assumption |
| `SessionRecords.ExclusiveKeysAreFound` | axolotl/sessioncipher.py:110-142 | In a sound record, with a ratchet key that no other state holds, a message that some state can decrypt is answered by the first such state, which is promoted |
| `RecordRuns.ExclusiveKeyIsFound` | axolotl/sessioncipher.py:110-142 | The same, with the answer and the promotion, for every record that any run of operations from a new record leaves |
| `SessionRecords.UsedChainHidesSessions` | axolotl/sessioncipher.py:119-128 | A current state that holds the ratchet key with the counter used up ends the search with a duplicate, whatever the archived states could read |
| `HiddenSessions.PeerSends` | axolotl/sessioncipher.py:31-67 | The messages of the following run are what a peer sends that uses one ratchet key for two sessions |
| `HiddenSessions.HiddenSession` | axolotl/sessioncipher.py:110-142 | A run from a new record (two prekey messages with different base keys and one ratchet key, then the next message of the first session) after which a message that the archived second session can read is answered with a duplicate |
| `SessionRecords.ActsAsCurrentSession` | axolotl/sessioncipher.py:110-142 | If every archived state calls a message invalid, the record answers and changes exactly as its current session does |
| `SessionRecords.ActsAsCurrentReader` | axolotl/sessioncipher.py:110-142 | If no archived state reads a message, the record reads it exactly when its current session does, and changes as that session does |
| `SessionRecords.SessionRecord.Parse` | axolotl/state/sessionrecord.py:19-25 | A parsed record shows the stored states in order, each as an object of its own, and is not fresh |
| `SessionRecords.SessionRecord.HasSessionState` | axolotl/state/sessionrecord.py:31-39 | True exactly if the current or some archived state has the version and base key |
| `SessionRecords.SessionRecord.PromoteState` | axolotl/state/sessionrecord.py:53-57 | The old current state goes to the front of the archive, which drops its last entry beyond forty (NewSessionGoesFirst says so without this function) |
| `SessionRecords.SessionRecord.ArchiveCurrentState` | axolotl/state/sessionrecord.py:50-51 | The current state is archived and an empty one takes its place |
| `SessionRecords.SessionRecord.PopPrevious` | axolotl/sessioncipher.py:135 | Removing entry i of the archive list leaves the other entries in order |
| `RatchetingSession.SecretsAgree` | axolotl/ratchet/ratchetingsession.py:49-63 | For mirrored parameters, with or without a one-time prekey, Alice and Bob build the same master secret |
| `RatchetingSession.KeyAgreement` | axolotl/ratchet/ratchetingsession.py:40-112 | The two initialisers end in matching sessions: Alice's first receiver chain is Bob's sender chain and her root is one step on from his |
| `RatchetingSession.FirstRatchetStepMeets` | axolotl/sessioncipher.py:176-191 | Bob's first ratchet step on Alice's key reproduces her sender chain and root key |
| `RatchetingSession.OneTimePreKeyMismatch` | axolotl/ratchet/ratchetingsession.py:61-63 | If only one side uses a one-time prekey the two sides have neither root key nor chain key in common |
| `RatchetingSession.SymmetricExchange` | axolotl/ratchet/ratchetingsession.py:15-37 | In the symmetric exchange exactly one side is Alice, and the sessions match, if and only if the base keys differ; with equal base keys both run as Bob and never match |
| `RatchetingSession.SmallerKeyIsAlice` | axolotl/ratchet/ratchetingsession.py:15-37 | The side with the smaller base key in that order plays Alice: it alone starts with a receiver chain |
| `RatchetingSession.InitializeSessionAsAlice` | axolotl/ratchet/ratchetingsession.py:40-70 | The state in place becomes the one of the specification; MasterSecrets says what its keys depend on |
| `RatchetingSession.InitializeSessionAsBob` | axolotl/ratchet/ratchetingsession.py:73-100 | The same for Bob |
| `RatchetingSession.InitializeSession` | axolotl/ratchet/ratchetingsession.py:15-37 | Role election and the chosen initialiser, in place |
| `MasterSecrets.WhoComputesTheKeys` | axolotl/ratchet/ratchetingsession.py:40-100 | Exactly which private keys give away the keys that two new sessions start from, for mirrored parameters: one end of each of the three or four agreements, and for Alice's root and sender chain one of the two ratchet keys as well |
| `MasterSecrets.IdentityKeysDoNotSuffice` | axolotl/ratchet/ratchetingsession.py:54-63 | Without base key and signed prekey nobody computes any key of a new session, whatever else they hold; with a one-time prekey the identity keys and the signed prekey do not suffice either; and each side's own private keys do |
| `Conversation.RetainedChains` | axolotl/state/sessionstate.py:104-115 | A peer holds a receiver chain for exactly the last five epochs of the other one that it has seen, at the position the epoch determines |
| `Conversation.DeliverRetained` | axolotl/sessioncipher.py:144-211 | An authentic message on a held chain is a duplicate, too far ahead, or yields its plaintext and the state with that one chain advanced |
| `Conversation.DeliverEvicted` | axolotl/sessioncipher.py:176-191 | A message whose chain was evicted is always invalid: it starts a chain at another ratchet depth, whose MAC keys differ |
| `Conversation.DeliverNext` | axolotl/sessioncipher.py:176-191 | The first message of the peer's next epoch makes the receiver reproduce that epoch's chain and take a step of its own |
| `Conversation.StepKeepsInv` | axolotl/sessioncipher.py:31-67 | Every send and every delivery, failed or successful, keeps the invariant of the pair of peers |
| `Conversation.RunKeepsInv` | axolotl/sessioncipher.py:31-211 | The invariant holds after every run with loss, reordering and duplication |
| `Conversation.RatchetsAgree` | axolotl/sessioncipher.py:176-191 | In every reachable state the two root keys are neighbours on one root chain, and every receiver chain and the peer's sender chain of the same ratchet key grew from one seed |
| `Conversation.EveryDeliveryIsExact` | axolotl/sessioncipher.py:144-211 | In every reachable state the answer to any message ever sent is determined by history: plaintext on first delivery within 2000 on a retained or new chain, duplicate on redelivery, invalid otherwise; nothing is delivered twice |
| `Conversation.ReflectionIsRefused` | axolotl/protocol/whispermessage.py:90-98 | In every reachable state a peer refuses its own messages when they are sent back to it, because the MAC names sender and receiver in order (identities differing) |
| `Messages.MacNamesIdentities` | axolotl/protocol/whispermessage.py:90-98 | A symbolic MAC fits one key, and from version 3 on one sender and one receiver; before that any |
| `Conversation.ReadIsMade` | axolotl/sessioncipher.py:144-174 | Whatever a peer reads is, in every field, what the other peer makes of that plaintext in the present version with keys of the master secret, from the remote to the local identity |
| `Conversation.UnforgedRunIsAllowed` | axolotl/protocol/whispermessage.py:90-98 | If nobody but the two peers makes MACs under keys of the master secret, and the identities differ, then whatever decrypts was sent by the peer, over every run with replays, reflections and any other messages; so the results about allowed runs hold of it |
| `ForwardSecrecy.KeysAreSeparate` | axolotl/ratchet/chainkey.py:25-40 | Cipher key, MAC key, IV, chain keys and root key of a ratchet step are all different |
| `ForwardSecrecy.HandedOutIsGone` | axolotl/ratchet/chainkey.py:25-40 | Over any run of requests, the keys of a message can be derived from a chain by hashing if and only if they were not handed out |
| `ForwardSecrecy.ReadKeysAreGone` | axolotl/sessioncipher.py:144-211 | In every reachable state of two peers, the keys of a message that was read cannot be derived by hashing from the root key, the chain keys and the stored keys that its reader's session still holds |
| `AxolotlStores.AxolotlStore.LoadSession` | yowsup/axolotl/store/sqlaxolotlstore.py:327-339 | A stored record is parsed into new objects; an unknown address gets a fresh record |
| `AxolotlStores.AxolotlStore.StoreSession` | yowsup/axolotl/store/sqlaxolotlstore.py:352-371 | One record is replaced and nothing else |
| `AxolotlStores.AxolotlStore.SaveIdentity` | yowsup/axolotl/store/sqlaxolotlstore.py:100-120 | One identity is replaced and nothing else |
| `AxolotlStores.AxolotlStore.RemovePreKey` | yowsup/axolotl/store/sqlaxolotlstore.py:217-226 | One prekey is removed and nothing else |
| `AxolotlStores.AxolotlStore.StorePreKey` | yowsup/axolotl/store/sqlaxolotlstore.py:197-204 | A prekey is added unless its id is taken, in which case nothing changes and the insert fails |
| `AxolotlStores.AxolotlStore.LoadMaxPreKeyId` | yowsup/axolotl/store/sqlaxolotlstore.py:228-234 | The largest stored id, 0 if there is none |
| `SessionBuilders.SessionBuilder.ProcessMessage` | axolotl/sessionbuilder.py:34-52 | Refuses untrusted identities before anything changes, and saves the identity only after the session was built; PreKeyMessageIsRefusedIff and IdentityIsPinned say what that achieves |
| `SessionBuilders.SessionBuilder.ProcessMessageV3` | axolotl/sessionbuilder.py:54-98 | A known session falls through; otherwise the used current state is archived, Bob's session is built with the right one-time prekey, and the prekey to remove is reported; missing ids leave the record alone |
| `SessionBuilders.KnownSessionsFallThrough` | axolotl/sessionbuilder.py:64-98 | A prekey message falls through exactly when the record holds a session of its version and base key; otherwise it starts one of that name, with its identity and registration ids, that has sent nothing |
| `SessionBuilders.BundleIsAcceptedIff` | axolotl/sessionbuilder.py:104-115 | A bundle is accepted if and only if no other identity is stored for the address and it carries a signed prekey with a signature of its identity key over that prekey; the error of a refusal says whether it was the identity |
| `SessionBuilders.BundleSessionsAreSigned` | axolotl/sessionbuilder.py:108-147 | The session that a bundle leaves in the store is with the stored identity, and the only ratchet key it holds was signed by that identity |
| `SessionBuilders.SessionBuilder.ProcessBundle` | axolotl/sessionbuilder.py:100-147 | Succeeds exactly for a trusted identity and a signed prekey with that identity's signature, and then leaves the stored record with Alice's new session and the pending prekey, and the saved identity; a refusal writes nothing |
| `SessionBuilders.SessionBuilder.InitKeyExchange` | axolotl/sessionbuilder.py:245-261 | The pending exchange is stored in the current state and the offer carries its keys |
| `SessionBuilders.SessionBuilder.ProcessInitiateMessage` | axolotl/sessionbuilder.py:163-205 | Signature check first; own pending keys are reused and flagged; session and identity are stored and the response returned |
| `SessionBuilders.SessionBuilder.ProcessResponseMessage` | axolotl/sessionbuilder.py:207-243 | A response without a matching sequence is stale or, for a simultaneous start, ignored; a bad signature stores nothing |
| `SessionBuilders.SessionBuilder.ProcessKeyExchange` | axolotl/sessionbuilder.py:149-161 | An untrusted identity is refused; an initiate message is answered, and a response completed, exactly as the two branches specify |
| `SessionBuilders.ExchangesAreSigned` | axolotl/sessionbuilder.py:149-243 | A key exchange message changes the stores only if its identity is the stored or the first one and signed its base key, and then that identity is stored with a session of its own; any error leaves the stores alone |
| `SessionBuilders.OnlyAwaitedResponses` | axolotl/sessionbuilder.py:207-243 | A response nobody waits for changes nothing, and is stale unless it answers a simultaneous offer; an awaited one is refused exactly if its base key is not signed |
| `SessionBuilders.ExchangesUseOfferedRatchets` | axolotl/sessionbuilder.py:174-229 | A completed exchange uses the ratchet keys that were offered: the side that plays Alice expects the other's, the side that plays Bob sends under its own |
| `SessionCiphers.PreKeyMessageIsTransactional` | axolotl/sessioncipher.py:85-108 | A refused prekey message leaves sessions and prekeys unchanged (only a trusted identity may have been saved); a one-time prekey goes last, after the record was stored, and only for a session that was not known |
| `SessionCiphers.HeldPreKeyMessage` | axolotl/sessioncipher.py:85-108 | A prekey message of a trusted identity whose session is held has the answer and the stores of the message inside, with only the identity saved |
| `SessionCiphers.PreKeyMessageIsRefusedIff` | axolotl/sessionbuilder.py:41-81 | A prekey message is refused as untrusted if and only if another identity is stored for the address, and as naming a missing key if and only if its session is not held and a key it names is not in stock; both leave the stores unchanged without any write |
| `SessionCiphers.NoSessionIff` | axolotl/sessioncipher.py:69-79 | A message is answered with NoSession if and only if there is no record for its address |
| `Identities.IdentityIsPinned` | axolotl/sessionbuilder.py:34-147 | Over any run of bundles, prekey messages, messages, texts and key exchanges: an identity stored for an address stays, and every session there is with it |
| `Identities.SessionsAreWithOneIdentity` | axolotl/sessionbuilder.py:34-147 | The same in plain terms, for stores that began without a record for the address |
| `SessionCiphers.SessionCipher.EncryptMessage` | axolotl/sessioncipher.py:31-67 | The message and the stored record are those of the specification; without a sender chain nothing changes |
| `SessionCiphers.SessionCipher.DecryptMsg` | axolotl/sessioncipher.py:69-83 | Answer and stores are those of the specification, and the session is written only on success |
| `SessionCiphers.RefusedMessageChangesNothing` | axolotl/sessioncipher.py:69-83 | What DecryptMsg and SearchAndPromotion come to for the stores: a refused whisper message leaves all of them unchanged, and an accepted one touches only the record of its own address |
| `SessionCiphers.SessionCipher.DecryptPkmsg` | axolotl/sessioncipher.py:85-108 | Answer, stores and the order of the writes are those of the specification |
| `SessionCiphers.SessionCipher.DecryptWithSessionRecord` | axolotl/sessioncipher.py:110-142 | The try-current-then-archive control flow on copies computes the search of the specification |
| `SessionCiphers.SessionCipher.TryPreviousStates` | axolotl/sessioncipher.py:130-142 | The loop over the archive, with its pop and promotion in place, computes the recursive search |
| `SessionCiphers.SessionCipher.DecryptWithSessionState` | axolotl/sessioncipher.py:144-174 | The step-by-step updates leave exactly the answer and the state, even a half-advanced one, of the specification |
| `SessionCiphers.SessionCipher.GetOrCreateChainKey` | axolotl/sessioncipher.py:176-191 | Both ratchet steps in place, and the returned key is the one of the chain that is then found |
| `SessionCiphers.SessionCipher.GetOrCreateMessageKeys` | axolotl/sessioncipher.py:193-211 | The while loop that stores skipped keys in place refines the recursive chain specification, with all three outcomes |
| `SessionRuns.NoSenderKeyReuse` | axolotl/sessioncipher.py:31-67 | Over any interleaving of encrypts and decrypts of any messages, the pairs (ratchet key, counter) sent are pairwise distinct and count from 0 under each key |
| `SessionRuns.PreviousCounters` | axolotl/sessioncipher.py:176-191 | Over any run the previous counter of a message is the number of the last message under the ratchet key before its own, or 0 if there is none |
| `SessionRuns.ReceiverListIsLastFive` | axolotl/state/sessionstate.py:104-115 | After any run the receiver list is the last five ratchet keys committed, in order and without repetition |
| `Establishment.FirstMessageIsRead` | axolotl/sessioncipher.py:144-211 | Between two matching new sessions Alice's first message decrypts to its plaintext |
| `Establishment.FirstMessageIsRefused` | axolotl/sessioncipher.py:164-167 | If only one side used a one-time prekey the first message is refused as invalid |
| `Establishment.BundleToPlaintext` | axolotl/sessionbuilder.py:79-98 | From a published bundle to the plaintext at the other end, across both stores: the matching session, with the message read, is stored as the current one and the used prekey removed. A one-time prekey with id 0, which the receiver takes for none, is the exact exception: in a record without states of this master secret the message is read if and only if the id is not 0, and a refusal changes neither sessions nor prekeys |
| `Establishment.BundleEstablishes` | axolotl/sessionbuilder.py:54-147 | The session that Alice makes of the bundle and the one that Bob prepares for any of her prekey messages are a matching pair, which starts a conversation |
| `Establishment.BundleToConversation` | axolotl/sessionbuilder.py:54-147 | The sessions that a bundle and any of Alice's prekey messages set up start a conversation in which every delivery, in any run, is answered as history demands |
| `RecordRuns.RecordsStayOrderly` | axolotl/sessionbuilder.py:54-98 | Over any run of prekey messages, bundles, exchanges, sends and receives a record never holds two states with one version and non-empty base key, nor more than 40 archived states |
| `RecordRuns.OpKeepsSessions` | axolotl/state/sessionrecord.py:53-57 | A session leaves a record only when the archive is full and one more state is archived |
| `RecordRuns.RunKeepsSessions` | axolotl/state/sessionrecord.py:53-57 | A session survives every run that archives no more states than there is room for |
| `ArchiveOrder.NewSessionGoesFirst` | axolotl/state/sessionrecord.py:50-57 | A new session goes in front of all states, in a full archive too: the one that was current is the first archived one, the others move back one place, and of 41 states only the last is lost |
| `ArchiveOrder.NewSessionIsTriedFirst` | axolotl/sessionbuilder.py:86-87 | The same for the record on which a prekey message of a new session is decrypted |
| `ArchiveOrder.RunMovesBack` | axolotl/state/sessionrecord.py:53-57 | Over any run a state moves back by at most the number of states put in front (new sessions, and archived ones that read a message), and is held as long as that does not push it beyond place 40 |
| `ArchiveOrder.FortyInFront` | axolotl/state/sessionrecord.py:53-57 | A session that was current survives every run that puts at most forty states in front of it, whatever the archive holds |
| `RecordRuns.EstablishedOnce` | axolotl/sessionbuilder.py:64-66 | Processing an accepted prekey message again, with any stores, changes nothing and names no prekey to remove |
| `RecordRuns.EstablishedForGood` | axolotl/sessionbuilder.py:64-66 | So it is after any later run that archives no more states than there is room for |
| `RecordRuns.PreKeyPhase` | axolotl/sessioncipher.py:54-63 | Over any run of messages sent and received and exchanges offered, the pending prekey stays exactly as long as nothing was decrypted, and what is sent is a prekey message exactly while it does |
| `RecordRuns.PreKeyPhaseAfterBundle` | axolotl/sessionbuilder.py:132-146 | After any earlier life of a record, a processed bundle makes every message a prekey message up to the first successful decryption on the record and a plain one from then on |
| `RecordRuns.BundleOpensPreKeyPhase` | axolotl/sessionbuilder.py:137-142 | Right after a bundle the next message is a prekey message with the bundle's ids and our base key |
| `Establishment.ExchangeMeets` | axolotl/sessionbuilder.py:163-243 | An exchange that one side starts and the other answers ends in matching sessions if and only if the base keys differ |
| `Establishment.SimultaneousExchangeMeets` | axolotl/sessionbuilder.py:163-243 | The same when both sides start at once; the two crossing responses are dropped without effect |
| `Establishment.ExchangeAcrossStores` | axolotl/sessionbuilder.py:149-261 | The exchange through both stores, trust checks and flags: an offer is answered, the answer completes it and is not answered, and the stored sessions match if and only if the base keys differ |
| `Establishment.SimultaneousAcrossStores` | axolotl/sessionbuilder.py:149-261 | The same when both sides start at once; the late answers change neither store |
| `Groups.GroupChainHasNoLimit` | axolotl/groups/groupcipher.py:65-83 | The guard against distant messages never fires: the group chain is the skipped-key chain without a limit |
| `Groups.OnlySignedIsRead` | axolotl/groups/groupcipher.py:42-63 | What a member reads carries the signature of the state's signing key over key id, iteration and body, was made with a chain key of the group, and changes that state's chain alone |
| `Groups.GroupRefusals` | axolotl/groups/groupcipher.py:20-63 | An empty record answers NoSession and nothing else does; without the private signing key nothing is sent; an unknown key id is an invalid message |
| `ForwardSecrecy.SkippedKeyReadsOneMessage` | axolotl/groups/ratchet/senderchainkey.py:9-30 | The key that a group member keeps for a skipped message gives away that message's cipher key and IV and no other message's |
| `Groups.AnyJumpIsAccepted` | axolotl/groups/groupcipher.py:75-83 | A message however far ahead is accepted and leaves one stored key per message skipped |
| `Groups.MemberAnswers` | axolotl/groups/groupcipher.py:42-83 | The answer of a member to message i, and the chain it is left with |
| `Groups.EveryMessageOnce` | axolotl/groups/groupcipher.py:20-83 | In every reachable state, with messages and distribution messages lost, reordered and repeated, a member whose first distribution message was taken at iteration k answers message i with its plaintext on first delivery if i >= k, and with a duplicate below k or when delivered before |
| `Groups.LaterStateIsHidden` | axolotl/groups/state/senderkeyrecord.py:23-42 | A second distribution message with a known key id changes no answer, because the older state is found first |
| `GroupCiphers.SenderKeyState.HasSenderMessageKey` | axolotl/groups/state/senderkeystate.py:66-71 | True exactly if a key for the iteration is stored |
| `GroupCiphers.SenderKeyState.RemoveSenderMessageKey` | axolotl/groups/state/senderkeystate.py:79-93 | Returns the stored seed and deletes that one entry in place |
| `GroupCiphers.SenderKeyRecord.GetSenderKeyState` | axolotl/groups/state/senderkeyrecord.py:23-33 | The first state with the key id |
| `GroupCiphers.SenderKeyRecord.SetSenderKeyState` | axolotl/groups/state/senderkeyrecord.py:44-52 | The record holds one new state and nothing else |
| `GroupCiphers.GroupSessionBuilder.Process` | axolotl/groups/groupsessionbuilder.py:10-20 | A distribution message appends a state that starts at its iteration |
| `GroupCiphers.GroupSessionBuilder.Create` | axolotl/groups/groupsessionbuilder.py:23-44 | A state is created and stored only in an empty record, and the announcement is the position the chain has now |
| `GroupCiphers.GroupCipher.Encrypt` | axolotl/groups/groupcipher.py:20-40 | Message and stored record are those of the specification; without a sender key nothing changes |
| `GroupCiphers.GroupCipher.Decrypt` | axolotl/groups/groupcipher.py:42-63 | Answer and stored record are those of the specification, and nothing is stored on failure |
| `GroupCiphers.GroupCipher.GetSenderKey` | axolotl/groups/groupcipher.py:65-83 | The in-place loop computes the chain specification |
| `Hkdf.Expand` | axolotl/kdf/hkdf.py:35-55 | For every size and either start offset the loop returns exactly that many bytes of the block sequence numbered in UTF-8 |
| `Hkdf.UtilsExpand` | common/utils.py:124-141 | Fails exactly beyond 255 blocks and otherwise returns HKDF-Expand of RFC 5869 |
| `Hkdf.AgreesWithStandard` | axolotl/kdf/hkdf.py:35-55 | Up to 127 blocks the engine's expansion is the RFC 5869 one, for every HMAC |
| `Hkdf.DiffersBeyond` | axolotl/kdf/hkdf.py:46-47 | From block 128 on it is not: a hash for which the outputs differ |
| `Hkdf.FollowsStandardIff` | axolotl/kdf/hkdf.py:35-55 | The expansion follows the standard for every hash if and only if the output has at most 127 blocks |
| `Hkdf.ShorterIsPrefix` | axolotl/kdf/hkdf.py:35-55 | Shorter outputs are prefixes of longer ones |
| `Hkdf.EntryPointsAgree` | common/utils.py:121-141 | `deriveSecrets` and `extract_and_expand` agree up to 127 blocks, also for an empty salt, given HMAC's zero padding |
| `ByteUtil.Combine` | axolotl/util/byteutil.py:6-14 | The loop returns the concatenation of its parts |
| `ByteUtil.Split` | axolotl/util/byteutil.py:26-33 | The parts are the Python slices, negative lengths included |
| `ByteUtil.SplitUndoesCombine` | axolotl/util/byteutil.py:6-33 | Splitting at the lengths of the parts gives the parts back |
| `ByteUtil.CombineUndoesSplit` | axolotl/util/byteutil.py:26-33 | The parts of a split make up the input if and only if the lengths reach its end |
| `ByteUtil.NibblesRoundTrip` | axolotl/util/byteutil.py:40-52 | The low nibble is kept and the high one modulo 16 |
| `ByteUtil.NibblesAreOrdered` | axolotl/util/byteutil.py:40-42 | The first value is the high nibble |
| `Framing.KeyRoundTrip` | axolotl/ecc/curve.py:33-45 | A serialised key decodes, and to itself if and only if it has at most 32 bytes |
| `Framing.PointsThatDecode` | axolotl/ecc/curve.py:33-45 | Bytes decode if and only if they begin with the type 5, and at most 32 bytes of key are read |
| `Framing.Serialize` | axolotl/protocol/whispermessage.py:52-66 | The bytes of a new message; counters that do not fit 32 bits raise; MacBinding says what the MAC on them covers |
| `Framing.CheckMac` | axolotl/protocol/whispermessage.py:80-98 | The check on the split bytes is the MAC predicate that VerifyMacMeaning and MacBinding characterise |
| `Framing.VerifyMacMeaning` | axolotl/protocol/whispermessage.py:80-98 | The check accepts exactly the inputs that end in the eight-byte MAC of everything before it; shorter inputs, where the slices wrap around, never pass |
| `Framing.WhisperRoundTrip` | axolotl/protocol/whispermessage.py:18-98 | A built message passes the receiver's check under the same key and identities, and parses back to its fields if and only if its version is 2 or 3, the ciphertext is not empty and the ratchet key has at most 32 bytes |
| `MacBinding.MacBindsEverything` | axolotl/protocol/whispermessage.py:80-98 | For version 3, a trailer behind some front passes the check under every HMAC if and only if front, key, sender and receiver are those the message was built with; so for another receiver, a swapped pair or one changed byte some HMAC refuses it |
| `MacBinding.OldMacsBindNoIdentities` | axolotl/protocol/whispermessage.py:90-98 | Before version 3 building and checking are the same for all identities, under every HMAC |
| `MacBinding.OldMacsBindTheRest` | axolotl/protocol/whispermessage.py:80-98 | Before version 3 key and front are bound all the same |
| `Framing.PreKeyRoundTrip` | axolotl/protocol/prekeywhispermessage.py:18-75 | The round trip of a prekey message, in which "no prekey" comes back as prekey 0, holds exactly for version 3, readable keys and a readable inner message |
| `Framing.IdRoundTrip` | axolotl/protocol/keyexchangemessage.py:48-70 | The packed word unpacks to sequence and flags if and only if the flags are below 32, and then fits 32 bits if and only if the sequence is below 2^27 |
| `Framing.ExchangeRoundTrip` | axolotl/protocol/keyexchangemessage.py:19-78 | A key exchange message comes back as built if and only if version 3, five-bit flags and readable keys |
| `Framing.GroupRoundTrip` | axolotl/protocol/senderkeymessage.py:15-88 | A group message always comes back, and the verifier is given exactly the signed bytes and the 64-byte signature |
| `Framing.OtherVersionsAreRefused` | axolotl/protocol/whispermessage.py:28-32 | What each of the four parsers answers to every version it does not take |
| `Jids.Normalize` | yowsup/common/tools.py:18-34 | The loop normalises each entry of the comma list |
| `Jids.EntriesAreNormalized` | yowsup/common/tools.py:18-34 | The entries of the result are the normalised entries, and each names a server |
| `Jids.NormalizeIsIdempotent` | yowsup/common/tools.py:18-34 | Normalising twice is normalising once, for comma lists of any content |
| `Jids.ServerOfEntry` | yowsup/common/tools.py:24-31 | An entry with a server keeps it; a dash makes a group; a number is a group from 15 digits on; what has a type or device is a user |
| `Jids.DevicesAreUsers` | yowsup/common/tools.py:24-31 | Printed device names stay with the user server, however long they are |
| `Jids.NameRoundTrip` | yowsup/common/tools.py:53-67 | A printed name decodes to the recipient, type and device it was printed from |
| `Jids.FullJidDecodes` | yowsup/common/tools.py:49-67 | The full form of any jid or list exists if its first name decodes, and decodes to the same |
| `Jids.CutNameDecodes` | yowsup/common/tools.py:56-67 | Cutting a name at its first comma keeps its decoding if and only if, by the piece that has it, the comma does no harm |
| `Jids.FullJidKeepsNames` | yowsup/common/tools.py:49-67 | For any `int` that rejects commas, the full form decodes like the jid itself if and only if the commas of its name do no harm: never in the recipient, always behind the device or when there is none, in between by what the type and device pieces read as |
| `Jids.ListIsNotKept` | yowsup/common/tools.py:49-53 | "1,2" is a list that is not kept |
| `PreKeys.GeneratePreKeys` | axolotl/util/keyhelper.py:58-77 | The loop returns the batch with the wrapped ids |
| `PreKeys.IdsInRange` | axolotl/util/keyhelper.py:74 | Every id lies in [1, 0xFFFFFE], so it is never 0 and never the reserved maximum |
| `PreKeys.DistinctIff` | axolotl/util/keyhelper.py:71-77 | The ids of a batch are pairwise distinct if and only if it has at most 0xFFFFFE entries |
| `PreKeys.AboveMaxIff` | yowsup/axolotl/manager.py:76-78 | A batch behind the largest stored id stays above it if and only if it does not wrap around (or nothing was stored) |
| `PreKeys.NextBatchFitsIff` | yowsup/axolotl/manager.py:74-83 | A batch can be stored if and only if no id that it reaches by wrapping around is still in stock |
| `PreKeys.FittingBatchIsStored` | yowsup/axolotl/manager.py:80-83 | A fitting batch is stored in full and replaces nothing |
| `PreKeys.LevelPreKeys` | yowsup/axolotl/manager.py:68-87 | Below ten keys, or when forced, 812 are generated and stored up to the first collision; whenever the call succeeds at least ten keys are in stock |
| `PreKeys.GeneratedPreKeysWork` | axolotl/sessionbuilder.py:79-98 | For a bundle with a generated one-time prekey the first message is always read and that prekey is used up |
| `Managers.UnpadUndoesPad` | yowsup/axolotl/manager.py:149-157 | Unpadding gives the message back for every message and every padding length from 1 to 255 |
| `Managers.UnpadMeaning` | yowsup/axolotl/manager.py:154-157 | Only the last byte is read: what remains is a prefix, and nothing for zero or too large a value |
| `Managers.UnpaddedMeans` | yowsup/axolotl/manager.py:177-214 | What the caller gets with and without unpadding, for every answer of the engine, empty plaintexts included |
| `Managers.CacheKeyCollisions` | yowsup/axolotl/manager.py:129-131 | Two addresses share a cache key if and only if they are equal up to a negative device written as a dash more in the name; for devices that are not negative the key is injective |
| `Managers.NegativeDevicesCollide` | yowsup/axolotl/manager.py:131 | ("a-", 1) and ("a", -1) share a key |
| `Managers.AxolotlManager.GetSessionCipher` | yowsup/axolotl/manager.py:129-137 | The cipher is one for the requested address as long as no negative device was ever asked for, and is cached under its key |
| `Managers.AxolotlManager.EncryptFor` | yowsup/axolotl/manager.py:159-175 | The padded message is encrypted for the decoded address; a jid that does not decode changes nothing |
| `Managers.AxolotlManager.DecryptMsg` | yowsup/axolotl/manager.py:196-214 | Answer and stores for the decoded address; unpadding comes after the session was stored |
| `Managers.AxolotlManager.DecryptPkmsg` | yowsup/axolotl/manager.py:177-193 | The same for prekey messages, with the order of the writes |
| `Managers.MessagesArriveUnpadded` | yowsup/axolotl/manager.py:149-214 | In every reachable state of two peers, for plain messages and for prekey messages of a held session, and whatever sessions of other master secrets the record archives: the receiver gets the sender's bytes exactly or is refused, as history determines, and the record moves on as the session does |
| `EndToEnd.EveryMailIsExact` | yowsup/axolotl/manager.py:149-214 | From a bundle on, over every run of texts written and messages opened at both stores, lost, reordered and repeated: whatever prekey or plain message is opened, the manager returns the sender's bytes or a refusal, as history determines, with the very error of the verdict if no other session in the record has a chain for the ratchet key; and the record then serves the session that history has |
| `EndToEnd.AnyMailMayComeFirst` | axolotl/sessioncipher.py:85-108 | Of any texts that Alice has sent, whichever prekey message reaches Bob first is read if and only if its number is at most 2000; then his record holds the session with that message read, and otherwise sessions and prekeys are unchanged |
| `EndToEnd.ReadAtMostOnce` | yowsup/axolotl/manager.py:149-214 | Over every run, a message that was opened with success is never opened with success again, also when a prekey message is repeated |
| `EndToEnd.NewBaseKeyIsReady` | axolotl/sessionbuilder.py:119-147 | The start of these runs asks of the two records only that the base key of the bundle is new to whatever operations built them |
| `EndToEnd.NewRatchetKeysStayAlone` | axolotl/state/sessionrecord.py:50-57 | Over every run, a ratchet key for which a record held no chain before the bundle is shared with no other session of that record, so refusals under it are those of the verdict |
| `EndToEnd.RunKeepsInv` | axolotl/sessioncipher.py:31-142 | Both stores keep serving the sessions of history, and Bob's stay untouched up to identities while he refuses, over every run |
| `Managers.GroupMessagesArriveUnpadded` | yowsup/axolotl/manager.py:216-240 | The same for a sender and a member of a group |

## Left out

- Curve25519, AES-CBC, HMAC-SHA256 and signatures: parameters or free terms with agreement commuting and decryption inverting encryption.
- The protobuf encoding: a codec that parses what it serialised; the conversation and record modules work on parsed messages.
- Counters and indices in storage and on the wire are 32-bit; `Framing` models the refusal of larger ones, the session and group chains count without bound.
- Message version 2: sessions are always created with version 3, so the version-2 key derivation appears only as offset 0 in `Hkdf.Expand`.
- The bytes behind the key terms: `SenderMessageKey`, `DerivedRootSecrets` and `DerivedMessageSecrets` are slices of one term, not of a byte string.
- `ByteUtil.intToByteArray` (no caller), `trim` outside the MAC, and the key getters.
- The SQL of the stores: maps from keys to values; only the unique prekey id is modelled. Sent and unsent marks of prekeys are not.
- Signed prekeys: read by id from a map; their generation (yowsup/axolotl/manager.py:107-119) divides with `/` and is not modelled.
- The group cipher cache, `SenderKeyName` and the logging of the manager, and the renaming of exceptions to its own classes of the same name.
- The distribution message as bytes: the builder receives its parsed fields.
- The Noise handshake and transport, the XMPP layers and the application on top.
- Distribution messages are taken to be the sender's own, because they travel inside pairwise sessions.
- SessionRecords.SessionRecord.SetState: the plain assignment of the current state, stated and proved but without a row.
- Conversation.EveryDeliveryIsExact: assumes that whatever decrypts was sent by the peer and that generated ratchet keys are new; `Conversation.UnforgedRunIsAllowed` derives the first from "nobody else makes MACs under keys of the master secret".
- EndToEnd.EveryMailIsExact: the network delivers only what the two wrote since the bundle; messages made by others are the subject of `Conversation.UnforgedRunIsAllowed`, and a late message of an archived session, which would make that session current again, that of `RecordRuns.SearchIsComplete`.
- ForwardSecrecy.ReadKeysAreGone: about hashing forward from root, chain and message keys; private ratchet keys and the agreements they allow are not among what is known.
