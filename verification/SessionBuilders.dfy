/**
 Session establishment: prekey messages, prekey bundles and the symmetric key
 exchange (axolotl/sessionbuilder.py).
 */
module SessionBuilders {
  import opened Wrappers
  import opened Curve
  import opened Messages
  import opened SessionStates
  import opened SessionRecords
  import opened AxolotlStores
  import opened RatchetingSession

  /** Medium.MAX_VALUE: the prekey id that is never removed. */
  const MAX_PREKEY_ID: nat := 0xFFFFFF

  // ----- prekey messages -----

  function OneTimePreKey(st: Stores, id: Option<nat>): Result<Option<KeyPair>, Failure>
  {
    if id.None? || id.value == 0 then Ok(None)
    else if id.value in st.preKeys then Ok(Some(st.preKeys[id.value]))
    else Err(InvalidKeyId)
  }

  function ReceivedParameters(st: Stores, m: PreKeyWhisperMessage, oneTime: Option<KeyPair>): BobParameters
    requires m.signedPreKeyId in st.signedPreKeys
  {
    var signed := st.signedPreKeys[m.signedPreKeyId];
    BobParameters(st.identityKeyPair, signed, signed, oneTime, m.identityKey, m.baseKey)
  }

  /** The state a record is given for a new session: its own, unless it was used before. */
  function StartOver(r: Record): Record
  {
    if r.isFresh then r else ArchiveCurrent(r)
  }

  function BobSession(st: Stores, s: SessionStructure, m: PreKeyWhisperMessage,
                      oneTime: Option<KeyPair>): SessionStructure
    requires m.signedPreKeyId in st.signedPreKeys
  {
    InitializeAsBob(s, ReceivedParameters(st, m, oneTime)).(
      localRegistrationId := st.registrationId,
      remoteRegistrationId := m.registrationId,
      aliceBaseKey := Some(m.baseKey))
  }

  /** The record and the one-time prekey to remove. */
  function ProcessV3(r: Record, st: Stores, m: PreKeyWhisperMessage): Result<(Record, Option<nat>), Failure>
  {
    if HoldsSession(r, m.version, m.baseKey) then Ok((r, None))
    else if m.signedPreKeyId !in st.signedPreKeys then Err(InvalidKeyId)
    else match OneTimePreKey(st, m.preKeyId)
         case Err(e) => Err(e)
         case Ok(oneTime) =>
           var started := StartOver(r);
           Ok((started.(current := BobSession(st, started.current, m, oneTime)),
               if m.preKeyId != Some(MAX_PREKEY_ID) then m.preKeyId else None))
  }

  function Process(r: Record, st: Stores, a: Address, m: PreKeyWhisperMessage): Result<(Record, Option<nat>), Failure>
  {
    if !IsTrustedIdentity(st, a, m.identityKey) then Err(UntrustedIdentity) else ProcessV3(r, st, m)
  }

  /** A state that was given no version counts as one of version 2. */
  predicate CountsAs(stored: nat, version: nat)
  {
    if stored == 0 then version == 2 else version == stored
  }

  /**
   When a prekey message falls through: exactly if the record holds a session of its base key and version.
   Otherwise, if the keys it names are in stock, a session of that name is started that has received nothing.
   */
  lemma KnownSessionsFallThrough(r: Record, st: Stores, m: PreKeyWhisperMessage)
    ensures var known := exists i :: 0 <= i < |States(r)| && States(r)[i].aliceBaseKey == Some(m.baseKey)
                                     && CountsAs(States(r)[i].sessionVersion, m.version);
            && (known ==> ProcessV3(r, st, m) == Ok((r, None)))
            && (!known && ProcessV3(r, st, m).Ok? ==>
                  var s := ProcessV3(r, st, m).value.0.current;
                  && s.aliceBaseKey == Some(m.baseKey) && s.remoteIdentity == m.identityKey
                  && s.remoteRegistrationId == m.registrationId && s.localRegistrationId == st.registrationId
                  && s.senderChain.Some? && s.senderChain.value.chainKey.index == 0
                  && s.receiverChains == StartOver(r).current.receiverChains)
  {
    hide BobSecret;
    if i :| 0 <= i < |States(r)| && States(r)[i].aliceBaseKey == Some(m.baseKey)
            && CountsAs(States(r)[i].sessionVersion, m.version) {
      assert Matches(States(r)[i], m.version, m.baseKey);
    }
  }

  // ----- prekey bundles -----

  datatype PreKeyBundle = PreKeyBundle(
    registrationId: nat, preKeyId: nat, preKey: Option<PublicKey>, signedPreKeyId: nat,
    signedPreKey: Option<PublicKey>, signature: Signature, identityKey: PublicKey)

  function BundleParameters(st: Stores, b: PreKeyBundle, ourBase: KeyPair): AliceParameters
    requires b.signedPreKey.Some?
  {
    AliceParameters(st.identityKeyPair, ourBase, b.identityKey, b.signedPreKey.value, b.signedPreKey.value, b.preKey)
  }

  function AliceSession(st: Stores, s: SessionStructure, b: PreKeyBundle, ourBase: KeyPair,
                        sending: KeyPair): SessionStructure
    requires b.signedPreKey.Some?
  {
    InitializeAsAlice(s, BundleParameters(st, b, ourBase), sending).(
      pendingPreKey := Some(PendingPreKey(if b.preKey.Some? then Some(b.preKeyId) else None, b.signedPreKeyId,
                                          ourBase.publicKey)),
      localRegistrationId := st.registrationId,
      remoteRegistrationId := b.registrationId,
      aliceBaseKey := Some(ourBase.publicKey))
  }

  function BundleRecord(r: Record, st: Stores, b: PreKeyBundle, ourBase: KeyPair, sending: KeyPair): Record
    requires b.signedPreKey.Some?
  {
    var started := StartOver(r);
    started.(current := AliceSession(st, started.current, b, ourBase, sending))
  }

  function CheckBundle(st: Stores, a: Address, b: PreKeyBundle): Option<Failure>
  {
    if !IsTrustedIdentity(st, a, b.identityKey) then Some(UntrustedIdentity)
    else if b.signedPreKey.None? then Some(InvalidKey)
    else if !VerifySignature(b.identityKey, b.signedPreKey.value, b.signature) then Some(InvalidKey)
    else None
  }

  function ProcessPreKeyBundle(st: Stores, a: Address, b: PreKeyBundle, ourBase: KeyPair,
                               sending: KeyPair): Result<Stores, Failure>
  {
    match CheckBundle(st, a, b)
    case Some(e) => Err(e)
    case None =>
      Ok(st.(sessions := st.sessions[a := BundleRecord(LoadRecord(st, a), st, b, ourBase, sending)],
             identities := st.identities[a := b.identityKey]))
  }

  /**
   When a bundle is accepted: exactly if no other identity is stored for the address and the bundle has a
   signed prekey with a signature by its identity key over that very prekey. Otherwise nothing is written
   (ProcessBundle), and the error says whether it was the identity.
   */
  lemma BundleIsAcceptedIff(st: Stores, a: Address, b: PreKeyBundle, ourBase: KeyPair, sending: KeyPair)
    ensures var r := ProcessPreKeyBundle(st, a, b, ourBase, sending);
            var changed := a in st.identities && st.identities[a] != b.identityKey;
            && (r.Ok? <==> && !changed && b.signedPreKey.Some?
                           && b.signature == Signed(b.identityKey, b.signedPreKey.value))
            && (r.Err? ==> r.error == if changed then UntrustedIdentity else InvalidKey)
  {
  }

  /**
   So a session from a bundle only ever agrees with a prekey that the identity's holder signed: the stored
   session names that identity, and every ratchet key it holds carries its signature.
   */
  lemma BundleSessionsAreSigned(st: Stores, a: Address, b: PreKeyBundle, ourBase: KeyPair, sending: KeyPair)
    requires ProcessPreKeyBundle(st, a, b, ourBase, sending).Ok?
    ensures var after := ProcessPreKeyBundle(st, a, b, ourBase, sending).value;
            var s := LoadRecord(after, a).current;
            && (a in st.identities ==> s.remoteIdentity == st.identities[a])
            && after.identities == st.identities[a := s.remoteIdentity]
            && |s.receiverChains| == 1
            && b.signature == Signed(s.remoteIdentity, s.receiverChains[0].ratchetKey)
  {
    hide AliceSecret;
  }

  // ----- the symmetric key exchange -----

  const INITIATE_FLAG: nat := 0x01
  const RESPONSE_FLAG: nat := 0x02
  const SIMULTANEOUS_INITIATE_FLAG: nat := 0x04

  datatype KeyExchangeMessage = KeyExchangeMessage(
    version: nat, sequence: nat, flags: nat, baseKey: PublicKey, baseKeySignature: Signature,
    ratchetKey: PublicKey, identityKey: PublicKey)

  function NewKeyExchange(sequence: nat, flags: nat, base: KeyPair, ratchet: KeyPair,
                          identity: KeyPair): KeyExchangeMessage
  {
    KeyExchangeMessage(CURRENT_VERSION, sequence, flags, base.publicKey, CalculateSignature(identity, base.publicKey),
                       ratchet.publicKey, identity.publicKey)
  }

  predicate HasFlag(m: KeyExchangeMessage, flag: nat)
    requires flag > 0
  {
    (m.flags / flag) % 2 == 1
  }

  predicate SignatureHolds(m: KeyExchangeMessage)
  {
    VerifySignature(m.identityKey, m.baseKey, m.baseKeySignature)
  }

  /** Start an exchange: the record remembers the keys that were offered. */
  function InitiateExchange(r: Record, sequence: nat, base: KeyPair, ratchet: KeyPair, identity: KeyPair)
    : (Record, KeyExchangeMessage)
  {
    (r.(current := r.current.(pendingKeyExchange := Some(PendingKeyExchange(sequence, base, ratchet, identity)))),
     NewKeyExchange(sequence, INITIATE_FLAG, base, ratchet, identity))
  }

  /** The keys to answer with: those already offered, if an exchange of our own is pending. */
  function Offer(r: Record, identity: KeyPair, newBase: KeyPair, newRatchet: KeyPair): PendingKeyExchange
  {
    match r.current.pendingKeyExchange
    case Some(pending) => pending
    case None => PendingKeyExchange(0, newBase, newRatchet, identity)
  }

  function ExchangeParameters(ours: PendingKeyExchange, m: KeyExchangeMessage): SymmetricParameters
  {
    SymmetricParameters(ours.baseKey, ours.ratchetKey, ours.identityKey, m.baseKey, m.ratchetKey, m.identityKey)
  }

  predicate BaseKeysComparable(ours: KeyPair, theirs: PublicKey)
  {
    |ours.publicKey.publicKey| == 32 && |theirs.publicKey| == 32
  }

  function ExchangeRecord(r: Record, p: SymmetricParameters, sending: KeyPair): Record
    requires BaseKeysComparable(p.ourBase, p.theirBase)
  {
    var started := StartOver(r);
    started.(current := Initialize(started.current, p, sending))
  }

  function ProcessInitiate(r: Record, m: KeyExchangeMessage, identity: KeyPair, newBase: KeyPair, newRatchet: KeyPair,
                           sending: KeyPair)
    : Result<(Record, KeyExchangeMessage), Failure>
  {
    var ours := Offer(r, identity, newBase, newRatchet);
    if !SignatureHolds(m) then Err(InvalidKey)
    else if !BaseKeysComparable(ours.baseKey, m.baseKey) then Err(Uncaught)
    else
      var flags := if r.current.pendingKeyExchange.Some? then RESPONSE_FLAG + SIMULTANEOUS_INITIATE_FLAG
                   else RESPONSE_FLAG;
      Ok((ExchangeRecord(r, ExchangeParameters(ours, m), sending),
          NewKeyExchange(m.sequence, flags, ours.baseKey, ours.ratchetKey, ours.identityKey)))
  }

  /** The new record, or None for a stale response to a simultaneous initiate, which is dropped without an error. */
  function ProcessResponse(r: Record, m: KeyExchangeMessage, sending: KeyPair): Result<Option<Record>, Failure>
  {
    match r.current.pendingKeyExchange
    case Some(ours) =>
      if ours.sequence != m.sequence then
        if HasFlag(m, SIMULTANEOUS_INITIATE_FLAG) then Ok(None) else Err(StaleKeyExchange)
      else if !BaseKeysComparable(ours.baseKey, m.baseKey) then Err(Uncaught)
      else if !SignatureHolds(m) then Err(InvalidKey)
      else Ok(Some(ExchangeRecord(r, ExchangeParameters(ours, m), sending)))
    case None =>
      if HasFlag(m, SIMULTANEOUS_INITIATE_FLAG) then Ok(None) else Err(StaleKeyExchange)
  }

  // ----- offers, answers and responses at the level of the stores -----

  /** What storing a record and then the peer's identity leaves behind. */
  function StoredExchange(st: Stores, a: Address, r: Record, identity: PublicKey): Stores
  {
    st.(sessions := st.sessions[a := r], identities := st.identities[a := identity])
  }

  function AfterOffer(st: Stores, a: Address, sequence: nat, base: KeyPair,
                      ratchet: KeyPair): (KeyExchangeMessage, Stores)
  {
    var (record, m) := InitiateExchange(LoadRecord(st, a), sequence, base, ratchet, st.identityKeyPair);
    (m, st.(sessions := st.sessions[a := record]))
  }

  /** What is sent back, if anything, and the stores after a key exchange message. */
  function AfterKeyExchange(st: Stores, a: Address, m: KeyExchangeMessage, newBase: KeyPair, newRatchet: KeyPair,
                            sending: KeyPair): (Result<Option<KeyExchangeMessage>, Failure>, Stores)
  {
    if !IsTrustedIdentity(st, a, m.identityKey) then (Err(UntrustedIdentity), st)
    else if HasFlag(m, INITIATE_FLAG) then
      match ProcessInitiate(LoadRecord(st, a), m, st.identityKeyPair, newBase, newRatchet, sending)
      case Err(e) => (Err(e), st)
      case Ok((record, response)) => (Ok(Some(response)), StoredExchange(st, a, record, m.identityKey))
    else
      match ProcessResponse(LoadRecord(st, a), m, sending)
      case Err(e) => (Err(e), st)
      case Ok(None) => (Ok(None), st)
      case Ok(Some(record)) => (Ok(None), StoredExchange(st, a, record, m.identityKey))
  }

  /**
   What becomes of a response that nobody waits for: it changes nothing, and it is stale unless it says that
   it answers a simultaneous offer. One that is waited for completes the exchange if the base key is signed.
   */
  lemma OnlyAwaitedResponses(st: Stores, a: Address, m: KeyExchangeMessage, newBase: KeyPair, newRatchet: KeyPair,
                             sending: KeyPair)
    requires IsTrustedIdentity(st, a, m.identityKey) && m.flags % 2 == 0
    ensures var (answer, after) := AfterKeyExchange(st, a, m, newBase, newRatchet, sending);
            var pending := LoadRecord(st, a).current.pendingKeyExchange;
            var awaited := pending.Some? && pending.value.sequence == m.sequence;
            && (!awaited ==> after == st)
            && (answer == Err(StaleKeyExchange) <==> !awaited && m.flags / 4 % 2 == 0)
            && (answer == Err(InvalidKey)
                <==> && awaited && BaseKeysComparable(pending.value.baseKey, m.baseKey)
                     && m.baseKeySignature != Signed(m.identityKey, m.baseKey))
            && (answer.Ok? ==> answer == Ok(None))
  {
    hide Initialize;
  }

  /**
   What a key exchange message may change: nothing, unless its identity is the stored one or the first one
   for the address, and signed its base key. Then the identity is stored with the session.
   */
  lemma ExchangesAreSigned(st: Stores, a: Address, m: KeyExchangeMessage, newBase: KeyPair, newRatchet: KeyPair,
                           sending: KeyPair)
    ensures var (answer, after) := AfterKeyExchange(st, a, m, newBase, newRatchet, sending);
            var changed := a in st.identities && st.identities[a] != m.identityKey;
            && (answer == Err(UntrustedIdentity) <==> changed)
            && (answer.Err? ==> after == st)
            && (after != st ==> m.baseKeySignature == Signed(m.identityKey, m.baseKey))
            && (after != st ==> after.identities == st.identities[a := m.identityKey])
            && (after != st ==> LoadRecord(after, a).current.remoteIdentity == m.identityKey)
  {
    hide HasFlag, AliceSecret, BobSecret, Less;
  }

  lemma InitializedRatchets(p: SymmetricParameters, sending: KeyPair)
    requires BaseKeysComparable(p.ourBase, p.theirBase)
    ensures var s := Initialize(EMPTY_STRUCTURE, p, sending);
            && s.senderChain.Some?
            && if s.receiverChains == [] then s.senderChain.value.ratchetKeyPair == p.ourRatchet
               else |s.receiverChains| == 1 && s.receiverChains[0].ratchetKey == p.theirRatchet
  {
    hide AliceSecret, BobSecret, Less;
  }

  /**
   Which ratchet keys a completed exchange uses: who plays Alice expects messages under the ratchet key that
   the other side offered, and who plays Bob sends under the one that was offered by this side.
   */
  lemma ExchangesUseOfferedRatchets(st: Stores, a: Address, m: KeyExchangeMessage, newBase: KeyPair,
                                    newRatchet: KeyPair, sending: KeyPair)
    ensures var after := AfterKeyExchange(st, a, m, newBase, newRatchet, sending).1;
            var pending := LoadRecord(st, a).current.pendingKeyExchange;
            var offered := if pending.Some? then pending.value.ratchetKey else newRatchet;
            var s := LoadRecord(after, a).current;
            after != st ==>
              && s.senderChain.Some?
              && if s.receiverChains == [] then s.senderChain.value.ratchetKeyPair == offered
                 else |s.receiverChains| == 1 && s.receiverChains[0].ratchetKey == m.ratchetKey
  {
    var ours := Offer(LoadRecord(st, a), st.identityKeyPair, newBase, newRatchet);
    if BaseKeysComparable(ours.baseKey, m.baseKey) {
      InitializedRatchets(ExchangeParameters(ours, m), sending);
    }
    hide HasFlag, Initialize;
  }

  // ----- the builder -----

  class SessionBuilder {
    const store: AxolotlStore
    const address: Address

    constructor (store: AxolotlStore, address: Address)
      ensures this.store == store && this.address == address
    {
      this.store, this.address := store, address;
    }

    /** Works on the caller's record; the session store is not written, the identity store is. */
    method ProcessMessage(record: SessionRecord, m: PreKeyWhisperMessage) returns (r: Result<Option<nat>, Failure>)
      requires record.Valid()
      modifies record, record.sessionState, store`identities, store`trace
      ensures record.Valid() && (record.sessionState == old(record.sessionState) || fresh(record.sessionState))
      ensures match Process(old(record.View()), old(store.View()), address, m)
              case Err(e) =>
                && r == Err(e) && record.View() == old(record.View())
                && store.View() == old(store.View()) && store.trace == old(store.trace)
              case Ok((after, unsigned)) =>
                && r == Ok(unsigned) && record.View() == after
                && store.View() == old(store.View()).(identities := old(store.identities)[address := m.identityKey])
                && store.trace == old(store.trace) + [SavedIdentity]
    {
      if address in store.identities && store.identities[address] != m.identityKey {
        return Err(UntrustedIdentity);
      }
      r := ProcessMessageV3(record, m);
      if r.Ok? {
        store.SaveIdentity(address, m.identityKey);
      }
    }

    method ProcessMessageV3(record: SessionRecord, m: PreKeyWhisperMessage) returns (r: Result<Option<nat>, Failure>)
      requires record.Valid()
      modifies record, record.sessionState
      ensures record.Valid() && (record.sessionState == old(record.sessionState) || fresh(record.sessionState))
      ensures match ProcessV3(old(record.View()), store.View(), m)
              case Err(e) => r == Err(e) && record.View() == old(record.View())
              case Ok((after, unsigned)) => r == Ok(unsigned) && record.View() == after
    {
      hide BobSession, HoldsSession, StartOver;
      var known := record.HasSessionState(m.version, m.baseKey);
      if known {
        return Ok(None);
      }
      if m.signedPreKeyId !in store.signedPreKeys {
        return Err(InvalidKeyId);
      }
      var oneTime := None;
      if m.preKeyId.Some? && m.preKeyId.value != 0 {
        if m.preKeyId.value !in store.preKeys {
          return Err(InvalidKeyId);
        }
        oneTime := Some(store.preKeys[m.preKeyId.value]);
      }
      InitializeFromMessage(record, m, oneTime);
      if m.preKeyId.Some? && m.preKeyId.value != MAX_PREKEY_ID {
        return Ok(m.preKeyId);
      }
      return Ok(None);
    }

    method InitializeFromMessage(record: SessionRecord, m: PreKeyWhisperMessage, oneTime: Option<KeyPair>)
      requires record.Valid() && m.signedPreKeyId in store.signedPreKeys
      modifies record, record.sessionState
      ensures record.Valid() && (record.sessionState == old(record.sessionState) || fresh(record.sessionState))
      ensures var started := StartOver(old(record.View()));
              record.View() == started.(current := BobSession(store.View(), started.current, m, oneTime))
    {
      hide InitializeAsBob, ArchiveCurrent;
      var ourSignedPreKey := store.signedPreKeys[m.signedPreKeyId];
      if !record.isFresh {
        record.ArchiveCurrentState();
      }
      var state := record.sessionState;
      InitializeSessionAsBob(state,
                             BobParameters(store.identityKeyPair, ourSignedPreKey, ourSignedPreKey, oneTime,
                                           m.identityKey, m.baseKey));
      state.structure := state.structure.(localRegistrationId := store.registrationId);
      state.structure := state.structure.(remoteRegistrationId := m.registrationId);
      state.structure := state.structure.(aliceBaseKey := Some(m.baseKey));
    }

    method InitializeFromBundle(record: SessionRecord, b: PreKeyBundle, ourBase: KeyPair, sending: KeyPair)
      requires record.Valid() && b.signedPreKey.Some?
      modifies record, record.sessionState
      ensures record.Valid()
      ensures record.View() == BundleRecord(old(record.View()), store.View(), b, ourBase, sending)
    {
      hide InitializeAsAlice, ArchiveCurrent;
      var signed := b.signedPreKey.value;
      if !record.isFresh {
        record.ArchiveCurrentState();
      }
      var state := record.sessionState;
      InitializeSessionAsAlice(state,
                               AliceParameters(store.identityKeyPair, ourBase, b.identityKey, signed, signed,
                                               b.preKey), sending);
      var pending := PendingPreKey(if b.preKey.Some? then Some(b.preKeyId) else None, b.signedPreKeyId,
                                   ourBase.publicKey);
      state.structure := state.structure.(pendingPreKey := Some(pending));
      state.structure := state.structure.(localRegistrationId := store.registrationId);
      state.structure := state.structure.(remoteRegistrationId := b.registrationId);
      state.structure := state.structure.(aliceBaseKey := Some(ourBase.publicKey));
    }

    method ProcessBundle(b: PreKeyBundle, ourBase: KeyPair, sending: KeyPair) returns (r: Result<(), Failure>)
      modifies store`sessions, store`identities, store`trace
      ensures match ProcessPreKeyBundle(old(store.View()), address, b, ourBase, sending)
              case Err(e) => r == Err(e) && store.View() == old(store.View()) && store.trace == old(store.trace)
              case Ok(after) =>
                && r == Ok(()) && store.View() == after
                && store.trace == old(store.trace) + [StoredSession, SavedIdentity]
      ensures r.Ok? <==> && (address in old(store.identities) ==> old(store.identities)[address] == b.identityKey)
                         && b.signedPreKey.Some? && b.signature == Signed(b.identityKey, b.signedPreKey.value)
    {
      if address in store.identities && store.identities[address] != b.identityKey {
        return Err(UntrustedIdentity);
      }
      if b.signedPreKey.Some? && !VerifySignature(b.identityKey, b.signedPreKey.value, b.signature) {
        return Err(InvalidKey);
      }
      if b.signedPreKey.None? {
        return Err(InvalidKey);
      }
      var record := store.LoadSession(address);
      InitializeFromBundle(record, b, ourBase, sending);
      store.StoreSession(address, record);
      store.SaveIdentity(address, b.identityKey);
      return Ok(());
    }

    method InitKeyExchange(sequence: nat, base: KeyPair, ratchet: KeyPair) returns (m: KeyExchangeMessage)
      modifies store`sessions, store`trace
      ensures (m, store.View()) == AfterOffer(old(store.View()), address, sequence, base, ratchet)
    {
      var identity := store.identityKeyPair;
      var record := store.LoadSession(address);
      var state := record.sessionState;
      var pending := PendingKeyExchange(sequence, base, ratchet, identity);
      state.structure := state.structure.(pendingKeyExchange := Some(pending));
      store.StoreSession(address, record);
      return NewKeyExchange(sequence, INITIATE_FLAG, base, ratchet, identity);
    }

    method InitializeFromExchange(record: SessionRecord, p: SymmetricParameters, sending: KeyPair)
      requires record.Valid() && BaseKeysComparable(p.ourBase, p.theirBase)
      modifies record, record.sessionState
      ensures record.Valid() && record.View() == ExchangeRecord(old(record.View()), p, sending)
    {
      if !record.isFresh {
        record.ArchiveCurrentState();
      }
      InitializeSession(record.sessionState, p, sending);
    }

    method ProcessInitiateMessage(m: KeyExchangeMessage, newBase: KeyPair, newRatchet: KeyPair, sending: KeyPair)
      returns (r: Result<Option<KeyExchangeMessage>, Failure>)
      modifies store`sessions, store`identities, store`trace
      ensures match ProcessInitiate(LoadRecord(old(store.View()), address), m, store.identityKeyPair, newBase,
                                    newRatchet, sending)
              case Err(e) => r == Err(e) && store.View() == old(store.View())
              case Ok((after, response)) =>
                && r == Ok(Some(response))
                && store.View() == StoredExchange(old(store.View()), address, after, m.identityKey)
    {
      var record := store.LoadSession(address);
      if !VerifySignature(m.identityKey, m.baseKey, m.baseKeySignature) {
        return Err(InvalidKey);
      }
      var flags := RESPONSE_FLAG;
      var ours := PendingKeyExchange(0, newBase, newRatchet, store.identityKeyPair);
      if record.sessionState.structure.pendingKeyExchange.Some? {
        ours := record.sessionState.structure.pendingKeyExchange.value;
        flags := flags + SIMULTANEOUS_INITIATE_FLAG;
      }
      if !BaseKeysComparable(ours.baseKey, m.baseKey) {
        return Err(Uncaught);
      }
      InitializeFromExchange(record, ExchangeParameters(ours, m), sending);
      store.StoreSession(address, record);
      store.SaveIdentity(address, m.identityKey);
      return Ok(Some(NewKeyExchange(m.sequence, flags, ours.baseKey, ours.ratchetKey, ours.identityKey)));
    }

    method ProcessResponseMessage(m: KeyExchangeMessage, sending: KeyPair)
      returns (r: Result<Option<KeyExchangeMessage>, Failure>)
      modifies store`sessions, store`identities, store`trace
      ensures match ProcessResponse(LoadRecord(old(store.View()), address), m, sending)
              case Err(e) => r == Err(e) && store.View() == old(store.View())
              case Ok(None) => r == Ok(None) && store.View() == old(store.View())
              case Ok(Some(after)) =>
                && r == Ok(None)
                && store.View() == StoredExchange(old(store.View()), address, after, m.identityKey)
    {
      var record := store.LoadSession(address);
      var pending := record.sessionState.structure.pendingKeyExchange;
      if pending.None? || pending.value.sequence != m.sequence {
        return if HasFlag(m, SIMULTANEOUS_INITIATE_FLAG) then Ok(None) else Err(StaleKeyExchange);
      }
      if !BaseKeysComparable(pending.value.baseKey, m.baseKey) {
        return Err(Uncaught);
      }
      InitializeFromExchange(record, ExchangeParameters(pending.value, m), sending);
      if !VerifySignature(m.identityKey, m.baseKey, m.baseKeySignature) {
        return Err(InvalidKey);
      }
      store.StoreSession(address, record);
      store.SaveIdentity(address, m.identityKey);
      return Ok(None);
    }

    method ProcessKeyExchange(m: KeyExchangeMessage, newBase: KeyPair, newRatchet: KeyPair, sending: KeyPair)
      returns (r: Result<Option<KeyExchangeMessage>, Failure>)
      modifies store`sessions, store`identities, store`trace
      ensures (r, store.View()) == AfterKeyExchange(old(store.View()), address, m, newBase, newRatchet, sending)
    {
      if address in store.identities && store.identities[address] != m.identityKey {
        return Err(UntrustedIdentity);
      }
      if HasFlag(m, INITIATE_FLAG) {
        r := ProcessInitiateMessage(m, newBase, newRatchet, sending);
      } else {
        r := ProcessResponseMessage(m, sending);
      }
    }
  }
}
