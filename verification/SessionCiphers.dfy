/**
 The session cipher as an object over its stores (axolotl/sessioncipher.py): every method is proved
 to compute the functions of SessionProtocol and SessionRecords.
 */
module SessionCiphers {
  import opened Wrappers
  import opened Curve
  import opened Ratchet
  import opened SkippedKeys
  import opened Messages
  import opened SessionStates
  import opened SessionProtocol
  import opened SessionRecords
  import opened AxolotlStores
  import opened SessionBuilders

  /** The stores after a message was decrypted or refused. */
  function AfterMessage(st: Stores, a: Address, m: WhisperMessage,
                        ourNew: nat -> KeyPair): (Result<seq<byte>, Failure>, Stores)
  {
    if a !in st.sessions then (Err(NoSession), st)
    else
      var found := DecryptRecord(LoadRecord(st, a), m, ourNew);
      (found.answer, if found.answer.Ok? then st.(sessions := st.sessions[a := found.record]) else st)
  }

  /** A prekey message establishes its session first; one that was built locally without an id does not. */
  function Prepare(st: Stores, a: Address, m: PreKeyWhisperMessage): Result<(Record, Option<nat>), Failure>
  {
    if m.preKeyId.Some? then Process(LoadRecord(st, a), st, a, m) else Ok((LoadRecord(st, a), None))
  }

  /** An answer, the stores it leaves, and the writes that led there, in order. */
  datatype Effect = Effect(answer: Result<seq<byte>, Failure>, stores: Stores, writes: seq<Event>)

  /** The session is stored once there is a plaintext, and the prekey removed after that. */
  function Finish(st: Stores, a: Address, record: Record, unsigned: Option<nat>, m: WhisperMessage,
                  ourNew: nat -> KeyPair): Effect
  {
    var found := DecryptRecord(record, m, ourNew);
    if !found.answer.Ok? then Effect(found.answer, st, [])
    else
      var stored := st.(sessions := st.sessions[a := found.record]);
      match unsigned
      case None => Effect(found.answer, stored, [StoredSession])
      case Some(id) => Effect(found.answer, stored.(preKeys := stored.preKeys - {id}),
                              [StoredSession, RemovedPreKey(id)])
  }

  /** Identities are saved before decryption, sessions and prekeys only after it. */
  function AfterPreKeyMessage(st: Stores, a: Address, m: PreKeyWhisperMessage, ourNew: nat -> KeyPair): Effect
  {
    match Prepare(st, a, m)
    case Err(e) => Effect(Err(e), st, [])
    case Ok((record, unsigned)) =>
      var saved := if m.preKeyId.Some? then st.(identities := st.identities[a := m.identityKey]) else st;
      var finished := Finish(saved, a, record, unsigned, m.message, ourNew);
      finished.(writes := (if m.preKeyId.Some? then [SavedIdentity] else []) + finished.writes)
  }

  /** A refused message changes no store. */
  lemma RefusedMessageChangesNothing(st: Stores, a: Address, m: WhisperMessage, ourNew: nat -> KeyPair)
    ensures var (answer, stores) := AfterMessage(st, a, m, ourNew);
            && (answer.Err? ==> stores == st)
            && stores.(sessions := st.sessions) == st
            && (forall other :: other != a ==> (other in stores.sessions <==> other in st.sessions))
            && (forall other :: other != a && other in st.sessions ==> stores.sessions[other] == st.sessions[other])
  {
  }

  /** Once its session is held, a prekey message is a message, except that the identity is saved again. */
  lemma HeldPreKeyMessage(st: Stores, a: Address, m: PreKeyWhisperMessage, ourNew: nat -> KeyPair)
    requires m.preKeyId.Some? && IsTrustedIdentity(st, a, m.identityKey)
    requires HoldsSession(LoadRecord(st, a), m.version, m.baseKey)
    ensures var (answer, stores) := AfterMessage(st, a, m.message, ourNew);
            var effect := AfterPreKeyMessage(st, a, m, ourNew);
            && effect.answer == answer
            && effect.stores == stores.(identities := st.identities[a := m.identityKey])
            && effect.writes == if answer.Ok? then [SavedIdentity, StoredSession] else [SavedIdentity]
  {
  }

  /**
   A refused prekey message leaves sessions and prekeys alone, but not the identity it brought, which
   stays saved if the message got as far as decryption. A one-time prekey is the last thing to go,
   right after the session was stored, and only if the message established that session.
   */
  lemma PreKeyMessageIsTransactional(st: Stores, a: Address, m: PreKeyWhisperMessage, ourNew: nat -> KeyPair)
    ensures var effect := AfterPreKeyMessage(st, a, m, ourNew);
            && (effect.answer.Err? ==> effect.stores.sessions == st.sessions && effect.stores.preKeys == st.preKeys)
            && effect.stores.identities
                 == (if SavedIdentity in effect.writes then st.identities[a := m.identityKey] else st.identities)
            && (SavedIdentity in effect.writes <==> m.preKeyId.Some? && Prepare(st, a, m).Ok?)
            && (effect.answer.Ok? <==> StoredSession in effect.writes)
            && forall i :: 0 <= i < |effect.writes| && effect.writes[i].RemovedPreKey? ==>
                 && i == |effect.writes| - 1 && i > 0 && effect.writes[i - 1] == StoredSession
                 && Some(effect.writes[i].id) == m.preKeyId
                 && effect.stores.preKeys == st.preKeys - {effect.writes[i].id}
                 && !HoldsSession(LoadRecord(st, a), m.version, m.baseKey)
  {
    PreparedPreKey(st, a, m);
    hide HoldsSession, LoadRecord;
    if Prepare(st, a, m).Ok? {
      var (record, unsigned) := Prepare(st, a, m).value;
      hide Prepare;
      var saved := if m.preKeyId.Some? then st.(identities := st.identities[a := m.identityKey]) else st;
      var finished := Finish(saved, a, record, unsigned, m.message, ourNew);
      FinishIsOrdered(saved, a, record, unsigned, m.message, ourNew);
      hide Finish;
      var first := if m.preKeyId.Some? then [SavedIdentity] else [];
      assert AfterPreKeyMessage(st, a, m, ourNew) == finished.(writes := first + finished.writes);
      WritesInOrder(m.preKeyId.Some?, finished.answer.Ok?, unsigned);
    }
  }

  /** All the sequences of writes that a prekey message can cause. */
  lemma WritesInOrder(saves: bool, stores: bool, unsigned: Option<nat>)
    ensures var first: seq<Event> := if saves then [SavedIdentity] else [];
            var rest := if !stores then [] else if unsigned.None? then [StoredSession]
                        else [StoredSession, RemovedPreKey(unsigned.value)];
            var writes := first + rest;
            && (SavedIdentity in writes <==> saves) && (StoredSession in writes <==> stores)
            && forall i :: 0 <= i < |writes| && writes[i].RemovedPreKey? ==>
                 && i == |writes| - 1 && i > 0 && writes[i - 1] == StoredSession
                 && stores && unsigned == Some(writes[i].id)
  {
  }

  /** The only errors that decryption itself gives. */
  lemma {:induction false} PreviousErrors(r: Record, i: nat, m: WhisperMessage, ourNew: nat -> KeyPair)
    ensures var answer := DecryptPrevious(r, i, m, ourNew).answer;
            answer.Err? ==> answer.error in {InvalidMessage, DuplicateMessage, Uncaught}
    decreases |r.previous| - i
  {
    if i < |r.previous| {
      DecryptErrors(r.previous[i], m, ourNew(i + 1));
      hide Decrypt;
      PreviousErrors(r, i + 1, m, ourNew);
    }
  }

  lemma DecryptErrors(s: SessionStructure, m: WhisperMessage, ourNew: KeyPair)
    ensures var answer := Decrypt(s, m, ourNew).answer;
            answer.Err? ==> answer.error in {InvalidMessage, DuplicateMessage, Uncaught}
  {
  }

  lemma SearchErrors(r: Record, m: WhisperMessage, ourNew: nat -> KeyPair)
    ensures var answer := DecryptRecord(r, m, ourNew).answer;
            answer.Err? ==> answer.error in {InvalidMessage, DuplicateMessage, Uncaught}
  {
    PreviousErrors(r, 0, m, ourNew);
    DecryptErrors(r.current, m, ourNew(0));
    hide Decrypt;
  }

  /** A message for an address without a record, and only that, is answered with NoSession. */
  lemma NoSessionIff(st: Stores, a: Address, m: WhisperMessage, ourNew: nat -> KeyPair)
    ensures AfterMessage(st, a, m, ourNew).0 == Err(NoSession) <==> a !in st.sessions
  {
    SearchErrors(LoadRecord(st, a), m, ourNew);
    hide DecryptRecord;
  }

  /**
   When a prekey message is refused before it is decrypted. With another identity stored for its address it
   changes nothing at all, whatever it says and whatever sessions are held; and that is the only way to this
   error. The other way is a new session that names a signed prekey, or a one-time prekey other than 0,
   which is not in stock.
   */
  lemma PreKeyMessageIsRefusedIff(st: Stores, a: Address, m: PreKeyWhisperMessage, ourNew: nat -> KeyPair)
    requires m.preKeyId.Some?
    ensures var effect := AfterPreKeyMessage(st, a, m, ourNew);
            var changed := a in st.identities && st.identities[a] != m.identityKey;
            var missing := || m.signedPreKeyId !in st.signedPreKeys
                           || (m.preKeyId.value != 0 && m.preKeyId.value !in st.preKeys);
            && (effect.answer == Err(UntrustedIdentity) <==> changed)
            && (effect.answer == Err(InvalidKeyId)
                <==> !changed && missing && !HoldsSession(LoadRecord(st, a), m.version, m.baseKey))
            && (effect.answer in {Err(UntrustedIdentity), Err(InvalidKeyId)} ==>
                  effect == Effect(effect.answer, st, []))
  {
    hide DecryptRecord, HoldsSession, LoadRecord, BobSession, StartOver;
    if Prepare(st, a, m).Ok? {
      SearchErrors(Prepare(st, a, m).value.0, m.message, ourNew);
    }
  }

  lemma FinishIsOrdered(st: Stores, a: Address, record: Record, unsigned: Option<nat>, m: WhisperMessage,
                        ourNew: nat -> KeyPair)
    ensures var effect := Finish(st, a, record, unsigned, m, ourNew);
            && effect.stores.identities == st.identities
            && (if effect.answer.Err? then effect.stores == st && effect.writes == []
                else match unsigned
                     case None => effect.stores.preKeys == st.preKeys && effect.writes == [StoredSession]
                     case Some(id) => && effect.stores.preKeys == st.preKeys - {id}
                                      && effect.writes == [StoredSession, RemovedPreKey(id)])
  {
    hide DecryptRecord;
  }

  lemma PreparedPreKey(st: Stores, a: Address, m: PreKeyWhisperMessage)
    ensures match Prepare(st, a, m)
            case Err(_) => true
            case Ok((_, unsigned)) =>
              unsigned.Some? ==> unsigned == m.preKeyId && !HoldsSession(LoadRecord(st, a), m.version, m.baseKey)
  {
    hide HoldsSession, LoadRecord, StartOver, BobSession;
  }

  class SessionCipher {
    const store: AxolotlStore
    const address: Address
    const builder: SessionBuilder

    ghost predicate Valid()
    {
      builder.store == store && builder.address == address
    }

    constructor (store: AxolotlStore, address: Address)
      ensures Valid() && this.store == store && this.address == address
    {
      this.store, this.address := store, address;
      this.builder := new SessionBuilder(store, address);
    }

    method EncryptMessage(plaintext: seq<byte>) returns (r: Result<CiphertextMessage, Failure>)
      modifies store`sessions, store`trace
      ensures var before := LoadRecord(old(store.View()), address);
              match Encrypt(before.current, plaintext)
              case Err(e) => r == Err(e) && store.View() == old(store.View())
              case Ok((m, state)) =>
                && r == Ok(m)
                && store.View()
                     == old(store.View()).(sessions := old(store.sessions)[address := before.(current := state)])
    {
      var record := store.LoadSession(address);
      var state := record.sessionState;
      if state.structure.senderChain.None? {
        return Err(Uncaught);
      }
      var SenderChain(ours, chainKey) := state.structure.senderChain.value;
      var version := Version(state.structure);
      var local, remote := state.structure.localIdentity, state.structure.remoteIdentity;
      var m := NewWhisperMessage(version, DeriveMessageKeys(chainKey.key), ours.publicKey, chainKey.index,
                                 state.structure.previousCounter, plaintext, local, remote);
      var sent := Whisper(m);
      if state.structure.pendingPreKey.Some? {
        var items := state.structure.pendingPreKey.value;
        sent := PreKey(PreKeyWhisperMessage(version, state.structure.localRegistrationId, items.preKeyId,
                                            items.signedPreKeyId,
                                            items.baseKey, local, m));
      }
      state.structure := state.structure.(senderChain := Some(SenderChain(ours, NextChainKey(chainKey))));
      store.StoreSession(address, record);
      return Ok(sent);
    }

    /** On failure nothing in the store changed. */
    method DecryptMsg(m: WhisperMessage, ourNew: nat -> KeyPair) returns (r: Result<seq<byte>, Failure>)
      modifies store`sessions, store`trace
      ensures (r, store.View()) == AfterMessage(old(store.View()), address, m, ourNew)
      ensures store.trace == old(store.trace) + if r.Ok? then [StoredSession] else []
    {
      if address !in store.sessions {
        return Err(NoSession);
      }
      var record := store.LoadSession(address);
      r := DecryptWithSessionRecord(record, m, ourNew);
      if r.Ok? {
        store.StoreSession(address, record);
      }
    }

    method PrepareRecord(record: SessionRecord, m: PreKeyWhisperMessage) returns (r: Result<Option<nat>, Failure>)
      requires Valid() && record.Valid() && record.View() == LoadRecord(store.View(), address)
      modifies record, record.sessionState, store`identities, store`trace
      ensures record.Valid()
      ensures match Prepare(old(store.View()), address, m)
              case Err(e) => r == Err(e) && store.View() == old(store.View()) && store.trace == old(store.trace)
              case Ok((ready, unsigned)) =>
                && r == Ok(unsigned) && record.View() == ready
                && store.View() == old(store.View()).(
                     identities := if m.preKeyId.Some? then old(store.identities)[address := m.identityKey]
                                   else old(store.identities))
                && store.trace == old(store.trace) + if m.preKeyId.Some? then [SavedIdentity] else []
    {
      if m.preKeyId.Some? {
        r := builder.ProcessMessage(record, m);
      } else {
        r := Ok(None);
      }
    }

    method FinishPkmsg(record: SessionRecord, unsigned: Option<nat>, m: WhisperMessage, ourNew: nat -> KeyPair)
      returns (r: Result<seq<byte>, Failure>)
      requires Valid() && record.Valid()
      modifies record, store`sessions, store`preKeys, store`trace
      ensures var effect := Finish(old(store.View()), address, old(record.View()), unsigned, m, ourNew);
              r == effect.answer && store.View() == effect.stores && store.trace == old(store.trace) + effect.writes
    {
      hide DecryptRecord;
      r := DecryptWithSessionRecord(record, m, ourNew);
      if r.Ok? {
        store.StoreSession(address, record);
        if unsigned.Some? {
          store.RemovePreKey(unsigned.value);
        }
      }
    }

    /** A prekey is removed last, after the plaintext exists and the record is stored. */
    method DecryptPkmsg(m: PreKeyWhisperMessage, ourNew: nat -> KeyPair) returns (r: Result<seq<byte>, Failure>)
      requires Valid()
      modifies store`sessions, store`identities, store`preKeys, store`trace
      ensures var effect := AfterPreKeyMessage(old(store.View()), address, m, ourNew);
              r == effect.answer && store.View() == effect.stores && store.trace == old(store.trace) + effect.writes
    {
      hide Finish, Prepare;
      var record := store.LoadSession(address);
      var unsigned := PrepareRecord(record, m);
      if unsigned.Err? {
        return Err(unsigned.error);
      }
      r := FinishPkmsg(record, unsigned.value, m.message, ourNew);
    }

    /** Attempts work on copies, so a record none of whose states fits is left as it was. */
    method DecryptWithSessionRecord(record: SessionRecord, m: WhisperMessage, ourNew: nat -> KeyPair)
      returns (r: Result<seq<byte>, Failure>)
      requires record.Valid()
      modifies record
      ensures record.Valid()
      ensures Found(r, record.View()) == DecryptRecord(old(record.View()), m, ourNew)
    {
      var state := new SessionState.Copy(record.sessionState);
      r := DecryptWithSessionState(state, m, ourNew(0));
      if r.Ok? {
        record.SetState(state);
      } else if r.error == InvalidMessage {
        r := TryPreviousStates(record, m, ourNew);
      }
    }

    method TryPreviousStates(record: SessionRecord, m: WhisperMessage, ourNew: nat -> KeyPair)
      returns (r: Result<seq<byte>, Failure>)
      requires record.Valid()
      modifies record
      ensures record.Valid()
      ensures Found(r, record.View()) == DecryptPrevious(old(record.View()), 0, m, ourNew)
    {
      ghost var before := record.View();
      for i := 0 to |record.previousStates|
        invariant record.Valid() && unchanged(record) && record.View() == before
        invariant DecryptPrevious(before, 0, m, ourNew) == DecryptPrevious(before, i, m, ourNew)
      {
        var promoted := new SessionState.Copy(record.previousStates[i]);
        r := DecryptWithSessionState(promoted, m, ourNew(i + 1));
        if r.Ok? {
          PromoteCopy(record, i, promoted);
          return;
        }
        if r.error != InvalidMessage {
          return;
        }
      }
      return Err(InvalidMessage);
    }

    static method PromoteCopy(record: SessionRecord, i: nat, promoted: SessionState)
      requires record.Valid() && i < |record.previousStates|
      requires promoted != record.sessionState && promoted !in record.previousStates
      modifies record
      ensures record.Valid()
      ensures record.View()
                == Promote(old(record.View()).(previous := Without(old(record.View()).previous, i)), promoted.structure)
    {
      record.PopPrevious(i);
      record.PromoteState(promoted);
    }

    static method DecryptWithSessionState(state: SessionState, m: WhisperMessage, ourNew: KeyPair)
      returns (r: Result<seq<byte>, Failure>)
      modifies state
      ensures Attempt(r, state.structure) == Decrypt(old(state.structure), m, ourNew)
    {
      if state.structure.senderChain.None? {
        return Err(InvalidMessage);
      }
      if m.header.version != Version(state.structure) {
        return Err(InvalidMessage);
      }
      var theirs := m.header.ratchetKey;
      var chainKey := GetOrCreateChainKey(state, theirs, ourNew);
      var keys := GetOrCreateMessageKeys(state, theirs, chainKey, m.header.counter);
      if keys.Err? {
        return Err(keys.error);
      }
      if !VerifyMac(m, state.structure.remoteIdentity, state.structure.localIdentity, keys.value.macKey) {
        return Err(InvalidMessage);
      }
      var plaintext := GetPlaintext(m.header.body, keys.value);
      if plaintext.None? {
        return Err(Uncaught);
      }
      state.structure := state.structure.(pendingPreKey := None);
      return Ok(plaintext.value);
    }

    static method GetOrCreateChainKey(state: SessionState, theirs: PublicKey, ourNew: KeyPair)
      returns (chainKey: ChainKey)
      requires state.structure.senderChain.Some?
      modifies state
      ensures state.structure == GetOrCreateChain(old(state.structure), theirs, ourNew)
      ensures HasChain(state.structure, theirs) && chainKey == ChainOf(state.structure, theirs).chainKey
    {
      var known := state.GetReceiverChain(theirs);
      if known.Some? {
        return state.structure.receiverChains[known.value].chain.chainKey;
      }
      var ours := state.structure.senderChain.value;
      var receiver := CreateChain(state.structure.rootKey, theirs, ours.ratchetKeyPair);
      var sender := CreateChain(receiver.rootKey, theirs, ourNew);
      AddedChainIsFound(state.structure.receiverChains, theirs, receiver.chainKey);
      state.structure := state.structure.(rootKey := sender.rootKey);
      state.AddReceiverChain(theirs, receiver.chainKey);
      state.structure := state.structure.(previousCounter := Max(ours.chainKey.index - 1, 0));
      state.structure := state.structure.(senderChain := Some(SenderChain(ourNew, sender.chainKey)));
      return receiver.chainKey;
    }

    static method GetOrCreateMessageKeys(state: SessionState, theirs: PublicKey, start: ChainKey, counter: nat)
      returns (r: Result<MessageKeys, Failure>)
      requires HasChain(state.structure, theirs) && start == ChainOf(state.structure, theirs).chainKey
      modifies state
      ensures match Take(ChainOf(old(state.structure), theirs), counter, Some(MAX_AHEAD), DeriveMessageKeys)
              case Taken(keys, chain) =>
                r == Ok(keys) && state.structure == WithChain(old(state.structure), theirs, chain)
              case AlreadyTaken => r == Err(DuplicateMessage) && state.structure == old(state.structure)
              case TooFarAhead => r == Err(InvalidMessage) && state.structure == old(state.structure)
    {
      ghost var before, c := state.structure, ChainOf(state.structure, theirs);
      if start.index > counter {
        var has := state.HasMessageKeys(theirs, counter);
        if has {
          var keys := state.RemoveMessageKeys(theirs, counter);
          return Ok(keys.value);
        }
        return Err(DuplicateMessage);
      }
      if counter - start.index > MAX_AHEAD {
        return Err(InvalidMessage);
      }
      var chainKey := start;
      ghost var stored := c.stored;
      WithSameChain(before, theirs);
      while chainKey.index < counter
        invariant chainKey.index <= counter
        invariant state.structure == WithChain(before, theirs, Chain(c.chainKey, stored))
        invariant SkipTo(Chain(chainKey, stored), counter, DeriveMessageKeys) == SkipTo(c, counter, DeriveMessageKeys)
      {
        WithChainKeepsKeys(before, theirs, Chain(c.chainKey, stored));
        var messageKeys := DeriveMessageKeys(chainKey.key);
        state.SetMessageKeys(theirs, chainKey.index, messageKeys);
        stored := stored + [Stored(chainKey.index, messageKeys)];
        chainKey := NextChainKey(chainKey);
      }
      WithChainKeepsKeys(before, theirs, Chain(c.chainKey, stored));
      state.SetReceiverChainKey(theirs, NextChainKey(chainKey));
      return Ok(DeriveMessageKeys(chainKey.key));
    }
  }

  lemma WithSameChain(s: SessionStructure, key: PublicKey)
    requires HasChain(s, key)
    ensures WithChain(s, key, ChainOf(s, key)) == s
  {
    assert WithChain(s, key, ChainOf(s, key)).receiverChains == s.receiverChains;
  }
}
