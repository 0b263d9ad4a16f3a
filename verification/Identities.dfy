/**
 One identity per address, over any run of operations on the stores: bundles, prekey messages, messages,
 texts and key exchanges (axolotl/sessionbuilder.py, axolotl/sessioncipher.py).
 */
module Identities {
  import opened Wrappers
  import opened Curve
  import opened Messages
  import opened SessionStates
  import opened SessionProtocol
  import opened SessionRecords
  import opened AxolotlStores
  import opened RatchetingSession
  import opened SessionBuilders
  import opened SessionCiphers
  import opened Managers
  import R = RecordRuns

  datatype Op =
    | TakeBundle(a: Address, bundle: PreKeyBundle, ourBase: KeyPair, sending: KeyPair)
    | ReceivePreKey(a: Address, preKey: PreKeyWhisperMessage, ourNew: nat -> KeyPair)
    | ReceiveWhisper(a: Address, message: WhisperMessage, ourNew: nat -> KeyPair)
    | SendText(a: Address, plaintext: seq<byte>)
    | Offer(a: Address, sequence: nat, base: KeyPair, ratchet: KeyPair)
    | Exchange(a: Address, m: KeyExchangeMessage, newBase: KeyPair, newRatchet: KeyPair, newSending: KeyPair)
    | Restock(a: Address, preKeys: map<nat, KeyPair>, signedPreKeys: map<nat, KeyPair>)

  function Next(st: Stores, op: Op): Stores
  {
    match op
    case TakeBundle(a, b, ourBase, sending) =>
      (match ProcessPreKeyBundle(st, a, b, ourBase, sending)
       case Err(_) => st
       case Ok(after) => after)
    case ReceivePreKey(a, m, ourNew) => AfterPreKeyMessage(st, a, m, ourNew).stores
    case ReceiveWhisper(a, m, ourNew) => AfterMessage(st, a, m, ourNew).1
    case SendText(a, plaintext) => AfterEncrypt(st, a, plaintext).1
    case Offer(a, sequence, base, ratchet) => AfterOffer(st, a, sequence, base, ratchet).1
    case Exchange(a, m, newBase, newRatchet, sending) => AfterKeyExchange(st, a, m, newBase, newRatchet, sending).1
    case Restock(_, preKeys, signedPreKeys) => st.(preKeys := preKeys, signedPreKeys := signedPreKeys)
  }

  function Run(st: Stores, ops: seq<Op>): Stores
    decreases |ops|
  {
    if ops == [] then st else Run(Next(st, ops[0]), ops[1..])
  }

  function IdentityOf(st: Stores, a: Address): Option<PublicKey>
  {
    if a in st.identities then Some(st.identities[a]) else None
  }

  /** A session, if there is one in this state, is with this identity. */
  predicate Owned(s: SessionStructure, identity: Option<PublicKey>)
  {
    s.senderChain.Some? ==> identity == Some(s.remoteIdentity)
  }

  /** All sessions of the address are with the identity that is stored for it. */
  predicate Bound(st: Stores, a: Address)
  {
    && R.Sized(LoadRecord(st, a))
    && All(LoadRecord(st, a), s => Owned(s, IdentityOf(st, a)))
  }

  lemma EmptyIsBound(st: Stores, a: Address)
    requires a !in st.sessions
    ensures Bound(st, a)
  {
    assert States(NEW_RECORD) == [EMPTY_STRUCTURE];
  }

  /** What decryption, or one more identity, leaves of the property. */
  lemma OwnedIsKept(identity: Option<PublicKey>, m: WhisperMessage)
    ensures R.Stable(s => Owned(s, identity)) && R.Keeps(m, s => Owned(s, identity))
  {
    forall s, ourNew | Owned(s, identity) ensures Owned(Decrypt(s, m, ourNew).state, identity) {
      DecryptKeepsOwner(s, m, ourNew);
    }
    hide Decrypt;
  }

  lemma ArriveOwned(op: R.Op, identity: Option<PublicKey>)
    requires R.SessionOf(op).Some? ==> Owned(R.SessionOf(op).value, identity)
    ensures R.Stable(s => Owned(s, identity)) && R.Admits(op, s => Owned(s, identity))
  {
    hide R.SessionOf, Decrypt, Owned;
    match op
    case ReceivePreKey(_, m, _) => OwnedIsKept(identity, m.message);
    case ReceiveWhisper(m, _) => OwnedIsKept(identity, m);
    case _ => OwnedIsStable(identity);
  }

  lemma SameStatesAreBound(r: Record, after: Record, p: SessionStructure -> bool)
    requires All(r, p) && R.Sized(r) && States(after) == States(r)
    ensures All(after, p) && |after.previous| <= ARCHIVED_STATES_MAX_LENGTH
  {
    assert after.previous == States(after)[1..] == States(r)[1..] == r.previous;
  }

  lemma OwnedIsStable(identity: Option<PublicKey>)
    ensures R.Stable(s => Owned(s, identity))
  {
  }

  lemma DecryptKeepsOwner(s: SessionStructure, m: WhisperMessage, ourNew: KeyPair)
    ensures var after := Decrypt(s, m, ourNew).state;
            after.remoteIdentity == s.remoteIdentity && (after.senderChain.Some? ==> s.senderChain.Some?)
  {
  }

  lemma FirstIdentity(r: Record, identity: Option<PublicKey>)
    requires All(r, s => Owned(s, None))
    ensures All(r, s => Owned(s, identity))
  {
  }

  /** The operation on the record of the address, if there is one. */
  function OnRecord(st: Stores, op: Op): Option<R.Op>
  {
    match op
    case TakeBundle(a, b, ourBase, sending) =>
      if CheckBundle(st, a, b).None? then Some(R.Bundle(st, b, ourBase, sending)) else None
    case ReceivePreKey(a, m, ourNew) =>
      if m.preKeyId.None? then Some(R.ReceiveWhisper(m.message, ourNew))
      else if IsTrustedIdentity(st, a, m.identityKey) then Some(R.ReceivePreKey(st, m, ourNew))
      else None
    case ReceiveWhisper(a, m, ourNew) => if a in st.sessions then Some(R.ReceiveWhisper(m, ourNew)) else None
    case SendText(_, plaintext) => Some(R.SendMessage(plaintext))
    case Offer(_, sequence, base, ratchet) =>
      Some(R.OfferExchange(PendingKeyExchange(sequence, base, ratchet, st.identityKeyPair)))
    case Exchange(a, m, newBase, newRatchet, sending) =>
      if AfterKeyExchange(st, a, m, newBase, newRatchet, sending).1 == st then None
      else if HasFlag(m, INITIATE_FLAG) then
        Some(R.CompleteExchange(ExchangeParameters(Offered(st, a, newBase, newRatchet), m), sending))
      else
        (match LoadRecord(st, a).current.pendingKeyExchange
         case None => None
         case Some(ours) => Some(R.CompleteExchange(ExchangeParameters(ours, m), sending)))
    case Restock(_, _, _) => None
  }

  function Offered(st: Stores, a: Address, newBase: KeyPair, newRatchet: KeyPair): PendingKeyExchange
  {
    SessionBuilders.Offer(LoadRecord(st, a), st.identityKeyPair, newBase, newRatchet)
  }

  lemma NextRecordOfPreKey(st: Stores, op: Op)
    requires op.ReceivePreKey? && op.preKey.preKeyId.Some?
    ensures var r, after := LoadRecord(st, op.a), LoadRecord(Next(st, op), op.a);
            && (OnRecord(st, op).None? ==> after == r)
            && (OnRecord(st, op).Some? ==> States(after) == States(R.After(r, OnRecord(st, op).value)))
  {
    hide DecryptRecord, ProcessV3;
    var st', m := st.(identities := st.identities[op.a := op.preKey.identityKey]), op.preKey;
    if IsTrustedIdentity(st, op.a, m.identityKey) && ProcessV3(LoadRecord(st, op.a), st, m).Ok? {
      var (record, unsigned) := ProcessV3(LoadRecord(st, op.a), st, m).value;
      assert Next(st, op) == Finish(st', op.a, record, unsigned, m.message, op.ourNew).stores;
    }
  }

  lemma NextRecordOfExchange(st: Stores, op: Op)
    requires op.Exchange?
    ensures var r, after := LoadRecord(st, op.a), LoadRecord(Next(st, op), op.a);
            && (OnRecord(st, op).None? ==> after == r)
            && (OnRecord(st, op).Some? ==> States(after) == States(R.After(r, OnRecord(st, op).value)))
  {
    hide Initialize, HasFlag, Less;
  }

  /** The record of the address changes as the operation on records does. */
  lemma NextRecord(st: Stores, op: Op)
    ensures var r, after := LoadRecord(st, op.a), LoadRecord(Next(st, op), op.a);
            && (OnRecord(st, op).None? ==> after == r)
            && (OnRecord(st, op).Some? ==> States(after) == States(R.After(r, OnRecord(st, op).value)))
  {
    hide DecryptRecord, ProcessV3, Initialize, InitializeAsAlice, Encrypt, HasFlag;
    match op
    case ReceivePreKey(_, m, _) =>
      if m.preKeyId.Some? {
        NextRecordOfPreKey(st, op);
      }
    case Exchange(_, _, _, _, _) => NextRecordOfExchange(st, op);
    case _ =>
  }

  lemma PreKeyElsewhere(st: Stores, op: Op, a: Address)
    requires a != op.a && op.ReceivePreKey?
    ensures IdentityOf(Next(st, op), a) == IdentityOf(st, a) && LoadRecord(Next(st, op), a) == LoadRecord(st, a)
  {
    hide DecryptRecord, Prepare;
  }

  lemma OtherAddresses(st: Stores, op: Op, a: Address)
    requires a != op.a
    ensures IdentityOf(Next(st, op), a) == IdentityOf(st, a) && LoadRecord(Next(st, op), a) == LoadRecord(st, a)
  {
    hide DecryptRecord, AfterPreKeyMessage, ProcessInitiate, ProcessResponse, BundleRecord, Encrypt, HasFlag;
    if op.ReceivePreKey? {
      PreKeyElsewhere(st, op, a);
    }
  }

  /** The session that an operation starts at its address is with the identity that is stored there afterwards. */
  ghost predicate StartsOwned(st: Stores, op: Op)
  {
    OnRecord(st, op).Some? && R.SessionOf(OnRecord(st, op).value).Some? ==>
      Owned(R.SessionOf(OnRecord(st, op).value).value, IdentityOf(Next(st, op), op.a))
  }

  lemma BundleIdentity(st: Stores, op: Op)
    requires op.TakeBundle?
    ensures op.a in st.identities ==> IdentityOf(Next(st, op), op.a) == IdentityOf(st, op.a)
    ensures StartsOwned(st, op)
  {
    hide AliceSecret;
  }

  lemma PreKeyIdentity(st: Stores, op: Op)
    requires op.ReceivePreKey?
    ensures op.a in st.identities ==> IdentityOf(Next(st, op), op.a) == IdentityOf(st, op.a)
    ensures StartsOwned(st, op)
  {
    hide DecryptRecord, HoldsSession, BobSecret, StartOver;
  }

  lemma ExchangeIdentity(st: Stores, op: Op)
    requires op.Exchange?
    ensures op.a in st.identities ==> IdentityOf(Next(st, op), op.a) == IdentityOf(st, op.a)
    ensures StartsOwned(st, op)
  {
    ExchangesAreSigned(st, op.a, op.m, op.newBase, op.newRatchet, op.newSending);
    hide HasFlag, AliceSecret, BobSecret, Less, AfterKeyExchange;
  }

  /** An identity that is stored stays. */
  lemma NextIdentity(st: Stores, op: Op)
    ensures op.a in st.identities ==> IdentityOf(Next(st, op), op.a) == IdentityOf(st, op.a)
    ensures StartsOwned(st, op)
  {
    hide DecryptRecord, Encrypt, R.SessionOf, ProcessV3;
    match op
    case TakeBundle(_, _, _, _) => BundleIdentity(st, op);
    case ReceivePreKey(_, _, _) => PreKeyIdentity(st, op);
    case Exchange(_, _, _, _, _) => ExchangeIdentity(st, op);
    case _ => NoSessionStarts(st, op);
  }

  lemma NoSessionStarts(st: Stores, op: Op)
    requires !op.TakeBundle? && !op.ReceivePreKey? && !op.Exchange?
    ensures IdentityOf(Next(st, op), op.a) == IdentityOf(st, op.a)
    ensures OnRecord(st, op).Some? ==> R.SessionOf(OnRecord(st, op).value).None?
  {
    hide DecryptRecord, Encrypt;
  }

  lemma OpKeepsBound(st: Stores, op: Op, a: Address)
    requires Bound(st, a)
    ensures Bound(Next(st, op), a)
    ensures a in st.identities ==> IdentityOf(Next(st, op), a) == IdentityOf(st, a)
  {
    hide OnRecord, R.SessionOf, R.After, Next;
    if op.a != a {
      OtherAddresses(st, op, a);
    } else {
      NextIdentity(st, op);
      NextRecord(st, op);
      var r, identity := LoadRecord(st, a), IdentityOf(Next(st, op), a);
      var p := s => Owned(s, identity);
      if IdentityOf(st, a).None? {
        FirstIdentity(r, identity);
      }
      if OnRecord(st, op).Some? {
        var onRecord := OnRecord(st, op).value;
        ArriveOwned(onRecord, identity);
        R.OpKeepsAll(r, onRecord, p);
        R.OpKeepsSize(r, onRecord);
        SameStatesAreBound(R.After(r, onRecord), LoadRecord(Next(st, op), a), p);
      }
    }
  }

  /**
   Once an identity is stored for an address, no run of operations, for this address and others, changes it
   or leaves a session with another identity there.
   */
  lemma {:induction false} IdentityIsPinned(st: Stores, ops: seq<Op>, a: Address)
    requires Bound(st, a)
    ensures var after := Run(st, ops);
            && Bound(after, a)
            && (a in st.identities ==> a in after.identities && after.identities[a] == st.identities[a])
    decreases |ops|
  {
    hide Next, Bound;
    if ops != [] {
      OpKeepsBound(st, ops[0], a);
      IdentityIsPinned(Next(st, ops[0]), ops[1..], a);
    }
  }

  /** The same in plain terms, for stores that began without a record for the address. */
  lemma {:induction false} SessionsAreWithOneIdentity(st: Stores, first: seq<Op>, ops: seq<Op>, a: Address, i: nat)
    requires a !in st.sessions && a in Run(st, first).identities
    requires i < |States(LoadRecord(Run(Run(st, first), ops), a))|
    ensures var s := States(LoadRecord(Run(Run(st, first), ops), a))[i];
            s.senderChain.Some? ==> s.remoteIdentity == Run(st, first).identities[a]
  {
    EmptyIsBound(st, a);
    IdentityIsPinned(st, first, a);
    IdentityIsPinned(Run(st, first), ops, a);
  }
}
