/**
 What session establishment achieves across the stores of both parties
 (axolotl/sessionbuilder.py, axolotl/sessioncipher.py).
 */
module Establishment {
  import opened Wrappers
  import opened Curve
  import opened Ratchet
  import opened Messages
  import opened SessionStates
  import opened SessionProtocol
  import opened SessionRecords
  import opened AxolotlStores
  import opened RatchetingSession
  import opened SessionBuilders
  import opened SessionCiphers
  import Conversation

  // ----- from a bundle to the first plaintext -----

  /** The bundle advertises keys that the store behind it holds. */
  predicate Publishes(st: Stores, b: PreKeyBundle)
  {
    && b.identityKey == st.identityKeyPair.publicKey
    && b.signedPreKeyId in st.signedPreKeys
    && b.signedPreKey == Some(st.signedPreKeys[b.signedPreKeyId].publicKey)
    && b.signature == CalculateSignature(st.identityKeyPair, b.signedPreKey.value)
    && (b.preKey.Some? ==> b.preKeyId in st.preKeys && b.preKey.value == st.preKeys[b.preKeyId].publicKey)
  }

  /** The two-party machine at the moment both sessions exist. */
  function FreshConversation(alice: SessionStructure, bob: SessionStructure): Conversation.System
    requires alice.senderChain.Some? && bob.senderChain.Some?
  {
    Conversation.System(
      Conversation.Peer(alice, [], map[], 1), Conversation.Peer(bob, [], map[], 0),
      [bob.senderChain.value.ratchetKeyPair.publicKey, alice.senderChain.value.ratchetKeyPair.publicKey])
  }

  /** Two established sessions: the first message is read, and everything in Conversation applies from here. */
  lemma FirstMessageIsRead(alice: SessionStructure, bob: SessionStructure, master: Term, plaintext: seq<byte>,
                           bobNew: KeyPair)
    requires Established(alice, bob, master)
    requires alice.senderChain.value.ratchetKeyPair != bob.senderChain.value.ratchetKeyPair
    ensures Encrypt(alice, plaintext).Ok?
    ensures Decrypt(bob, Inner(Encrypt(alice, plaintext).value.0), bobNew).answer == Ok(plaintext)
  {
    var start := FreshConversation(alice, bob);
    var step := Conversation.Send(Conversation.Alice, plaintext);
    var sys := Conversation.Apply(start, step);
    assert [step][1..] == [];
    assert Conversation.Run(start, [step]) == Conversation.Run(sys, []) == sys;
    assert Conversation.AllowedRun(sys, []);
    Conversation.EveryDeliveryIsExact(start, master, [step], Conversation.Bob, 0, bobNew);
  }

  /** When the two masters differ, the first message is refused. */
  lemma FirstMessageIsRefused(alice: SessionStructure, bob: SessionStructure, a: AliceParameters, b: BobParameters,
                              sending: KeyPair, plaintext: seq<byte>, bobNew: KeyPair)
    requires a.theirOneTimePreKey.Some? != b.ourOneTimePreKey.Some?
    requires alice.sessionVersion == bob.sessionVersion == CURRENT_VERSION && bob.receiverChains == []
    requires alice.senderChain == InitializeAsAlice(EMPTY_STRUCTURE, a, sending).senderChain
    requires bob.rootKey == InitializeAsBob(EMPTY_STRUCTURE, b).rootKey
    requires bob.senderChain == InitializeAsBob(EMPTY_STRUCTURE, b).senderChain
    ensures Decrypt(bob, Inner(Encrypt(alice, plaintext).value.0), bobNew).answer == Err(InvalidMessage)
  {
    var m := Inner(Encrypt(alice, plaintext).value.0);
    OneTimePreKeyMismatch(a, b);
    DecryptOnNewChain(bob, m, bobNew);
    var seed, aliceSeed := NewChain(bob, m.header.ratchetKey).key, alice.senderChain.value.chainKey.key;
    assert m.header.counter == 0 && Advance(seed, 0) == seed && Advance(aliceSeed, 0) == aliceSeed;
    assert seed != aliceSeed;
  }

  /** A prekey message for a bundle, as Bob parses it. */
  function Letter(stA: Stores, b: PreKeyBundle, ourBase: KeyPair, inner: WhisperMessage): PreKeyWhisperMessage
  {
    PreKeyWhisperMessage(CURRENT_VERSION, stA.registrationId, Some(if b.preKey.Some? then b.preKeyId else 0),
                         b.signedPreKeyId, ourBase.publicKey, stA.identityKeyPair.publicKey, inner)
  }

  /** The session that Bob starts for such a message, whatever is inside: id 0 stands for no one-time prekey. */
  function Answering(stA: Stores, stB: Stores, b: PreKeyBundle, ourBase: KeyPair): SessionStructure
    requires Publishes(stB, b)
  {
    var signed := stB.signedPreKeys[b.signedPreKeyId];
    var oneTime := if b.preKey.Some? && b.preKeyId != 0 then Some(stB.preKeys[b.preKeyId]) else None;
    InitializeAsBob(EMPTY_STRUCTURE,
                    BobParameters(stB.identityKeyPair, signed, signed, oneTime, stA.identityKeyPair.publicKey,
                                  ourBase.publicKey)).(
      localRegistrationId := stB.registrationId,
      remoteRegistrationId := stA.registrationId,
      aliceBaseKey := Some(ourBase.publicKey))
  }

  /** The prekey message that Alice's stores produce first for a bundle, as Bob parses it. */
  function FirstPreKeyMessage(stA: Stores, bobAddress: Address, b: PreKeyBundle, ourBase: KeyPair, sending: KeyPair,
                              plaintext: seq<byte>)
    : Option<PreKeyWhisperMessage>
  {
    match ProcessPreKeyBundle(stA, bobAddress, b, ourBase, sending)
    case Err(_) => None
    case Ok(after) =>
      match Encrypt(LoadRecord(after, bobAddress).current, plaintext)
      case Ok((PreKey(m), _)) => Some(Parsed(m))
      case _ => None
  }

  lemma AliceSide(stA: Stores, bobAddress: Address, b: PreKeyBundle, ourBase: KeyPair, sending: KeyPair,
                  plaintext: seq<byte>)
    requires CheckBundle(stA, bobAddress, b).None?
    ensures var alice := AliceSession(stA, EMPTY_STRUCTURE, b, ourBase, sending);
            && Encrypt(alice, plaintext).Ok?
            && var first := Inner(Encrypt(alice, plaintext).value.0);
               && FirstPreKeyMessage(stA, bobAddress, b, ourBase, sending, plaintext)
                    == Some(Letter(stA, b, ourBase, first))
               && MadeUnder(first, AliceSecret(BundleParameters(stA, b, ourBase)))
  {
    var pa := BundleParameters(stA, b, ourBase);
    var derived := CalculateDerivedKeys(AliceSecret(pa));
    var sendingChain := CreateChain(derived.rootKey, pa.theirRatchetKey, sending);
    DerivationsKeepMaster(derived.rootKey, pa.theirRatchetKey, sending, sendingChain.chainKey.key);
  }

  /** Bob prepares a new session for any such message, and archives the one he had. */
  lemma BobSide(stA: Stores, stB: Stores, aliceAddress: Address, b: PreKeyBundle, ourBase: KeyPair,
                inner: WhisperMessage)
    requires Publishes(stB, b)
    requires IsTrustedIdentity(stB, aliceAddress, stA.identityKeyPair.publicKey)
    requires !HoldsSession(LoadRecord(stB, aliceAddress), CURRENT_VERSION, ourBase.publicKey)
    ensures var m := Letter(stA, b, ourBase, inner);
            && Prepare(stB, aliceAddress, m).Ok?
            && var (record, unsigned) := Prepare(stB, aliceAddress, m).value;
               && record.current == Answering(stA, stB, b, ourBase)
               && record.previous == StartOver(LoadRecord(stB, aliceAddress)).previous
               && unsigned == (if m.preKeyId.value != MAX_PREKEY_ID then m.preKeyId else None)
  {
  }

  /** Alice's session for the bundle and the session Bob answers with are a pair, unless the prekey id is 0. */
  lemma BundleEstablishes(stA: Stores, stB: Stores, b: PreKeyBundle, ourBase: KeyPair, sending: KeyPair)
    requires Publishes(stB, b) && (b.preKey.None? || b.preKeyId != 0)
    requires sending.publicKey != b.signedPreKey.value
    ensures var alice := AliceSession(stA, EMPTY_STRUCTURE, b, ourBase, sending);
            var bob := Answering(stA, stB, b, ourBase);
            && Established(alice, bob, AliceSecret(BundleParameters(stA, b, ourBase)))
            && Conversation.Start(FreshConversation(alice, bob), AliceSecret(BundleParameters(stA, b, ourBase)))
  {
    var signed := stB.signedPreKeys[b.signedPreKeyId];
    var oneTime := if b.preKey.Some? then Some(stB.preKeys[b.preKeyId]) else None;
    KeyAgreement(BundleParameters(stA, b, ourBase),
                 BobParameters(stB.identityKeyPair, signed, signed, oneTime, stA.identityKeyPair.publicKey,
                               ourBase.publicKey),
                 sending);
  }

  /** Archived states of other master secrets do not help: they never read the message. */
  lemma NobodyAnswers(r: Record, m: WhisperMessage, ourNew: nat -> KeyPair, master: Term)
    requires Decrypt(r.current, m, ourNew(0)).answer == Err(InvalidMessage) && MadeUnder(m, master)
    requires forall s :: s in r.previous ==> Foreign(s, master)
    ensures DecryptRecord(r, m, ourNew).answer.Err? && DecryptRecord(r, m, ourNew).record == r
    ensures (forall s :: s in r.previous ==> !HasChain(s, m.header.ratchetKey)) ==>
              DecryptRecord(r, m, ourNew).answer == Err(InvalidMessage)
  {
    hide Foreign, MadeUnder, Decrypt;
    forall k | 0 < k < |States(r)|
      ensures !AttemptAt(r, k, m, ourNew).answer.Ok?
      ensures !HasChain(States(r)[k], m.header.ratchetKey) ==>
                AttemptAt(r, k, m, ourNew).answer == Err(InvalidMessage)
    {
      ForeignSessionsRefuse(States(r)[k], m, ourNew(k), master);
    }
    DecryptPreviousStops(r, 0, m, ourNew);
  }

  /**
   From the bundle to the plaintext. Alice processes Bob's bundle and encrypts; Bob, whose record may
   hold other sessions, reads the message, stores the matching session as the current one and removes
   the one-time prekey that was used. The one exception is a one-time prekey with id 0, which Bob
   takes for an absent one: then nothing he stores about sessions and prekeys changes. He could only
   answer otherwise from a session that grew from the very master secret of this bundle.
   */
  lemma BundleToPlaintext(stA: Stores, stB: Stores, bobAddress: Address, aliceAddress: Address, b: PreKeyBundle,
                          ourBase: KeyPair, sending: KeyPair, plaintext: seq<byte>, bobNew: nat -> KeyPair)
    requires Publishes(stB, b)
    requires IsTrustedIdentity(stA, bobAddress, b.identityKey)
    requires IsTrustedIdentity(stB, aliceAddress, stA.identityKeyPair.publicKey)
    requires !HoldsSession(LoadRecord(stB, aliceAddress), CURRENT_VERSION, ourBase.publicKey)
    requires sending.publicKey != b.signedPreKey.value
    ensures var m := FirstPreKeyMessage(stA, bobAddress, b, ourBase, sending, plaintext);
            && m.Some?
            && var effect := AfterPreKeyMessage(stB, aliceAddress, m.value, bobNew);
               var usable := b.preKey.None? || b.preKeyId != 0;
               var before, after := LoadRecord(stB, aliceAddress), LoadRecord(effect.stores, aliceAddress);
               && (usable ==>
                     && effect.answer == Ok(plaintext)
                     && aliceAddress in effect.stores.sessions
                     && after.current == Receive(Answering(stA, stB, b, ourBase), m.value.message, bobNew(0))
                     && after.previous == StartOver(before).previous
                     && (b.preKey.Some? ==> (b.preKeyId !in effect.stores.preKeys <==> b.preKeyId != MAX_PREKEY_ID)))
               && (ForeignRecord(before, AliceSecret(BundleParameters(stA, b, ourBase))) ==>
                     && (effect.answer == Ok(plaintext) <==> usable)
                     && (!usable ==>
                           && effect.answer.Err?
                           && effect.stores.sessions == stB.sessions && effect.stores.preKeys == stB.preKeys
                           && ((forall s :: s in States(before) ==> !HasChain(s, sending.publicKey)) ==>
                                 effect.answer == Err(InvalidMessage))))
  {
    hide InitializeAsAlice, InitializeAsBob, AliceSecret, Decrypt, Established;
    var alice, bob := AliceSession(stA, EMPTY_STRUCTURE, b, ourBase, sending), Answering(stA, stB, b, ourBase);
    AliceSide(stA, bobAddress, b, ourBase, sending, plaintext);
    var first := Inner(Encrypt(alice, plaintext).value.0);
    BobSide(stA, stB, aliceAddress, b, ourBase, first);
    var m := FirstPreKeyMessage(stA, bobAddress, b, ourBase, sending, plaintext).value;
    var record := Prepare(stB, aliceAddress, m).value.0;
    if b.preKey.None? || b.preKeyId != 0 {
      BundleEstablishes(stA, stB, b, ourBase, sending);
      FirstMessageIsRead(alice, bob, AliceSecret(BundleParameters(stA, b, ourBase)), plaintext, bobNew(0));
    } else {
      PreKeyZeroIsRefused(stA, stB, b, ourBase, sending, plaintext, bobNew(0));
      if ForeignRecord(LoadRecord(stB, aliceAddress), AliceSecret(BundleParameters(stA, b, ourBase))) {
        StartOverIsForeign(LoadRecord(stB, aliceAddress), AliceSecret(BundleParameters(stA, b, ourBase)));
        NobodyAnswers(record, first, bobNew, AliceSecret(BundleParameters(stA, b, ourBase)));
      }
    }
  }

  lemma StartOverIsForeign(r: Record, master: Term)
    requires ForeignRecord(r, master)
    ensures forall s :: s in StartOver(r).previous ==> s in States(r) && Foreign(s, master)
  {
    forall s | s in StartOver(r).previous ensures s in States(r) && Foreign(s, master) {
      assert s in States(r);
    }
  }

  lemma PreKeyZeroIsRefused(stA: Stores, stB: Stores, b: PreKeyBundle, ourBase: KeyPair, sending: KeyPair,
                            plaintext: seq<byte>, bobNew: KeyPair)
    requires Publishes(stB, b) && b.preKey.Some? && b.preKeyId == 0
    ensures var alice := AliceSession(stA, EMPTY_STRUCTURE, b, ourBase, sending);
            && Encrypt(alice, plaintext).Ok?
            && Inner(Encrypt(alice, plaintext).value.0).header.ratchetKey == sending.publicKey
            && Decrypt(Answering(stA, stB, b, ourBase), Inner(Encrypt(alice, plaintext).value.0), bobNew).answer
                 == Err(InvalidMessage)
  {
    var signed := stB.signedPreKeys[b.signedPreKeyId];
    FirstMessageIsRefused(AliceSession(stA, EMPTY_STRUCTURE, b, ourBase, sending), Answering(stA, stB, b, ourBase),
                          BundleParameters(stA, b, ourBase),
                          BobParameters(stB.identityKeyPair, signed, signed, None, stA.identityKeyPair.publicKey,
                                        ourBase.publicKey),
                          sending, plaintext, bobNew);
  }

  /**
   From the bundle to any conversation. Alice's session for a bundle and the session that Bob prepares,
   whichever of her prekey messages reaches him first, start a conversation, so whatever the two then
   send, lose, reorder and duplicate, each delivery is answered as history demands.
   */
  lemma {:induction false} BundleToConversation(stA: Stores, stB: Stores, aliceAddress: Address, b: PreKeyBundle,
                                                ourBase: KeyPair, sending: KeyPair, inner: WhisperMessage,
                                                steps: seq<Conversation.Step>, who: Conversation.Role, i: nat,
                                                ourNew: KeyPair)
    requires Publishes(stB, b) && (b.preKey.None? || b.preKeyId != 0)
    requires IsTrustedIdentity(stB, aliceAddress, stA.identityKeyPair.publicKey)
    requires !HoldsSession(LoadRecord(stB, aliceAddress), CURRENT_VERSION, ourBase.publicKey)
    requires sending.publicKey != b.signedPreKey.value
    ensures Prepare(stB, aliceAddress, Letter(stA, b, ourBase, inner)).Ok?
    ensures var alice := AliceSession(stA, EMPTY_STRUCTURE, b, ourBase, sending);
            var bob := Prepare(stB, aliceAddress, Letter(stA, b, ourBase, inner)).value.0.current;
            && alice.senderChain.Some? && bob.senderChain.Some?
            && Conversation.Start(FreshConversation(alice, bob), AliceSecret(BundleParameters(stA, b, ourBase)))
            && var start := FreshConversation(alice, bob);
               var sys := Conversation.Run(start, steps);
               var p, q := Conversation.At(sys, who), Conversation.At(sys, Conversation.Other(who));
               (Conversation.AllowedRun(start, steps) && i < |q.sent| ==>
                  Decrypt(p.session, q.sent[i].message, ourNew).answer == Conversation.Verdict(p, q.sent[i]))
  {
    BobSide(stA, stB, aliceAddress, b, ourBase, inner);
    BundleEstablishes(stA, stB, b, ourBase, sending);
    hide InitializeAsAlice, InitializeAsBob, AliceSecret, Decrypt;
    var start := FreshConversation(AliceSession(stA, EMPTY_STRUCTURE, b, ourBase, sending),
                                   Answering(stA, stB, b, ourBase));
    var q := Conversation.At(Conversation.Run(start, steps), Conversation.Other(who));
    if Conversation.AllowedRun(start, steps) && i < |q.sent| {
      Conversation.EveryDeliveryIsExact(start, AliceSecret(BundleParameters(stA, b, ourBase)), steps, who, i, ourNew);
    }
  }

  // ----- the symmetric key exchange, end to end -----

  /** Either peer may turn out to be Alice; the sessions match in the roles that were elected. */
  ghost predicate Meet(s: SessionStructure, t: SessionStructure)
  {
    exists master :: Established(s, t, master) || Established(t, s, master)
  }

  lemma ExchangeOutcome(p: SymmetricParameters, q: SymmetricParameters, pSending: KeyPair, qSending: KeyPair)
    requires BaseKeysComparable(p.ourBase, p.theirBase) && MirroredSymmetric(p, q)
    ensures var s, t := Initialize(EMPTY_STRUCTURE, p, pSending), Initialize(EMPTY_STRUCTURE, q, qSending);
            Meet(s, t) <==> p.ourBase != q.ourBase
  {
    SymmetricExchange(p, q, pSending, qSending);
  }

  /**
   An exchange that one side starts and the other answers ends in matching sessions if and only if
   the two base keys differ.
   */
  lemma ExchangeMeets(rA: Record, rB: Record, sequence: nat, a: PendingKeyExchange, idB: KeyPair, baseB: KeyPair,
                      ratchetB: KeyPair,
                      sendA: KeyPair, sendB: KeyPair)
    requires rB.current.pendingKeyExchange.None? && (rB.isFresh ==> rB == NEW_RECORD)
    requires BaseKeysComparable(a.baseKey, baseB.publicKey)
    ensures var (pendingA, m1) := InitiateExchange(rA, sequence, a.baseKey, a.ratchetKey, a.identityKey);
            var answer := ProcessInitiate(rB, m1, idB, baseB, ratchetB, sendB);
            && answer.Ok?
            && var finish := ProcessResponse(pendingA.(isFresh := false), answer.value.1, sendA);
               && finish.Ok? && finish.value.Some?
               && (Meet(finish.value.value.current, answer.value.0.current) <==> a.baseKey != baseB)
  {
    var (pendingA, m1) := InitiateExchange(rA, sequence, a.baseKey, a.ratchetKey, a.identityKey);
    var m2 := ProcessInitiate(rB, m1, idB, baseB, ratchetB, sendB).value.1;
    ExchangeOutcome(ExchangeParameters(pendingA.current.pendingKeyExchange.value, m2),
                    ExchangeParameters(PendingKeyExchange(0, baseB, ratchetB, idB), m1), sendA, sendB);
  }

  /** When both sides start at once, each answers with the keys it offered, and the two late responses are dropped. */
  lemma SimultaneousExchangeMeets(rA: Record, rB: Record, sequenceA: nat, sequenceB: nat, a: PendingKeyExchange,
                                  b: PendingKeyExchange,
                                  idA: KeyPair, idB: KeyPair, other: KeyPair, sendA: KeyPair, sendB: KeyPair)
    requires BaseKeysComparable(a.baseKey, b.baseKey.publicKey)
    ensures var (pendingA, fromA) := InitiateExchange(rA, sequenceA, a.baseKey, a.ratchetKey, a.identityKey);
            var (pendingB, fromB) := InitiateExchange(rB, sequenceB, b.baseKey, b.ratchetKey, b.identityKey);
            var atA := ProcessInitiate(pendingA.(isFresh := false), fromB, idA, other, other, sendA);
            var atB := ProcessInitiate(pendingB.(isFresh := false), fromA, idB, other, other, sendB);
            && atA.Ok? && atB.Ok?
            && (Meet(atA.value.0.current, atB.value.0.current) <==> a.baseKey != b.baseKey)
            && ProcessResponse(atA.value.0, atB.value.1, sendA) == Ok(None)
            && ProcessResponse(atB.value.0, atA.value.1, sendB) == Ok(None)
  {
    hide Established, AliceSecret, BobSecret, CreateChain, CalculateDerivedKeys;
    var (pendingA, fromA) := InitiateExchange(rA, sequenceA, a.baseKey, a.ratchetKey, a.identityKey);
    var (pendingB, fromB) := InitiateExchange(rB, sequenceB, b.baseKey, b.ratchetKey, b.identityKey);
    ExchangeOutcome(ExchangeParameters(pendingA.current.pendingKeyExchange.value, fromB),
                    ExchangeParameters(pendingB.current.pendingKeyExchange.value, fromA), sendA, sendB);
  }

  /**
   The same through both stores, the trust check and the flags: the offer is taken for an offer and answered,
   the answer is taken for an answer and sends nothing back, both stores hold the other's identity, and the
   stored sessions match if and only if the base keys differ.
   */
  lemma ExchangeAcrossStores(stA: Stores, stB: Stores, ofBob: Address, ofAlice: Address, sequence: nat,
                             baseA: KeyPair, ratchetA: KeyPair, baseB: KeyPair, ratchetB: KeyPair, other: KeyPair,
                             sendA: KeyPair, sendB: KeyPair)
    requires LoadRecord(stB, ofAlice).current.pendingKeyExchange.None?
    requires IsTrustedIdentity(stA, ofBob, stB.identityKeyPair.publicKey)
    requires IsTrustedIdentity(stB, ofAlice, stA.identityKeyPair.publicKey)
    requires BaseKeysComparable(baseA, baseB.publicKey)
    ensures var (offer, offering) := AfterOffer(stA, ofBob, sequence, baseA, ratchetA);
            var (answer, answered) := AfterKeyExchange(stB, ofAlice, offer, baseB, ratchetB, sendB);
            && answer.Ok? && answer.value.Some?
            && var (nothing, finished) := AfterKeyExchange(offering, ofBob, answer.value.value, other, other, sendA);
               && nothing == Ok(None)
               && answered.identities == stB.identities[ofAlice := stA.identityKeyPair.publicKey]
               && finished.identities == stA.identities[ofBob := stB.identityKeyPair.publicKey]
               && ofAlice in answered.sessions && ofBob in finished.sessions
               && (Meet(LoadRecord(finished, ofBob).current, LoadRecord(answered, ofAlice).current)
                   <==> baseA != baseB)
  {
    hide Meet, Initialize;
    var a := PendingKeyExchange(sequence, baseA, ratchetA, stA.identityKeyPair);
    ExchangeMeets(LoadRecord(stA, ofBob), LoadRecord(stB, ofAlice), sequence, a, stB.identityKeyPair, baseB, ratchetB,
                  sendA, sendB);
  }

  /** And through both stores when both sides start at once: the two late answers are dropped and change nothing. */
  lemma SimultaneousAcrossStores(stA: Stores, stB: Stores, ofBob: Address, ofAlice: Address, sequenceA: nat,
                                 sequenceB: nat, baseA: KeyPair, ratchetA: KeyPair, baseB: KeyPair, ratchetB: KeyPair,
                                 other: KeyPair, sendA: KeyPair, sendB: KeyPair)
    requires IsTrustedIdentity(stA, ofBob, stB.identityKeyPair.publicKey)
    requires IsTrustedIdentity(stB, ofAlice, stA.identityKeyPair.publicKey)
    requires BaseKeysComparable(baseA, baseB.publicKey)
    ensures var (fromA, offeringA) := AfterOffer(stA, ofBob, sequenceA, baseA, ratchetA);
            var (fromB, offeringB) := AfterOffer(stB, ofAlice, sequenceB, baseB, ratchetB);
            var (toB, atA) := AfterKeyExchange(offeringA, ofBob, fromB, other, other, sendA);
            var (toA, atB) := AfterKeyExchange(offeringB, ofAlice, fromA, other, other, sendB);
            && toA.Ok? && toA.value.Some? && toB.Ok? && toB.value.Some?
            && (Meet(LoadRecord(atA, ofBob).current, LoadRecord(atB, ofAlice).current) <==> baseA != baseB)
            && AfterKeyExchange(atA, ofBob, toA.value.value, other, other, sendA) == (Ok(None), atA)
            && AfterKeyExchange(atB, ofAlice, toB.value.value, other, other, sendB) == (Ok(None), atB)
  {
    hide Meet, Initialize;
    var a := PendingKeyExchange(sequenceA, baseA, ratchetA, stA.identityKeyPair);
    var b := PendingKeyExchange(sequenceB, baseB, ratchetB, stB.identityKeyPair);
    SimultaneousExchangeMeets(LoadRecord(stA, ofBob), LoadRecord(stB, ofAlice), sequenceA, sequenceB, a, b,
                              stA.identityKeyPair, stB.identityKeyPair, other, sendA, sendB);
  }
}
