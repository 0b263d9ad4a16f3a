/**
 The key agreement that starts a session (axolotl/ratchet/ratchetingsession.py).
 */
module RatchetingSession {
  import opened Wrappers
  import opened Curve
  import opened Ratchet
  import opened SkippedKeys
  import opened Messages
  import opened SessionStates
  import opened SessionProtocol

  datatype AliceParameters = AliceParameters(
    ourIdentity: KeyPair, ourBase: KeyPair, theirIdentity: PublicKey, theirSignedPreKey: PublicKey,
    theirRatchetKey: PublicKey, theirOneTimePreKey: Option<PublicKey>)

  datatype BobParameters = BobParameters(
    ourIdentity: KeyPair, ourSignedPreKey: KeyPair, ourRatchetKey: KeyPair, ourOneTimePreKey: Option<KeyPair>,
    theirIdentity: PublicKey, theirBase: PublicKey)

  datatype SymmetricParameters = SymmetricParameters(
    ourBase: KeyPair, ourRatchet: KeyPair, ourIdentity: KeyPair,
    theirBase: PublicKey, theirRatchet: PublicKey, theirIdentity: PublicKey)

  function Agree(theirs: PublicKey, ours: KeyPair): Term
  {
    Agreed(CalculateAgreement(theirs, ours))
  }

  function AliceSecret(p: AliceParameters): Term
  {
    Concat([Discontinuity, Agree(p.theirSignedPreKey, p.ourIdentity), Agree(p.theirIdentity, p.ourBase),
            Agree(p.theirSignedPreKey, p.ourBase)]
           + if p.theirOneTimePreKey.Some? then [Agree(p.theirOneTimePreKey.value, p.ourBase)] else [])
  }

  function BobSecret(p: BobParameters): Term
  {
    Concat([Discontinuity, Agree(p.theirIdentity, p.ourSignedPreKey), Agree(p.theirBase, p.ourIdentity),
            Agree(p.theirBase, p.ourSignedPreKey)]
           + if p.ourOneTimePreKey.Some? then [Agree(p.theirBase, p.ourOneTimePreKey.value)] else [])
  }

  function InitializeAsAlice(s: SessionStructure, p: AliceParameters, sendingRatchetKey: KeyPair): SessionStructure
  {
    var derived := CalculateDerivedKeys(AliceSecret(p));
    var sending := CreateChain(derived.rootKey, p.theirRatchetKey, sendingRatchetKey);
    s.(sessionVersion := CURRENT_VERSION, remoteIdentity := p.theirIdentity, localIdentity := p.ourIdentity.publicKey,
       receiverChains := AddChain(s.receiverChains, p.theirRatchetKey, derived.chainKey),
       senderChain := Some(SenderChain(sendingRatchetKey, sending.chainKey)), rootKey := sending.rootKey)
  }

  function InitializeAsBob(s: SessionStructure, p: BobParameters): SessionStructure
  {
    var derived := CalculateDerivedKeys(BobSecret(p));
    s.(sessionVersion := CURRENT_VERSION, remoteIdentity := p.theirIdentity, localIdentity := p.ourIdentity.publicKey,
       senderChain := Some(SenderChain(p.ourRatchetKey, derived.chainKey)), rootKey := derived.rootKey)
  }

  /** The symmetric exchange: the smaller base key plays Alice. */
  predicate IsAlice(p: SymmetricParameters)
    requires |p.ourBase.publicKey.publicKey| == |p.theirBase.publicKey| == 32
  {
    Less(p.ourBase.publicKey, p.theirBase)
  }

  function Initialize(s: SessionStructure, p: SymmetricParameters, sendingRatchetKey: KeyPair): SessionStructure
    requires |p.ourBase.publicKey.publicKey| == |p.theirBase.publicKey| == 32
  {
    if IsAlice(p) then
      InitializeAsAlice(
        s, AliceParameters(p.ourIdentity, p.ourBase, p.theirIdentity, p.theirBase, p.theirRatchet, None),
        sendingRatchetKey)
    else
      InitializeAsBob(s, BobParameters(p.ourIdentity, p.ourBase, p.ourRatchet, None, p.theirIdentity, p.theirBase))
  }

  // ----- what agreement means -----

  /**
   Two new sessions that grew from one master secret: Bob's sender chain is Alice's first receiver
   chain, and Alice's root and sender chain are one ratchet step on from Bob's root.
   */
  ghost predicate Established(alice: SessionStructure, bob: SessionStructure, master: Term)
  {
    && alice.sessionVersion == bob.sessionVersion == CURRENT_VERSION
    && alice.localIdentity == bob.remoteIdentity && alice.remoteIdentity == bob.localIdentity
    && alice.senderChain.Some? && bob.senderChain.Some?
    && var derived := CalculateDerivedKeys(master);
       var a1, b0 := alice.senderChain.value.ratchetKeyPair, bob.senderChain.value.ratchetKeyPair;
       var step := CreateChain(derived.rootKey, b0.publicKey, a1);
       && bob.rootKey == derived.rootKey
       && bob.senderChain == Some(SenderChain(b0, derived.chainKey))
       && bob.receiverChains == []
       && alice.rootKey == step.rootKey
       && alice.senderChain == Some(SenderChain(a1, step.chainKey))
       && alice.receiverChains == [ReceiverChain(b0.publicKey, Chain(derived.chainKey, []))]
  }

  /** Each side's parameters are the other side's, seen from across the wire. */
  predicate Mirrored(a: AliceParameters, b: BobParameters)
  {
    && a.ourIdentity.publicKey == b.theirIdentity && a.theirIdentity == b.ourIdentity.publicKey
    && a.ourBase.publicKey == b.theirBase
    && a.theirSignedPreKey == b.ourSignedPreKey.publicKey
    && a.theirRatchetKey == b.ourRatchetKey.publicKey
    && match (a.theirOneTimePreKey, b.ourOneTimePreKey)
       case (Some(theirs), Some(ours)) => theirs == ours.publicKey
       case (None, None) => true
       case _ => false
  }

  lemma SecretsAgree(a: AliceParameters, b: BobParameters)
    requires Mirrored(a, b)
    ensures AliceSecret(a) == BobSecret(b)
  {
    AgreementCommutes(a.ourIdentity, b.ourSignedPreKey);
    AgreementCommutes(a.ourBase, b.ourIdentity);
    AgreementCommutes(a.ourBase, b.ourSignedPreKey);
    if b.ourOneTimePreKey.Some? {
      AgreementCommutes(a.ourBase, b.ourOneTimePreKey.value);
    }
  }

  /** Key agreement, with or without a one-time prekey. */
  lemma KeyAgreement(a: AliceParameters, b: BobParameters, sendingRatchetKey: KeyPair)
    requires Mirrored(a, b)
    ensures Established(InitializeAsAlice(EMPTY_STRUCTURE, a, sendingRatchetKey), InitializeAsBob(EMPTY_STRUCTURE, b),
                        AliceSecret(a))
  {
    SecretsAgree(a, b);
  }

  /** Bob's first ratchet step on Alice's key reproduces Alice's root key and sender chain. */
  lemma FirstRatchetStepMeets(alice: SessionStructure, bob: SessionStructure, master: Term, bobNew: KeyPair)
    requires Established(alice, bob, master)
    ensures var a1 := alice.senderChain.value.ratchetKeyPair.publicKey;
            var bob' := GetOrCreateChain(bob, a1, bobNew);
            && ChainOf(bob', a1) == Chain(alice.senderChain.value.chainKey, [])
            && bob'.rootKey == CreateChain(alice.rootKey, a1, bobNew).rootKey
            && bob'.senderChain == Some(SenderChain(bobNew, CreateChain(alice.rootKey, a1, bobNew).chainKey))
  {
    var a1, b0 := alice.senderChain.value.ratchetKeyPair, bob.senderChain.value.ratchetKeyPair;
    CreateChainAgrees(bob.rootKey, a1, b0);
    AddedChainIsFound([], a1.publicKey, CreateChain(bob.rootKey, a1.publicKey, b0).chainKey);
  }

  /** When only one side uses a one-time prekey, the two sides have no key in common. */
  lemma OneTimePreKeyMismatch(a: AliceParameters, b: BobParameters)
    requires a.theirOneTimePreKey.Some? != b.ourOneTimePreKey.Some?
    ensures CalculateDerivedKeys(AliceSecret(a)).rootKey != CalculateDerivedKeys(BobSecret(b)).rootKey
    ensures CalculateDerivedKeys(AliceSecret(a)).chainKey != CalculateDerivedKeys(BobSecret(b)).chainKey
  {
    assert |AliceSecret(a).parts| != |BobSecret(b).parts|;
  }

  predicate MirroredSymmetric(p: SymmetricParameters, q: SymmetricParameters)
  {
    && p.ourBase.publicKey == q.theirBase && p.theirBase == q.ourBase.publicKey
    && p.ourRatchet.publicKey == q.theirRatchet && p.theirRatchet == q.ourRatchet.publicKey
    && p.ourIdentity.publicKey == q.theirIdentity && p.theirIdentity == q.ourIdentity.publicKey
  }

  /**
   The symmetric exchange elects exactly one Alice, and ends in matching sessions, if and only if
   the base keys differ; with equal base keys both sides run as Bob and no pair of roles matches.
   */
  lemma SymmetricExchange(p: SymmetricParameters, q: SymmetricParameters, pSending: KeyPair, qSending: KeyPair)
    requires |p.ourBase.publicKey.publicKey| == |p.theirBase.publicKey| == 32
    requires MirroredSymmetric(p, q)
    ensures p.ourBase != q.ourBase <==> IsAlice(p) != IsAlice(q)
    ensures p.ourBase == q.ourBase ==> !IsAlice(p) && !IsAlice(q)
    ensures var s, t := Initialize(EMPTY_STRUCTURE, p, pSending), Initialize(EMPTY_STRUCTURE, q, qSending);
            && (IsAlice(p) ==> exists master :: Established(s, t, master))
            && (IsAlice(q) ==> exists master :: Established(t, s, master))
            && (p.ourBase == q.ourBase ==> forall master :: !Established(s, t, master) && !Established(t, s, master))
  {
    LessIsStrictTotalOrder(p.ourBase.publicKey, p.theirBase, p.ourBase.publicKey);
    if IsAlice(p) {
      SymmetricPair(p, q, pSending, qSending);
    } else if IsAlice(q) {
      SymmetricPair(q, p, qSending, pSending);
    }
  }

  lemma SymmetricPair(p: SymmetricParameters, q: SymmetricParameters, pSending: KeyPair, qSending: KeyPair)
    requires |p.ourBase.publicKey.publicKey| == |p.theirBase.publicKey| == 32
    requires MirroredSymmetric(p, q) && IsAlice(p)
    ensures !IsAlice(q)
    ensures exists master :: Established(Initialize(EMPTY_STRUCTURE, p, pSending),
                                         Initialize(EMPTY_STRUCTURE, q, qSending), master)
  {
    LessIsStrictTotalOrder(p.ourBase.publicKey, p.theirBase, p.ourBase.publicKey);
    var a := AliceParameters(p.ourIdentity, p.ourBase, p.theirIdentity, p.theirBase, p.theirRatchet, None);
    var b := BobParameters(q.ourIdentity, q.ourBase, q.ourRatchet, None, q.theirIdentity, q.theirBase);
    KeyAgreement(a, b, pSending);
    assert Established(Initialize(EMPTY_STRUCTURE, p, pSending), Initialize(EMPTY_STRUCTURE, q, qSending),
                       AliceSecret(a));
  }

  /**
   The smaller base key plays Alice, who alone can receive at once: whose first byte that differs is the
   smaller one, with every fourth byte taken as signed.
   */
  lemma SmallerKeyIsAlice(p: SymmetricParameters, sending: KeyPair, k: nat)
    requires |p.ourBase.publicKey.publicKey| == |p.theirBase.publicKey| == 32 && k < 32
    requires var ours, theirs := p.ourBase.publicKey.publicKey, p.theirBase.publicKey;
             (forall j :: 0 <= j < k ==> ours[j] == theirs[j]) && ours[k] != theirs[k]
    ensures Initialize(EMPTY_STRUCTURE, p, sending).receiverChains != []
            <==> Digit(p.ourBase.publicKey.publicKey, k) < Digit(p.theirBase.publicKey, k)
  {
    FirstDifferenceDecides(p.ourBase.publicKey, p.theirBase, k);
    hide Less, AliceSecret, BobSecret;
  }

  // ----- the initialisers, which update the session in place -----

  method InitializeSessionAsAlice(state: SessionState, p: AliceParameters, sendingRatchetKey: KeyPair)
    modifies state
    ensures state.structure == InitializeAsAlice(old(state.structure), p, sendingRatchetKey)
  {
    state.structure := state.structure.(sessionVersion := CURRENT_VERSION);
    state.structure := state.structure.(remoteIdentity := p.theirIdentity);
    state.structure := state.structure.(localIdentity := p.ourIdentity.publicKey);
    var secrets := [Discontinuity];
    secrets := secrets + [Agree(p.theirSignedPreKey, p.ourIdentity)];
    secrets := secrets + [Agree(p.theirIdentity, p.ourBase)];
    secrets := secrets + [Agree(p.theirSignedPreKey, p.ourBase)];
    if p.theirOneTimePreKey.Some? {
      secrets := secrets + [Agree(p.theirOneTimePreKey.value, p.ourBase)];
    }
    assert Concat(secrets) == AliceSecret(p);
    var derived := CalculateDerivedKeys(Concat(secrets));
    var sending := CreateChain(derived.rootKey, p.theirRatchetKey, sendingRatchetKey);
    state.AddReceiverChain(p.theirRatchetKey, derived.chainKey);
    state.structure := state.structure.(senderChain := Some(SenderChain(sendingRatchetKey, sending.chainKey)));
    state.structure := state.structure.(rootKey := sending.rootKey);
  }

  method InitializeSessionAsBob(state: SessionState, p: BobParameters)
    modifies state
    ensures state.structure == InitializeAsBob(old(state.structure), p)
  {
    state.structure := state.structure.(sessionVersion := CURRENT_VERSION);
    state.structure := state.structure.(remoteIdentity := p.theirIdentity);
    state.structure := state.structure.(localIdentity := p.ourIdentity.publicKey);
    var secrets := [Discontinuity];
    secrets := secrets + [Agree(p.theirIdentity, p.ourSignedPreKey)];
    secrets := secrets + [Agree(p.theirBase, p.ourIdentity)];
    secrets := secrets + [Agree(p.theirBase, p.ourSignedPreKey)];
    if p.ourOneTimePreKey.Some? {
      secrets := secrets + [Agree(p.theirBase, p.ourOneTimePreKey.value)];
    }
    assert Concat(secrets) == BobSecret(p);
    var derived := CalculateDerivedKeys(Concat(secrets));
    state.structure := state.structure.(senderChain := Some(SenderChain(p.ourRatchetKey, derived.chainKey)));
    state.structure := state.structure.(rootKey := derived.rootKey);
  }

  method InitializeSession(state: SessionState, p: SymmetricParameters, sendingRatchetKey: KeyPair)
    requires |p.ourBase.publicKey.publicKey| == |p.theirBase.publicKey| == 32
    modifies state
    ensures state.structure == Initialize(old(state.structure), p, sendingRatchetKey)
  {
    if IsAlice(p) {
      var a := AliceParameters(p.ourIdentity, p.ourBase, p.theirIdentity, p.theirBase, p.theirRatchet, None);
      InitializeSessionAsAlice(state, a, sendingRatchetKey);
    } else {
      var b := BobParameters(p.ourIdentity, p.ourBase, p.ourRatchet, None, p.theirIdentity, p.theirBase);
      InitializeSessionAsBob(state, b);
    }
  }
}
