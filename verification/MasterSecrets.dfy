/**
 Who can compute the keys that a session starts from (axolotl/ratchet/ratchetingsession.py): the answer in
 terms of private keys, whatever the master secret is made of.
 */
module MasterSecrets {
  import opened Curve
  import opened Ratchet
  import opened SessionStates
  import opened RatchetingSession

  /**
   What the holder of these private keys can compute; all public keys are known. An agreement takes the
   private key of one of its ends, everything else takes all of its parts.
   */
  predicate Computes(keys: set<PublicKey>, t: Term)
  {
    match t
    case Empty => true
    case Discontinuity => true
    case Agreed(secret) => keys * secret.ends != {}
    case Concat(parts) => forall i :: 0 <= i < |parts| ==> Computes(keys, parts[i])
    case Hkdf(salt, input, _, _) => Computes(keys, salt) && Computes(keys, input)
    case Hmac(key, _) => Computes(keys, key)
    case Random(_) => false
  }

  /** A Diffie-Hellman agreement between these two takes one of the two private keys. */
  predicate Reaches(keys: set<PublicKey>, a: PublicKey, b: PublicKey)
  {
    a in keys || b in keys
  }

  lemma {:induction false} AgreementTakesOneEnd(keys: set<PublicKey>, theirs: PublicKey, ours: KeyPair)
    ensures Computes(keys, Agree(theirs, ours)) <==> Reaches(keys, theirs, ours.publicKey)
  {
    var ends := Agree(theirs, ours).secret.ends;
    if theirs in keys {
      assert theirs in keys * ends;
    } else if ours.publicKey in keys {
      assert ours.publicKey in keys * ends;
    } else {
      assert keys * ends == {};
    }
  }

  /** Exactly which private keys give away the master secret of Alice's side. */
  predicate AliceIsComputed(p: AliceParameters, keys: set<PublicKey>)
  {
    && Reaches(keys, p.theirSignedPreKey, p.ourIdentity.publicKey)
    && Reaches(keys, p.theirIdentity, p.ourBase.publicKey)
    && Reaches(keys, p.theirSignedPreKey, p.ourBase.publicKey)
    && (p.theirOneTimePreKey.Some? ==> Reaches(keys, p.theirOneTimePreKey.value, p.ourBase.publicKey))
  }

  lemma {:induction false} AliceSecretTakes(p: AliceParameters, keys: set<PublicKey>)
    ensures Computes(keys, AliceSecret(p)) <==> AliceIsComputed(p, keys)
  {
    var parts := AliceSecret(p).parts;
    AgreementTakesOneEnd(keys, p.theirSignedPreKey, p.ourIdentity);
    AgreementTakesOneEnd(keys, p.theirIdentity, p.ourBase);
    AgreementTakesOneEnd(keys, p.theirSignedPreKey, p.ourBase);
    assert Computes(keys, parts[0]);
    assert Computes(keys, parts[1]) <==> Reaches(keys, p.theirSignedPreKey, p.ourIdentity.publicKey);
    assert Computes(keys, parts[2]) <==> Reaches(keys, p.theirIdentity, p.ourBase.publicKey);
    assert Computes(keys, parts[3]) <==> Reaches(keys, p.theirSignedPreKey, p.ourBase.publicKey);
    if p.theirOneTimePreKey.Some? {
      AgreementTakesOneEnd(keys, p.theirOneTimePreKey.value, p.ourBase);
      assert Computes(keys, parts[4]) <==> Reaches(keys, p.theirOneTimePreKey.value, p.ourBase.publicKey);
    }
  }

  /** The two sides of mirrored parameters compute one secret, so the same keys give it away on Bob's side. */
  lemma {:induction false} BobSecretTakes(a: AliceParameters, b: BobParameters, keys: set<PublicKey>)
    requires Mirrored(a, b)
    ensures Computes(keys, BobSecret(b)) <==> AliceIsComputed(a, keys)
  {
    SecretsAgree(a, b);
    AliceSecretTakes(a, keys);
  }

  /** The last chain of a state; an initialiser appends one. */
  function LastChain(s: SessionStructure): ReceiverChain
    requires s.receiverChains != []
  {
    s.receiverChains[|s.receiverChains| - 1]
  }

  /**
   Who can compute the keys of a new session, for mirrored parameters and whatever the two states were
   before: exactly the private keys of `AliceIsComputed` give away the root key and the sender chain that
   Bob's initialiser leaves and the receiver chain that Alice's adds. Alice's root key and sender chain, one
   ratchet step on, take one of the two ratchet keys as well.
   */
  lemma {:induction false} WhoComputesTheKeys(s: SessionStructure, t: SessionStructure, a: AliceParameters,
                                              b: BobParameters, sending: KeyPair, keys: set<PublicKey>)
    requires Mirrored(a, b)
    ensures var alice, bob := InitializeAsAlice(s, a, sending), InitializeAsBob(t, b);
            var stepped := AliceIsComputed(a, keys) && Reaches(keys, a.theirRatchetKey, sending.publicKey);
            && alice.receiverChains != [] && alice.senderChain.Some? && bob.senderChain.Some?
            && (Computes(keys, bob.rootKey) <==> AliceIsComputed(a, keys))
            && (Computes(keys, bob.senderChain.value.chainKey.key) <==> AliceIsComputed(a, keys))
            && (Computes(keys, LastChain(alice).chain.chainKey.key) <==> AliceIsComputed(a, keys))
            && (Computes(keys, alice.rootKey) <==> stepped)
            && (Computes(keys, alice.senderChain.value.chainKey.key) <==> stepped)
  {
    AliceSecretTakes(a, keys);
    BobSecretTakes(a, b, keys);
    AgreementTakesOneEnd(keys, a.theirRatchetKey, sending);
    hide AliceSecret, BobSecret, AliceIsComputed, Agree;
  }

  /** The keys that two new sessions start from. */
  function FirstKeys(alice: SessionStructure, bob: SessionStructure): set<Term>
    requires alice.receiverChains != [] && alice.senderChain.Some? && bob.senderChain.Some?
  {
    {bob.rootKey, bob.senderChain.value.chainKey.key, alice.rootKey, LastChain(alice).chain.chainKey.key,
     alice.senderChain.value.chainKey.key}
  }

  /** What the condition comes to for the keys of the two sides. */
  lemma WhoseKeysSuffice(a: AliceParameters, b: BobParameters, keys: set<PublicKey>)
    requires Mirrored(a, b)
    ensures var base, signed, oneTime := a.ourBase.publicKey, b.ourSignedPreKey.publicKey, b.ourOneTimePreKey;
            && (base !in keys && signed !in keys ==> !AliceIsComputed(a, keys))
            && (base !in keys && oneTime.Some? && oneTime.value.publicKey !in keys ==> !AliceIsComputed(a, keys))
            && ({a.ourIdentity.publicKey, base} <= keys ==> AliceIsComputed(a, keys))
            && ({b.ourIdentity.publicKey, signed} <= keys && (oneTime.Some? ==> oneTime.value.publicKey in keys) ==>
                  AliceIsComputed(a, keys))
  {
  }

  lemma {:induction false} AllOrNone(s: SessionStructure, t: SessionStructure, a: AliceParameters, b: BobParameters,
                                     sending: KeyPair, keys: set<PublicKey>)
    requires Mirrored(a, b)
    ensures InitializeAsAlice(s, a, sending).receiverChains != []
    ensures var terms := FirstKeys(InitializeAsAlice(s, a, sending), InitializeAsBob(t, b));
            && (!AliceIsComputed(a, keys) ==> forall u :: u in terms ==> !Computes(keys, u))
            && (AliceIsComputed(a, keys) && Reaches(keys, a.theirRatchetKey, sending.publicKey) ==>
                  forall u :: u in terms ==> Computes(keys, u))
  {
    WhoComputesTheKeys(s, t, a, b, sending, keys);
    hide Computes, AliceIsComputed, Reaches, InitializeAsAlice, InitializeAsBob, Mirrored;
  }

  /**
   What the agreements are for. Without the base key and the signed prekey nobody computes any key of the
   session, whatever else they hold, both identity keys included. With a one-time prekey the identity keys
   and the signed prekey do not suffice either: it takes the base key or the one-time prekey. And each side
   computes all of the keys from its own private keys.
   */
  lemma {:induction false} IdentityKeysDoNotSuffice(s: SessionStructure, t: SessionStructure, a: AliceParameters,
                                                    b: BobParameters, sending: KeyPair, keys: set<PublicKey>)
    requires Mirrored(a, b)
    ensures InitializeAsAlice(s, a, sending).receiverChains != []
    ensures var terms := FirstKeys(InitializeAsAlice(s, a, sending), InitializeAsBob(t, b));
            var base, signed, oneTime := a.ourBase.publicKey, b.ourSignedPreKey.publicKey, b.ourOneTimePreKey;
            var aliceOwns := {a.ourIdentity.publicKey, base, sending.publicKey};
            var bobOwns := {b.ourIdentity.publicKey, signed, b.ourRatchetKey.publicKey}
                           + if oneTime.Some? then {oneTime.value.publicKey} else {};
            && (base !in keys && signed !in keys ==> forall u :: u in terms ==> !Computes(keys, u))
            && (base !in keys && oneTime.Some? && oneTime.value.publicKey !in keys ==>
                  forall u :: u in terms ==> !Computes(keys, u))
            && (aliceOwns <= keys || bobOwns <= keys ==> forall u :: u in terms ==> Computes(keys, u))
  {
    WhoseKeysSuffice(a, b, keys);
    AllOrNone(s, t, a, b, sending, keys);
    hide Computes, AliceIsComputed, InitializeAsAlice, InitializeAsBob, FirstKeys;
  }
}
