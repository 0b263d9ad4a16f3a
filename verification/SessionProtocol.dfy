/**
 Encryption and decryption on one session, as functions of the stored structure
 (axolotl/sessioncipher.py). SessionCiphers proves that the methods compute them.
 */
module SessionProtocol {
  import opened Wrappers
  import opened Curve
  import opened Ratchet
  import opened SkippedKeys
  import opened Messages
  import opened SessionStates

  /** How far a message may lie ahead of its chain. */
  const MAX_AHEAD := 2000

  // ----- sending -----

  function Encrypt(s: SessionStructure, plaintext: seq<byte>): Result<(CiphertextMessage, SessionStructure), Failure>
  {
    if s.senderChain.None? then Err(Uncaught)
    else
      var SenderChain(ours, chainKey) := s.senderChain.value;
      var m := NewWhisperMessage(Version(s), DeriveMessageKeys(chainKey.key), ours.publicKey, chainKey.index,
                                 s.previousCounter, plaintext, s.localIdentity, s.remoteIdentity);
      var sent := match s.pendingPreKey
                  case None => Whisper(m)
                  case Some(p) => PreKey(PreKeyWhisperMessage(Version(s), s.localRegistrationId, p.preKeyId,
                                                              p.signedPreKeyId,
                                                             p.baseKey, s.localIdentity, m));
      Ok((sent, s.(senderChain := Some(SenderChain(ours, NextChainKey(chainKey))))))
  }

  function Inner(m: CiphertextMessage): WhisperMessage
  {
    match m
    case Whisper(w) => w
    case PreKey(p) => p.message
  }

  // ----- receiving -----

  function Max(a: int, b: int): int
  {
    if a < b then b else a
  }

  /** Two ratchet steps unless the sender's ratchet key is known: one to receive, one to answer. */
  function GetOrCreateChain(s: SessionStructure, theirs: PublicKey, ourNew: KeyPair): (r: SessionStructure)
    requires s.senderChain.Some?
    ensures r.senderChain.Some? && HasChain(r, theirs)
  {
    if HasChain(s, theirs) then s
    else
      var receiver := CreateChain(s.rootKey, theirs, s.senderChain.value.ratchetKeyPair);
      var sender := CreateChain(receiver.rootKey, theirs, ourNew);
      AddedChainIsFound(s.receiverChains, theirs, receiver.chainKey);
      s.(rootKey := sender.rootKey,
         receiverChains := AddChain(s.receiverChains, theirs, receiver.chainKey),
         previousCounter := Max(s.senderChain.value.chainKey.index - 1, 0),
         senderChain := Some(SenderChain(ourNew, sender.chainKey)))
  }

  /** The answer to one attempt, and the state it leaves behind, even when it fails. */
  datatype Attempt = Attempt(answer: Result<seq<byte>, Failure>, state: SessionStructure)

  function Decrypt(s: SessionStructure, m: WhisperMessage, ourNew: KeyPair): Attempt
  {
    var h := m.header;
    if s.senderChain.None? || h.version != Version(s) then Attempt(Err(InvalidMessage), s)
    else
      var s1 := GetOrCreateChain(s, h.ratchetKey, ourNew);
      match Take(ChainOf(s1, h.ratchetKey), h.counter, Some(MAX_AHEAD), DeriveMessageKeys)
      case AlreadyTaken => Attempt(Err(DuplicateMessage), s1)
      case TooFarAhead => Attempt(Err(InvalidMessage), s1)
      case Taken(keys, chain) =>
        var s2 := WithChain(s1, h.ratchetKey, chain);
        if !VerifyMac(m, s2.remoteIdentity, s2.localIdentity, keys.macKey) then Attempt(Err(InvalidMessage), s2)
        else match GetPlaintext(h.body, keys)
             case None => Attempt(Err(Uncaught), s2)
             case Some(plaintext) => Attempt(Ok(plaintext), s2.(pendingPreKey := None))
  }

  /** The state a caller keeps: failed attempts work on a copy that is dropped. */
  function Receive(s: SessionStructure, m: WhisperMessage, ourNew: KeyPair): SessionStructure
  {
    if Decrypt(s, m, ourNew).answer.Ok? then Decrypt(s, m, ourNew).state else s
  }

  /** The three keys of one message are slices of one HKDF output. */
  predicate Consistent(keys: MessageKeys)
  {
    && keys.macKey.Hkdf?
    && keys.cipherKey == keys.macKey.(slice := 0)
    && keys.iv == keys.macKey.(slice := 2)
  }

  /** Whoever computed the MAC also encrypted the body, with keys of one message. */
  predicate WellMade(m: WhisperMessage)
  {
    && m.mac.Mac? && m.header.body.Encrypted?
    && Consistent(MessageKeys(m.header.body.cipherKey, m.mac.macKey, m.header.body.iv))
  }

  predicate SoundChain(c: Chain<MessageKeys>)
  {
    Tidy(c) && forall k :: 0 <= k < |c.stored| ==> Consistent(c.stored[k].keys)
  }

  /** Every chain is tidy, and every message key it stores is one the ratchet derived. */
  predicate Sound(s: SessionStructure)
  {
    forall i :: 0 <= i < |s.receiverChains| ==> SoundChain(s.receiverChains[i].chain)
  }

  lemma {:induction false} SkipToIsSound(c: Chain<MessageKeys>, index: nat)
    requires SoundChain(c)
    ensures SoundChain(SkipTo(c, index, DeriveMessageKeys))
    decreases index - c.chainKey.index
  {
    if c.chainKey.index < index {
      SkipToIsSound(Chain(NextChainKey(c.chainKey),
                          c.stored + [Stored(c.chainKey.index, DeriveMessageKeys(c.chainKey.key))]), index);
    }
  }

  lemma TakeIsSound(c: Chain<MessageKeys>, index: nat, limit: Option<nat>)
    requires SoundChain(c)
    ensures var r := Take(c, index, limit, DeriveMessageKeys);
            r.Taken? ==> Consistent(r.keys) && SoundChain(r.chain)
  {
    SkipToIsSound(c, index);
    if Take(c, index, limit, DeriveMessageKeys).Taken? {
      TakeIsTidy(c, index, limit, DeriveMessageKeys);
    }
  }

  lemma RatchetStepIsSound(s: SessionStructure, theirs: PublicKey, ourNew: KeyPair)
    requires Sound(s) && s.senderChain.Some?
    ensures Sound(GetOrCreateChain(s, theirs, ourNew))
  {
  }

  lemma ReplacedChainIsSound(s: SessionStructure, key: PublicKey, chain: Chain<MessageKeys>)
    requires Sound(s) && HasChain(s, key) && SoundChain(chain)
    ensures Sound(WithChain(s, key, chain)) && Sound(WithChain(s, key, chain).(pendingPreKey := None))
  {
  }

  /** Decryption keeps a state sound, whatever arrives and whether or not it succeeds. */
  lemma DecryptIsSound(s: SessionStructure, m: WhisperMessage, ourNew: KeyPair)
    requires Sound(s)
    ensures Sound(Decrypt(s, m, ourNew).state)
  {
    var h := m.header;
    if s.senderChain.Some? && h.version == Version(s) {
      var s1 := GetOrCreateChain(s, h.ratchetKey, ourNew);
      RatchetStepIsSound(s, h.ratchetKey, ourNew);
      var c := ChainOf(s1, h.ratchetKey);
      var taken := Take(c, h.counter, Some(MAX_AHEAD), DeriveMessageKeys);
      TakeIsSound(c, h.counter, Some(MAX_AHEAD));
      hide Take, GetOrCreateChain, WithChain, SoundChain, Sound;
      if taken.Taken? {
        ReplacedChainIsSound(s1, h.ratchetKey, taken.chain);
      }
    }
  }

  /** The guard in front of DuplicateMessageException, read off the state before the call. */
  predicate Blocks(s: SessionStructure, m: WhisperMessage)
  {
    && s.senderChain.Some? && m.header.version == Version(s)
    && HasChain(s, m.header.ratchetKey)
    && var c := ChainOf(s, m.header.ratchetKey);
       m.header.counter < c.chainKey.index && Find(c.stored, m.header.counter).None?
  }

  /** A state answers Duplicate exactly when the guard holds; a well-made message never breaks decryption. */
  lemma DecryptFailures(s: SessionStructure, m: WhisperMessage, ourNew: KeyPair)
    requires Sound(s)
    ensures Decrypt(s, m, ourNew).answer == Err(DuplicateMessage) <==> Blocks(s, m)
    ensures var answer := Decrypt(s, m, ourNew).answer;
            WellMade(m) ==> answer.Ok? || answer.error in {InvalidMessage, DuplicateMessage}
  {
    var h := m.header;
    if s.senderChain.Some? && h.version == Version(s) {
      var s1 := GetOrCreateChain(s, h.ratchetKey, ourNew);
      if !HasChain(s, h.ratchetKey) {
        AddedChainIsFound(s.receiverChains, h.ratchetKey,
                          CreateChain(s.rootKey, h.ratchetKey, s.senderChain.value.ratchetKeyPair).chainKey);
        assert ChainOf(s1, h.ratchetKey).chainKey.index == 0;
      }
      TakeIsSound(ChainOf(s1, h.ratchetKey), h.counter, Some(MAX_AHEAD));
    }
  }

  /** The chain that a message with an unknown ratchet key would start. */
  function NewChain(s: SessionStructure, theirs: PublicKey): ChainKey
    requires s.senderChain.Some?
  {
    CreateChain(s.rootKey, theirs, s.senderChain.value.ratchetKeyPair).chainKey
  }

  /** The first message on a new chain: what it needs to be read, and the state it leaves. */
  lemma DecryptOnNewChain(s: SessionStructure, m: WhisperMessage, ourNew: KeyPair)
    requires s.senderChain.Some? && m.header.version == Version(s) && !HasChain(s, m.header.ratchetKey)
    ensures var c := Chain(NewChain(s, m.header.ratchetKey), []);
            var seed, counter := c.chainKey.key, m.header.counter;
            var taken := Take(c, counter, Some(MAX_AHEAD), DeriveMessageKeys);
            var r := Decrypt(s, m, ourNew);
            if counter > MAX_AHEAD then r.answer == Err(InvalidMessage)
            else
              && taken.Taken? && taken.keys == DeriveMessageKeys(Advance(seed, counter))
              && Tracks(taken.chain, seed, 0, {counter}, DeriveMessageKeys)
              && var verified := VerifyMac(m, s.remoteIdentity, s.localIdentity, taken.keys.macKey);
                 && (!verified ==> r.answer == Err(InvalidMessage))
                 && (verified && GetPlaintext(m.header.body, taken.keys).Some? ==>
                       && r.answer == Ok(GetPlaintext(m.header.body, taken.keys).value)
                       && r.state
                            == WithChain(GetOrCreateChain(s, m.header.ratchetKey, ourNew), m.header.ratchetKey,
                                         taken.chain).(pendingPreKey := None))
  {
    var h := m.header;
    var c := Chain(NewChain(s, h.ratchetKey), []);
    AddedChainIsFound(s.receiverChains, h.ratchetKey, c.chainKey);
    assert ChainOf(GetOrCreateChain(s, h.ratchetKey, ourNew), h.ratchetKey) == c;
    FreshChainTracks(c.chainKey.key, 0, DeriveMessageKeys);
    TakeIsExact(c, c.chainKey.key, 0, {}, h.counter, Some(MAX_AHEAD), DeriveMessageKeys);
    assert {} + {h.counter} == {h.counter};
  }

  /** A successful attempt, taken apart. */
  lemma DecryptedState(s: SessionStructure, m: WhisperMessage, ourNew: KeyPair)
    requires Decrypt(s, m, ourNew).answer.Ok?
    ensures s.senderChain.Some? && m.header.version == Version(s)
    ensures var key := m.header.ratchetKey;
            var s1 := GetOrCreateChain(s, key, ourNew);
            var taken := Take(ChainOf(s1, key), m.header.counter, Some(MAX_AHEAD), DeriveMessageKeys);
            && taken.Taken?
            && VerifyMac(m, s.remoteIdentity, s.localIdentity, taken.keys.macKey)
            && Decrypt(s, m, ourNew).state == WithChain(s1, key, taken.chain).(pendingPreKey := None)
  {
  }

  /** What a session has read, on a new chain or on one it held, it calls a duplicate. */
  lemma ReadOnce(s: SessionStructure, m: WhisperMessage, ourNew: KeyPair, ourNext: KeyPair)
    requires Sound(s) && Decrypt(s, m, ourNew).answer.Ok?
    ensures Decrypt(Decrypt(s, m, ourNew).state, m, ourNext).answer == Err(DuplicateMessage)
  {
    var key, after := m.header.ratchetKey, Decrypt(s, m, ourNew).state;
    DecryptedState(s, m, ourNew);
    var s1 := GetOrCreateChain(s, key, ourNew);
    var c := ChainOf(s1, key);
    RatchetStepIsSound(s, key, ourNew);
    TakeIsTidy(c, m.header.counter, Some(MAX_AHEAD), DeriveMessageKeys);
    var taken := Take(c, m.header.counter, Some(MAX_AHEAD), DeriveMessageKeys).chain;
    WithChainKeepsKeys(s1, key, taken);
    assert ChainOf(after, key) == taken;
  }

  /** A session without a chain for the message's ratchet key, which would derive other keys for it. */
  predicate Stranger(s: SessionStructure, m: WhisperMessage)
  {
    s.senderChain.Some? ==>
      && !HasChain(s, m.header.ratchetKey)
      && var keys := DeriveMessageKeys(Advance(NewChain(s, m.header.ratchetKey).key, m.header.counter));
         !VerifyMac(m, s.remoteIdentity, s.localIdentity, keys.macKey)
  }

  lemma StrangersRefuse(s: SessionStructure, m: WhisperMessage, ourNew: KeyPair)
    requires Stranger(s, m)
    ensures Decrypt(s, m, ourNew).answer == Err(InvalidMessage)
  {
    if s.senderChain.Some? && m.header.version == Version(s) {
      DecryptOnNewChain(s, m, ourNew);
    }
  }

  lemma OtherChainsStayNew(s: SessionStructure, key: PublicKey, chain: Chain<MessageKeys>, other: PublicKey)
    requires HasChain(s, key) && !HasChain(s, other)
    ensures !HasChain(WithChain(s, key, chain), other)
  {
    var r := WithChain(s, key, chain).receiverChains;
    assert forall k :: 0 <= k < |r| ==> r[k].ratchetKey == s.receiverChains[k].ratchetKey;
  }

  lemma OtherKeysStayNew(s: SessionStructure, theirs: PublicKey, ourNew: KeyPair, other: PublicKey)
    requires s.senderChain.Some? && !HasChain(s, other) && theirs != other
    ensures !HasChain(GetOrCreateChain(s, theirs, ourNew), other)
  {
  }

  /** Decryption starts a chain for no other ratchet key than that of the message. */
  lemma DecryptStartsOneChain(s: SessionStructure, m: WhisperMessage, ourNew: KeyPair, other: PublicKey)
    requires !HasChain(s, other) && m.header.ratchetKey != other
    ensures !HasChain(Decrypt(s, m, ourNew).state, other)
  {
    var h := m.header;
    if s.senderChain.Some? && h.version == Version(s) {
      var s1 := GetOrCreateChain(s, h.ratchetKey, ourNew);
      OtherKeysStayNew(s, h.ratchetKey, ourNew, other);
      var taken := Take(ChainOf(s1, h.ratchetKey), h.counter, Some(MAX_AHEAD), DeriveMessageKeys);
      hide Take, GetOrCreateChain, WithChain, VerifyMac, GetPlaintext;
      if taken.Taken? {
        OtherChainsStayNew(s1, h.ratchetKey, taken.chain, other);
      }
    }
  }

  // ----- sessions that grew from another master secret -----

  predicate ForeignChain(c: Chain<MessageKeys>, master: Term)
  {
    && MasterOf(c.chainKey.key) != master
    && forall k :: 0 <= k < |c.stored| ==> MasterOf(c.stored[k].keys.macKey) != master
  }

  /** Nothing that the session holds was derived from the master secret. */
  predicate Foreign(s: SessionStructure, master: Term)
  {
    && MasterOf(s.rootKey) != master
    && forall i :: 0 <= i < |s.receiverChains| ==> ForeignChain(s.receiverChains[i].chain, master)
  }

  lemma {:induction false} SkipToIsForeign(c: Chain<MessageKeys>, index: nat, master: Term)
    requires ForeignChain(c, master)
    ensures ForeignChain(SkipTo(c, index, DeriveMessageKeys), master)
    decreases index - c.chainKey.index
  {
    if c.chainKey.index < index {
      SkipToIsForeign(Chain(NextChainKey(c.chainKey),
                            c.stored + [Stored(c.chainKey.index, DeriveMessageKeys(c.chainKey.key))]), index, master);
    }
  }

  lemma TakeIsForeign(c: Chain<MessageKeys>, index: nat, limit: Option<nat>, master: Term)
    requires ForeignChain(c, master)
    ensures var r := Take(c, index, limit, DeriveMessageKeys);
            r.Taken? ==> MasterOf(r.keys.macKey) != master && ForeignChain(r.chain, master)
  {
    SkipToIsForeign(c, index, master);
  }

  lemma AddedChainIsForeign(chains: seq<ReceiverChain>, key: PublicKey, chainKey: ChainKey, master: Term)
    requires forall i :: 0 <= i < |chains| ==> ForeignChain(chains[i].chain, master)
    requires MasterOf(chainKey.key) != master
    ensures var added := AddChain(chains, key, chainKey);
            forall i :: 0 <= i < |added| ==> ForeignChain(added[i].chain, master)
  {
  }

  lemma RatchetStepIsForeign(s: SessionStructure, theirs: PublicKey, ourNew: KeyPair, master: Term)
    requires Foreign(s, master) && s.senderChain.Some?
    ensures Foreign(GetOrCreateChain(s, theirs, ourNew), master)
  {
    hide MasterOf, CreateChain, AddChain, ForeignChain;
    if !HasChain(s, theirs) {
      var ours := s.senderChain.value.ratchetKeyPair;
      var receiver := CreateChain(s.rootKey, theirs, ours);
      DerivationsKeepMaster(s.rootKey, theirs, ours, receiver.rootKey);
      DerivationsKeepMaster(receiver.rootKey, theirs, ourNew, receiver.rootKey);
      AddedChainIsForeign(s.receiverChains, theirs, receiver.chainKey, master);
    }
  }

  lemma ReplacedChainIsForeign(s: SessionStructure, key: PublicKey, chain: Chain<MessageKeys>, master: Term)
    requires Foreign(s, master) && HasChain(s, key) && ForeignChain(chain, master)
    ensures Foreign(WithChain(s, key, chain), master)
    ensures Foreign(WithChain(s, key, chain).(pendingPreKey := None), master)
  {
  }

  /** Whatever arrives, a session never comes to hold keys of a master secret it did not grow from. */
  lemma DecryptIsForeign(s: SessionStructure, m: WhisperMessage, ourNew: KeyPair, master: Term)
    requires Foreign(s, master)
    ensures Foreign(Decrypt(s, m, ourNew).state, master)
  {
    var h := m.header;
    if s.senderChain.Some? && h.version == Version(s) {
      var s1 := GetOrCreateChain(s, h.ratchetKey, ourNew);
      RatchetStepIsForeign(s, h.ratchetKey, ourNew, master);
      var c := ChainOf(s1, h.ratchetKey);
      var taken := Take(c, h.counter, Some(MAX_AHEAD), DeriveMessageKeys);
      TakeIsForeign(c, h.counter, Some(MAX_AHEAD), master);
      hide Take, GetOrCreateChain, WithChain, ForeignChain, Foreign;
      if taken.Taken? {
        ReplacedChainIsForeign(s1, h.ratchetKey, taken.chain, master);
      }
    }
  }

  /** The message carries no MAC at all, or one under a key of the master secret. */
  predicate MadeUnder(m: WhisperMessage, master: Term)
  {
    m.mac.Mac? ==> MasterOf(m.mac.macKey) == master
  }

  /**
   A message of one master secret is never read by a session of another one, and without its chain it is
   invalid there.
   */
  lemma ForeignSessionsRefuse(s: SessionStructure, m: WhisperMessage, ourNew: KeyPair, master: Term)
    requires Foreign(s, master) && MadeUnder(m, master)
    ensures Decrypt(s, m, ourNew).answer in {Err(InvalidMessage), Err(DuplicateMessage)}
    ensures !HasChain(s, m.header.ratchetKey) ==> Stranger(s, m) && Decrypt(s, m, ourNew).answer == Err(InvalidMessage)
  {
    var h := m.header;
    if s.senderChain.Some? && h.version == Version(s) {
      if HasChain(s, h.ratchetKey) {
        TakeIsForeign(ChainOf(s, h.ratchetKey), h.counter, Some(MAX_AHEAD), master);
        hide Take;
      }
    }
    if !HasChain(s, h.ratchetKey) {
      ForeignIsStranger(s, m, master);
      StrangersRefuse(s, m, ourNew);
    }
  }

  lemma ForeignIsStranger(s: SessionStructure, m: WhisperMessage, master: Term)
    requires Foreign(s, master) && MadeUnder(m, master) && !HasChain(s, m.header.ratchetKey)
    ensures Stranger(s, m)
  {
    if s.senderChain.Some? {
      var seed := NewChain(s, m.header.ratchetKey).key;
      AdvanceKeepsMaster(seed, m.header.counter);
      DerivationsKeepMaster(s.rootKey, m.header.ratchetKey, s.senderChain.value.ratchetKeyPair,
                            Advance(seed, m.header.counter));
    }
  }
}
