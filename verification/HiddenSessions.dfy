/**
 How a session can become unreachable for its own messages: a peer that puts one ratchet key on two
 sessions (axolotl/sessioncipher.py).
 */
module HiddenSessions {
  import opened Wrappers
  import opened Curve
  import opened Ratchet
  import opened SkippedKeys
  import opened Messages
  import opened SessionStates
  import opened SessionProtocol
  import opened SessionRecords
  import opened AxolotlStores
  import opened RatchetingSession
  import opened SessionBuilders
  import opened RecordRuns

  const OURS := KeyPair(DjbECPublicKey([1]))
  const SIGNED_PREKEY := KeyPair(DjbECPublicKey([2]))
  const PEER := DjbECPublicKey([3])
  const RATCHET_KEY := DjbECPublicKey([4])
  const FIRST_BASE := DjbECPublicKey([5])
  const SECOND_BASE := DjbECPublicKey([6])

  const STORES := Stores(map[], map[], map[], map[0 := SIGNED_PREKEY], OURS, 0)

  /** The session that a prekey message with this base key sets up. */
  function NewSession(base: PublicKey): SessionStructure
  {
    InitializeAsBob(EMPTY_STRUCTURE, BobParameters(OURS, SIGNED_PREKEY, SIGNED_PREKEY, None, PEER, base)).(
      aliceBaseKey := Some(base))
  }

  function ChainSeed(base: PublicKey): Term
  {
    NewChain(NewSession(base), RATCHET_KEY).key
  }

  /** Message number n of the peer on the session with this base key, always under the same ratchet key. */
  function Text(base: PublicKey, n: nat, plaintext: seq<byte>): WhisperMessage
  {
    NewWhisperMessage(CURRENT_VERSION, DeriveMessageKeys(Advance(ChainSeed(base), n)), RATCHET_KEY, n, 0, plaintext,
                      PEER,
                      OURS.publicKey)
  }

  function FirstMessage(base: PublicKey, plaintext: seq<byte>): PreKeyWhisperMessage
  {
    PreKeyWhisperMessage(CURRENT_VERSION, 0, Some(0), 0, base, PEER, Text(base, 0, plaintext))
  }

  /** The peer's end of it. */
  function PeerSession(base: PublicKey): SessionStructure
  {
    InitializeAsAlice(
      EMPTY_STRUCTURE,
      AliceParameters(KeyPair(PEER), KeyPair(base), OURS.publicKey, SIGNED_PREKEY.publicKey, SIGNED_PREKEY.publicKey,
                      None),
      KeyPair(RATCHET_KEY))
  }

  /** The texts are what the peer sends when its key generator returns the same ratchet key for both sessions. */
  lemma PeerSends(base: PublicKey, plaintext: seq<byte>)
    ensures var first := Encrypt(PeerSession(base), plaintext);
            && first.Ok? && Inner(first.value.0) == Text(base, 0, plaintext)
            && var second := Encrypt(first.value.1, plaintext);
               second.Ok? && Inner(second.value.0) == Text(base, 1, plaintext)
  {
    var a := AliceParameters(KeyPair(PEER), KeyPair(base), OURS.publicKey, SIGNED_PREKEY.publicKey,
                             SIGNED_PREKEY.publicKey, None);
    var b := BobParameters(OURS, SIGNED_PREKEY, SIGNED_PREKEY, None, PEER, base);
    SecretsAgree(a, b);
    CreateChainAgrees(CalculateDerivedKeys(BobSecret(b)).rootKey, KeyPair(RATCHET_KEY), SIGNED_PREKEY);
    assert Advance(ChainSeed(base), 0) == ChainSeed(base);
    assert Advance(ChainSeed(base), 1) == NextKey(Advance(ChainSeed(base), 0));
  }

  lemma TextIsWellMade(base: PublicKey, n: nat, plaintext: seq<byte>)
    ensures WellMade(Text(base, n, plaintext))
  {
  }

  /** The session with this base key after messages 0 to n - 1 were read in order. */
  ghost predicate HasRead(s: SessionStructure, base: PublicKey, n: nat)
  {
    && s.senderChain.Some? && s.sessionVersion == CURRENT_VERSION && s.aliceBaseKey == Some(base)
    && s.remoteIdentity == PEER && s.localIdentity == OURS.publicKey
    && HasChain(s, RATCHET_KEY)
    && ChainOf(s, RATCHET_KEY) == Chain(ChainKey(Advance(ChainSeed(base), n), n), [])
  }

  lemma ReadsFirst(base: PublicKey, plaintext: seq<byte>, ourNew: KeyPair)
    ensures var r := Decrypt(NewSession(base), Text(base, 0, plaintext), ourNew);
            r.answer == Ok(plaintext) && HasRead(r.state, base, 1)
  {
    var s := GetOrCreateChain(NewSession(base), RATCHET_KEY, ourNew);
    var c := NewChain(NewSession(base), RATCHET_KEY);
    AddedChainIsFound([], RATCHET_KEY, c);
    assert Advance(ChainSeed(base), 0) == ChainSeed(base);
    WithChainKeepsKeys(s, RATCHET_KEY, Chain(NextChainKey(c), []));
  }

  lemma ReadsNext(s: SessionStructure, base: PublicKey, n: nat, plaintext: seq<byte>, ourNew: KeyPair)
    requires HasRead(s, base, n)
    ensures var r := Decrypt(s, Text(base, n, plaintext), ourNew);
            r.answer == Ok(plaintext) && HasRead(r.state, base, n + 1)
  {
    WithChainKeepsKeys(s, RATCHET_KEY, Chain(NextChainKey(ChainOf(s, RATCHET_KEY).chainKey), []));
  }

  lemma CallsOldDuplicate(s: SessionStructure, base: PublicKey, n: nat, other: PublicKey, k: nat, plaintext: seq<byte>,
                          ourNew: KeyPair)
    requires HasRead(s, base, n) && k < n
    ensures Decrypt(s, Text(other, k, plaintext), ourNew).answer == Err(DuplicateMessage)
  {
  }

  lemma SeedsDiffer(a: PublicKey, b: PublicKey)
    requires a != b && a != OURS.publicKey
    ensures ChainSeed(a) != ChainSeed(b)
  {
    var p := BobParameters(OURS, SIGNED_PREKEY, SIGNED_PREKEY, None, PEER, a);
    var q := p.(theirBase := b);
    assert a in CalculateAgreement(a, OURS).ends && a !in CalculateAgreement(b, OURS).ends;
    assert BobSecret(p).parts[2] == Agree(a, OURS) && BobSecret(q).parts[2] == Agree(b, OURS);
    assert NewSession(a).rootKey != NewSession(b).rootKey;
  }

  lemma RefusesOther(s: SessionStructure, base: PublicKey, other: PublicKey, n: nat, plaintext: seq<byte>,
                     ourNew: KeyPair)
    requires HasRead(s, base, n) && base != other && base != OURS.publicKey
    ensures Decrypt(s, Text(other, n, plaintext), ourNew).answer == Err(InvalidMessage)
  {
    SeedsDiffer(base, other);
    if DeriveMessageKeys(Advance(ChainSeed(base), n)).macKey == DeriveMessageKeys(Advance(ChainSeed(other), n)).macKey {
      AdvanceInjective(ChainSeed(base), ChainSeed(other), n);
    }
  }

  /** The first prekey message sets up a session in a new record and is read on it. */
  lemma FirstSession(plaintext: seq<byte>, ourNew: nat -> KeyPair)
    ensures var s := Decrypt(NewSession(FIRST_BASE), Text(FIRST_BASE, 0, plaintext), ourNew(0)).state;
            && HasRead(s, FIRST_BASE, 1)
            && After(NEW_RECORD, ReceivePreKey(STORES, FirstMessage(FIRST_BASE, plaintext), ourNew))
                 == Record(s, [], false)
  {
    ReadsFirst(FIRST_BASE, plaintext, ourNew(0));
    assert States(NEW_RECORD) == [EMPTY_STRUCTURE];
    var m := FirstMessage(FIRST_BASE, plaintext);
    assert ProcessV3(NEW_RECORD, STORES, m) == Ok((NEW_RECORD.(current := NewSession(FIRST_BASE)), Some(0)));
  }

  /** The second one archives that session and is read on its own. */
  lemma SecondSession(s: SessionStructure, plaintext: seq<byte>, ourNew: nat -> KeyPair)
    requires HasRead(s, FIRST_BASE, 1)
    ensures var t := Decrypt(NewSession(SECOND_BASE), Text(SECOND_BASE, 0, plaintext), ourNew(0)).state;
            && HasRead(t, SECOND_BASE, 1)
            && After(Record(s, [], false), ReceivePreKey(STORES, FirstMessage(SECOND_BASE, plaintext), ourNew))
               == Record(t, [s], false)
  {
    ReadsFirst(SECOND_BASE, plaintext, ourNew(0));
    var r, m := Record(s, [], false), FirstMessage(SECOND_BASE, plaintext);
    assert States(r) == [s];
    assert ProcessV3(r, STORES, m) == Ok((Record(NewSession(SECOND_BASE), [s], false), Some(0)));
  }

  /** The next message of the first session finds it in the archive and promotes it. */
  lemma Promotion(t: SessionStructure, s: SessionStructure, plaintext: seq<byte>, ourNew: nat -> KeyPair)
    requires HasRead(t, SECOND_BASE, 1) && HasRead(s, FIRST_BASE, 1)
    ensures var s' := Decrypt(s, Text(FIRST_BASE, 1, plaintext), ourNew(1)).state;
            && HasRead(s', FIRST_BASE, 2)
            && After(Record(t, [s], false), ReceiveWhisper(Text(FIRST_BASE, 1, plaintext), ourNew))
                 == Record(s', [t], false)
  {
    RefusesOther(t, SECOND_BASE, FIRST_BASE, 1, plaintext, ourNew(0));
    ReadsNext(s, FIRST_BASE, 1, plaintext, ourNew(1));
    assert Without([s], 0) == [];
  }

  /** Two prekey messages and then the next message of the first session. */
  function Arrivals(plaintext: seq<byte>, ourNew: nat -> KeyPair): seq<Op>
  {
    [ReceivePreKey(STORES, FirstMessage(FIRST_BASE, plaintext), ourNew),
     ReceivePreKey(STORES, FirstMessage(SECOND_BASE, plaintext), ourNew),
     ReceiveWhisper(Text(FIRST_BASE, 1, plaintext), ourNew)]
  }

  lemma AfterArrivals(plaintext: seq<byte>, ourNew: nat -> KeyPair)
    returns (first: SessionStructure, second: SessionStructure)
    ensures PermittedRun(NEW_RECORD, Arrivals(plaintext, ourNew))
    ensures RunRecord(NEW_RECORD, Arrivals(plaintext, ourNew)) == Record(first, [second], false)
    ensures HasRead(first, FIRST_BASE, 2) && HasRead(second, SECOND_BASE, 1)
  {
    RunOfThree(NEW_RECORD, ReceivePreKey(STORES, FirstMessage(FIRST_BASE, plaintext), ourNew),
               ReceivePreKey(STORES, FirstMessage(SECOND_BASE, plaintext), ourNew),
               ReceiveWhisper(Text(FIRST_BASE, 1, plaintext), ourNew));
    hide Decrypt, After, RunRecord, PermittedRun, HasRead, Text, FirstMessage;
    FirstSession(plaintext, ourNew);
    first := Decrypt(NewSession(FIRST_BASE), Text(FIRST_BASE, 0, plaintext), ourNew(0)).state;
    SecondSession(first, plaintext, ourNew);
    second := Decrypt(NewSession(SECOND_BASE), Text(SECOND_BASE, 0, plaintext), ourNew(0)).state;
    Promotion(second, first, plaintext, ourNew);
    first := Decrypt(first, Text(FIRST_BASE, 1, plaintext), ourNew(1)).state;
  }

  /**
   A hidden session, reached from a new record: two prekey messages of one peer, with different base keys
   but one ratchet key, are read, then the next message of the first session. It becomes current with the
   counters 0 and 1 of that ratchet key used up, so message 1 of the second session is answered with a
   duplicate, although the second session, next in the archive, can read it.
   */
  lemma HiddenSession(plaintext: seq<byte>, ourNew: nat -> KeyPair)
    ensures var r, m := RunRecord(NEW_RECORD, Arrivals(plaintext, ourNew)), Text(SECOND_BASE, 1, plaintext);
            && PermittedRun(NEW_RECORD, Arrivals(plaintext, ourNew)) && WellMade(m) && |r.previous| == 1
            && AttemptAt(r, 1, m, ourNew).answer == Ok(plaintext)
            && DecryptRecord(r, m, ourNew) == Found(Err(DuplicateMessage), r)
  {
    hide Decrypt, RunRecord, PermittedRun, HasRead, Text, WellMade;
    TextIsWellMade(SECOND_BASE, 1, plaintext);
    var first, second := AfterArrivals(plaintext, ourNew);
    CallsOldDuplicate(first, FIRST_BASE, 2, SECOND_BASE, 1, plaintext, ourNew(0));
    ReadsNext(second, SECOND_BASE, 1, plaintext, ourNew(1));
    assert States(Record(first, [second], false))[1] == second;
  }

  /** Operations that are permitted on any record. */
  predicate AlwaysPermitted(op: Op)
  {
    !op.Bundle? && (op.ReceivePreKey? ==> op.preKey.version == CURRENT_VERSION)
  }

  lemma {:induction false} RunOfThree(r: Record, a: Op, b: Op, c: Op)
    requires AlwaysPermitted(a) && AlwaysPermitted(b) && AlwaysPermitted(c)
    ensures RunRecord(r, [a, b, c]) == After(After(After(r, a), b), c) && PermittedRun(r, [a, b, c])
  {
    var r1, r2 := After(r, a), After(After(r, a), b);
    assert [a, b, c][1..] == [b, c] && [b, c][1..] == [c] && |[c][1..]| == 0;
    assert RunRecord(r2, [c]) == After(r2, c) && PermittedRun(r2, [c]);
    assert RunRecord(r1, [b, c]) == After(r2, c) && PermittedRun(r1, [b, c]);
  }
}
