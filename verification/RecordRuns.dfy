/**
 One record under any run of operations: what it never comes to hold, what it keeps, and when its
 messages are prekey messages (axolotl/sessionbuilder.py, axolotl/sessioncipher.py,
 axolotl/state/sessionrecord.py).
 */
module RecordRuns {
  import opened Wrappers
  import opened Curve
  import opened Ratchet
  import opened Messages
  import opened SessionStates
  import opened SessionProtocol
  import opened SessionRecords
  import opened AxolotlStores
  import opened RatchetingSession
  import opened SessionBuilders

  /** One operation on the stored record of an address; stores are those of that moment. */
  datatype Op =
    | Bundle(stores: Stores, bundle: PreKeyBundle, ourBase: KeyPair, sending: KeyPair)
    | ReceivePreKey(stores: Stores, preKey: PreKeyWhisperMessage, ourNew: nat -> KeyPair)
    | ReceiveWhisper(message: WhisperMessage, ourNew: nat -> KeyPair)
    | SendMessage(plaintext: seq<byte>)
    | OfferExchange(pending: PendingKeyExchange)
    | CompleteExchange(parameters: SymmetricParameters, sending: KeyPair)

  function Kept(r: Record, found: Found): Record
  {
    if found.answer.Ok? then found.record.(isFresh := false) else r
  }

  function After(r: Record, op: Op): Record
  {
    match op
    case Bundle(st, b, ourBase, sending) =>
      if b.signedPreKey.None? then r else BundleRecord(r, st, b, ourBase, sending).(isFresh := false)
    case ReceivePreKey(st, m, ourNew) =>
      (match ProcessV3(r, st, m)
       case Err(_) => r
       case Ok((ready, _)) => Kept(r, DecryptRecord(ready, m.message, ourNew)))
    case ReceiveWhisper(m, ourNew) => Kept(r, DecryptRecord(r, m, ourNew))
    case SendMessage(plaintext) =>
      (match Encrypt(r.current, plaintext)
       case Err(_) => r
       case Ok((_, state)) => r.(current := state))
    case OfferExchange(pending) => r.(current := r.current.(pendingKeyExchange := Some(pending)), isFresh := false)
    case CompleteExchange(p, sending) =>
      if BaseKeysComparable(p.ourBase, p.theirBase) then ExchangeRecord(r, p, sending).(isFresh := false) else r
  }

  /** Does this operation decrypt a message? */
  function Decrypts(r: Record, op: Op): bool
  {
    match op
    case ReceivePreKey(st, m, ourNew) =>
      ProcessV3(r, st, m).Ok? && DecryptRecord(ProcessV3(r, st, m).value.0, m.message, ourNew).answer.Ok?
    case ReceiveWhisper(m, ourNew) => DecryptRecord(r, m, ourNew).answer.Ok?
    case _ => false
  }

  /** Base keys that we generate are new; prekey messages of another version do not parse. */
  predicate Permitted(r: Record, op: Op)
  {
    match op
    case Bundle(_, _, ourBase, _) => forall s :: s in States(r) ==> s.aliceBaseKey != Some(ourBase.publicKey)
    case ReceivePreKey(_, m, _) => m.version == CURRENT_VERSION
    case _ => true
  }

  predicate SameName(s: SessionStructure, t: SessionStructure)
  {
    s.aliceBaseKey == t.aliceBaseKey && Version(s) == Version(t)
  }

  /** No two states share a version and a base key that was set. */
  ghost predicate UniqueNames(states: seq<SessionStructure>)
  {
    forall i, j :: 0 <= i < j < |states| && SameName(states[i], states[j]) ==> states[i].aliceBaseKey.None?
  }

  ghost predicate Orderly(r: Record)
  {
    |r.previous| <= ARCHIVED_STATES_MAX_LENGTH && UniqueNames(States(r))
  }

  ghost predicate RecordInv(r: Record)
  {
    Orderly(r) && (r.isFresh ==> r == NEW_RECORD)
  }

  /** A session that starts in a record, with a name that no state there has. */
  lemma StartKeepsInv(r: Record, s: SessionStructure, after: Record)
    requires RecordInv(r)
    requires s.aliceBaseKey.Some? ==> !HoldsSession(r, Version(s), s.aliceBaseKey.value)
    requires after.current == s && after.previous == StartOver(r).previous
    ensures Orderly(after)
  {
    var before, states := States(r), States(after);
    forall i, j | 0 <= i < j < |states| && SameName(states[i], states[j])
      ensures states[i].aliceBaseKey.None?
    {
      assert states[j] == before[j - 1];
      if i > 0 {
        assert states[i] == before[i - 1];
      } else {
        assert states[j] in before;
      }
    }
  }

  lemma DecryptKeepsName(s: SessionStructure, m: WhisperMessage, ourNew: KeyPair)
    ensures var r := Decrypt(s, m, ourNew).state;
            r.aliceBaseKey == s.aliceBaseKey && r.sessionVersion == s.sessionVersion
    ensures Decrypt(s, m, ourNew).answer.Ok? ==>
              Decrypt(s, m, ourNew).state.pendingPreKey.None? && Decrypt(s, m, ourNew).state.senderChain.Some?
  {
  }

  /** Position i of a promoted record was this position before. */
  function From(k: nat, i: nat): int
  {
    if i == 0 then k else if i <= k then i - 1 else i
  }

  lemma FromEarlier(before: Record, k: nat, state: SessionStructure, after: Record, i: nat)
    requires k < |States(before)| && Promoted(before, k, state, after) && 0 < i < |States(after)|
    ensures 0 <= From(k, i) < |States(before)| && From(k, i) != k
    ensures States(after)[i] == States(before)[From(k, i)]
  {
    assert States(after)[i] == after.previous[i - 1];
  }

  /** Promotion only moves states around. */
  lemma PromotionKeepsNames(before: Record, k: nat, state: SessionStructure, after: Record)
    requires k < |States(before)| && Promoted(before, k, state, after) && UniqueNames(States(before))
    requires state.aliceBaseKey == States(before)[k].aliceBaseKey && Version(state) == Version(States(before)[k])
    ensures UniqueNames(States(after))
  {
    var old_, states := States(before), States(after);
    forall i, j | 0 <= i < j < |states| && SameName(states[i], states[j])
      ensures states[i].aliceBaseKey.None?
    {
      FromEarlier(before, k, state, after, j);
      if i > 0 {
        FromEarlier(before, k, state, after, i);
      }
      var a, b := From(k, i), From(k, j);
      assert SameName(old_[a], old_[b]) && SameName(old_[b], old_[a]);
    }
  }

  /** A successful search promotes one state, under the name it had. */
  lemma SearchPromotes(r: Record, m: WhisperMessage, ourNew: nat -> KeyPair) returns (k: nat)
    requires |r.previous| <= ARCHIVED_STATES_MAX_LENGTH && DecryptRecord(r, m, ourNew).answer.Ok?
    ensures k < |States(r)|
    ensures var state := AttemptAt(r, k, m, ourNew).state;
            && Promoted(r, k, state, DecryptRecord(r, m, ourNew).record)
            && state.aliceBaseKey == States(r)[k].aliceBaseKey && Version(state) == Version(States(r)[k])
            && state.pendingPreKey.None? && state.senderChain.Some?
  {
    hide Decrypt, DecryptRecord, Promoted;
    k := SearchStops(r, m, ourNew);
    SearchAndPromotion(r, m, ourNew);
    DecryptKeepsName(States(r)[k], m, ourNew(k));
  }

  lemma SearchKeepsOrder(r: Record, m: WhisperMessage, ourNew: nat -> KeyPair)
    requires Orderly(r)
    ensures Orderly(DecryptRecord(r, m, ourNew).record)
    ensures DecryptRecord(r, m, ourNew).answer.Ok? ==>
              var current := DecryptRecord(r, m, ourNew).record.current;
              current.pendingPreKey.None? && current.senderChain.Some?
  {
    if DecryptRecord(r, m, ourNew).answer.Ok? {
      var k := SearchPromotes(r, m, ourNew);
      PromotionKeepsNames(r, k, AttemptAt(r, k, m, ourNew).state, DecryptRecord(r, m, ourNew).record);
    } else {
      SearchAndPromotion(r, m, ourNew);
    }
  }

  lemma PromotionKeepsSessions(before: Record, k: nat, state: SessionStructure, after: Record, version: nat,
                               key: PublicKey)
    requires k < |States(before)| && Promoted(before, k, state, after) && HoldsSession(before, version, key)
    requires state.aliceBaseKey == States(before)[k].aliceBaseKey && Version(state) == Version(States(before)[k])
    ensures HoldsSession(after, version, key)
  {
    var j :| 0 <= j < |States(before)| && Matches(States(before)[j], version, key);
    var now := if j == k then 0 else if j < k then j + 1 else j;
    assert now > 0 ==> States(after)[now] == after.previous[now - 1];
    assert Matches(States(after)[now], version, key);
  }

  lemma SearchKeepsSessions(r: Record, m: WhisperMessage, ourNew: nat -> KeyPair, version: nat, key: PublicKey)
    requires Orderly(r) && HoldsSession(r, version, key)
    ensures HoldsSession(DecryptRecord(r, m, ourNew).record, version, key)
    ensures |DecryptRecord(r, m, ourNew).record.previous| == |r.previous|
  {
    if DecryptRecord(r, m, ourNew).answer.Ok? {
      var k := SearchPromotes(r, m, ourNew);
      PromotionKeepsSessions(r, k, AttemptAt(r, k, m, ourNew).state, DecryptRecord(r, m, ourNew).record, version, key);
    } else {
      SearchAndPromotion(r, m, ourNew);
    }
  }

  lemma ProcessV3KeepsOrder(r: Record, st: Stores, m: PreKeyWhisperMessage)
    requires RecordInv(r) && m.version == CURRENT_VERSION && ProcessV3(r, st, m).Ok?
    ensures Orderly(ProcessV3(r, st, m).value.0)
    ensures HoldsSession(ProcessV3(r, st, m).value.0, m.version, m.baseKey)
  {
    var ready := ProcessV3(r, st, m).value.0;
    if !HoldsSession(r, m.version, m.baseKey) {
      StartKeepsInv(r, ready.current, ready);
      assert States(ready)[0] == ready.current && Matches(ready.current, m.version, m.baseKey);
    }
  }

  lemma OpKeepsInv(r: Record, op: Op)
    requires RecordInv(r) && Permitted(r, op)
    ensures RecordInv(After(r, op))
  {
    var after := After(r, op);
    match op
    case Bundle(st, b, ourBase, sending) =>
      if b.signedPreKey.Some? {
        StartKeepsInv(r, after.current, after);
      }
    case ReceivePreKey(st, m, ourNew) =>
      if ProcessV3(r, st, m).Ok? {
        ProcessV3KeepsOrder(r, st, m);
        SearchKeepsOrder(ProcessV3(r, st, m).value.0, m.message, ourNew);
        var found := DecryptRecord(ProcessV3(r, st, m).value.0, m.message, ourNew);
        assert States(after) == States(r) || States(after) == States(found.record);
      }
    case ReceiveWhisper(m, ourNew) =>
      SearchKeepsOrder(r, m, ourNew);
      assert States(after) == States(r) || States(after) == States(DecryptRecord(r, m, ourNew).record);
    case SendMessage(_) =>
      SameNames(r, after);
    case OfferExchange(_) =>
      SameNames(r, after);
    case CompleteExchange(p, sending) =>
      if BaseKeysComparable(p.ourBase, p.theirBase) {
        StartKeepsInv(r, after.current, after);
      }
  }

  lemma SameNames(r: Record, after: Record)
    requires Orderly(r) && after.previous == r.previous
    requires Version(after.current) == Version(r.current) && after.current.aliceBaseKey == r.current.aliceBaseKey
    ensures Orderly(after)
  {
    assert forall i :: 0 < i < |States(r)| ==> States(after)[i] == States(r)[i];
  }

  ghost function RunRecord(r: Record, ops: seq<Op>): Record
    decreases |ops|
  {
    if |ops| == 0 then r else RunRecord(After(r, ops[0]), ops[1..])
  }

  ghost predicate PermittedRun(r: Record, ops: seq<Op>)
    decreases |ops|
  {
    |ops| == 0 || (Permitted(r, ops[0]) && PermittedRun(After(r, ops[0]), ops[1..]))
  }

  /**
   Over any run of bundles, prekey messages, messages and key exchanges, a record never archives more
   than forty states and never holds two states with one version and one base key.
   */
  lemma {:induction false} RecordsStayOrderly(r: Record, ops: seq<Op>)
    requires RecordInv(r) && PermittedRun(r, ops)
    ensures RecordInv(RunRecord(r, ops))
    decreases |ops|
  {
    if |ops| != 0 {
      OpKeepsInv(r, ops[0]);
      RecordsStayOrderly(After(r, ops[0]), ops[1..]);
    }
  }

  /** A record whose current state was archived still holds what it held. */
  lemma ArchivingKeepsSessions(r: Record, after: Record, version: nat, key: PublicKey)
    requires after.previous == [r.current] + r.previous && HoldsSession(r, version, key)
    ensures HoldsSession(after, version, key)
  {
    var i :| 0 <= i < |States(r)| && Matches(States(r)[i], version, key);
    assert States(after)[i + 1] == States(r)[i];
  }

  /** A record whose current state kept its name still holds what it held. */
  lemma UpdatingKeepsSessions(r: Record, after: Record, version: nat, key: PublicKey)
    requires after.previous == r.previous && HoldsSession(r, version, key)
    requires after.current.aliceBaseKey == r.current.aliceBaseKey && Version(after.current) == Version(r.current)
    ensures HoldsSession(after, version, key)
  {
    var i :| 0 <= i < |States(r)| && Matches(States(r)[i], version, key);
    assert Matches(States(after)[i], version, key);
  }

  /** Does this operation put the current state into the archive? */
  predicate Archives(r: Record, op: Op)
  {
    match op
    case Bundle(_, b, _, _) => !r.isFresh && b.signedPreKey.Some?
    case ReceivePreKey(_, m, _) => !r.isFresh && Decrypts(r, op) && !HoldsSession(r, m.version, m.baseKey)
    case CompleteExchange(p, _) => !r.isFresh && BaseKeysComparable(p.ourBase, p.theirBase)
    case _ => false
  }

  ghost function ArchivedBy(r: Record, ops: seq<Op>): nat
    decreases |ops|
  {
    if |ops| == 0 then 0
    else (if Archives(r, ops[0]) then 1 else 0) + ArchivedBy(After(r, ops[0]), ops[1..])
  }

  lemma StoringKeepsSessions(r: Record, version: nat, key: PublicKey)
    requires HoldsSession(r, version, key)
    ensures HoldsSession(r.(isFresh := false), version, key)
  {
    assert States(r.(isFresh := false)) == States(r);
  }

  lemma PreKeyKeepsSessions(r: Record, st: Stores, m: PreKeyWhisperMessage, ourNew: nat -> KeyPair, version: nat,
                            key: PublicKey)
    requires RecordInv(r) && m.version == CURRENT_VERSION && HoldsSession(r, version, key)
    requires |r.previous| < ARCHIVED_STATES_MAX_LENGTH || !Archives(r, ReceivePreKey(st, m, ourNew))
    ensures HoldsSession(After(r, ReceivePreKey(st, m, ourNew)), version, key)
    ensures var grown := if Archives(r, ReceivePreKey(st, m, ourNew)) then 1 else 0;
            |After(r, ReceivePreKey(st, m, ourNew)).previous| <= |r.previous| + grown
  {
    if Decrypts(r, ReceivePreKey(st, m, ourNew)) {
      var ready := ProcessV3(r, st, m).value.0;
      if ready != r {
        ArchivingKeepsSessions(r, ready, version, key);
      }
      ProcessV3KeepsOrder(r, st, m);
      SearchKeepsSessions(ready, m.message, ourNew, version, key);
      StoringKeepsSessions(DecryptRecord(ready, m.message, ourNew).record, version, key);
    }
  }

  /** A session leaves a record only when the archive is full and one more state is archived. */
  lemma OpKeepsSessions(r: Record, op: Op, version: nat, key: PublicKey)
    requires RecordInv(r) && Permitted(r, op) && HoldsSession(r, version, key)
    requires |r.previous| < ARCHIVED_STATES_MAX_LENGTH || !Archives(r, op)
    ensures HoldsSession(After(r, op), version, key)
    ensures |After(r, op).previous| <= |r.previous| + if Archives(r, op) then 1 else 0
  {
    var after := After(r, op);
    assert !r.isFresh;
    match op
    case Bundle(_, _, _, _) =>
      if after != r {
        ArchivingKeepsSessions(r, after, version, key);
      }
    case ReceivePreKey(st, m, ourNew) => PreKeyKeepsSessions(r, st, m, ourNew, version, key);
    case ReceiveWhisper(m, ourNew) =>
      SearchKeepsSessions(r, m, ourNew, version, key);
      StoringKeepsSessions(DecryptRecord(r, m, ourNew).record, version, key);
    case SendMessage(_) => UpdatingKeepsSessions(r, after, version, key);
    case OfferExchange(_) => UpdatingKeepsSessions(r, after, version, key);
    case CompleteExchange(_, _) =>
      if after != r {
        ArchivingKeepsSessions(r, after, version, key);
      }
  }

  /** A session survives every run that does not archive more states than there is room for. */
  lemma {:induction false} RunKeepsSessions(r: Record, ops: seq<Op>, version: nat, key: PublicKey)
    requires RecordInv(r) && PermittedRun(r, ops) && HoldsSession(r, version, key)
    requires |r.previous| + ArchivedBy(r, ops) <= ARCHIVED_STATES_MAX_LENGTH
    ensures HoldsSession(RunRecord(r, ops), version, key)
    decreases |ops|
  {
    if |ops| != 0 {
      OpKeepsInv(r, ops[0]);
      OpKeepsSessions(r, ops[0], version, key);
      RunKeepsSessions(After(r, ops[0]), ops[1..], version, key);
    }
  }

  /**
   Session establishment is idempotent: once a prekey message was accepted, processing it again, with
   any stores, changes nothing and names no prekey to remove.
   */
  lemma EstablishedOnce(r: Record, st: Stores, m: PreKeyWhisperMessage, ourNew: nat -> KeyPair, later: Stores)
    requires RecordInv(r) && m.version == CURRENT_VERSION
    requires ProcessV3(r, st, m).Ok? && DecryptRecord(ProcessV3(r, st, m).value.0, m.message, ourNew).answer.Ok?
    ensures var after := After(r, ReceivePreKey(st, m, ourNew));
            HoldsSession(after, m.version, m.baseKey) && ProcessV3(after, later, m) == Ok((after, None))
  {
    var ready := ProcessV3(r, st, m).value.0;
    var after := After(r, ReceivePreKey(st, m, ourNew));
    ProcessV3KeepsOrder(r, st, m);
    SearchKeepsSessions(ready, m.message, ourNew, m.version, m.baseKey);
    assert States(after) == States(DecryptRecord(ready, m.message, ourNew).record);
  }

  /** The same after any later run that leaves the session its place in the archive. */
  lemma {:induction false} EstablishedForGood(r: Record, st: Stores, m: PreKeyWhisperMessage, ourNew: nat -> KeyPair,
                                              ops: seq<Op>, later: Stores)
    requires RecordInv(r) && m.version == CURRENT_VERSION && Decrypts(r, ReceivePreKey(st, m, ourNew))
    requires PermittedRun(After(r, ReceivePreKey(st, m, ourNew)), ops)
    requires var after := After(r, ReceivePreKey(st, m, ourNew));
             |after.previous| + ArchivedBy(after, ops) <= ARCHIVED_STATES_MAX_LENGTH
    ensures var last := RunRecord(After(r, ReceivePreKey(st, m, ourNew)), ops);
            ProcessV3(last, later, m) == Ok((last, None))
  {
    EstablishedOnce(r, st, m, ourNew, later);
    OpKeepsInv(r, ReceivePreKey(st, m, ourNew));
    RunKeepsSessions(After(r, ReceivePreKey(st, m, ourNew)), ops, m.version, m.baseKey);
  }

  // ----- properties that all states keep -----

  /** A record as it is stored, or a new one. */
  predicate Sized(r: Record)
  {
    |r.previous| <= ARCHIVED_STATES_MAX_LENGTH && (r.isFresh ==> r == NEW_RECORD)
  }

  lemma SearchKeepsSize(r: Record, m: WhisperMessage, ourNew: nat -> KeyPair)
    requires |r.previous| <= ARCHIVED_STATES_MAX_LENGTH
    ensures |DecryptRecord(r, m, ourNew).record.previous| == |r.previous|
  {
    hide Decrypt, AttemptAt;
    SearchAndPromotion(r, m, ourNew);
    if DecryptRecord(r, m, ourNew).answer.Ok? {
      var k := SearchStops(r, m, ourNew);
    }
  }

  /** The archive never outgrows its bound, whatever the operations. */
  lemma OpKeepsSize(r: Record, op: Op)
    requires Sized(r)
    ensures Sized(After(r, op))
  {
    hide DecryptRecord, InitializeAsAlice, InitializeAsBob, HoldsSession;
    match op
    case ReceivePreKey(st, m, ourNew) =>
      if ProcessV3(r, st, m).Ok? {
        SearchKeepsSize(ProcessV3(r, st, m).value.0, m.message, ourNew);
      }
    case ReceiveWhisper(m, ourNew) => SearchKeepsSize(r, m, ourNew);
    case _ =>
  }

  /** The session that an operation starts, if it starts one. */
  function SessionOf(op: Op): Option<SessionStructure>
  {
    match op
    case Bundle(st, b, ourBase, sending) =>
      if b.signedPreKey.None? then None else Some(AliceSession(st, EMPTY_STRUCTURE, b, ourBase, sending))
    case ReceivePreKey(st, m, _) =>
      if m.signedPreKeyId !in st.signedPreKeys || OneTimePreKey(st, m.preKeyId).Err? then None
      else Some(BobSession(st, EMPTY_STRUCTURE, m, OneTimePreKey(st, m.preKeyId).value))
    case CompleteExchange(p, sending) =>
      if BaseKeysComparable(p.ourBase, p.theirBase) then Some(Initialize(EMPTY_STRUCTURE, p, sending)) else None
    case _ => None
  }

  predicate SameKeys(s: SessionStructure, t: SessionStructure)
  {
    && t.rootKey == s.rootKey && t.receiverChains == s.receiverChains && t.aliceBaseKey == s.aliceBaseKey
    && t.remoteIdentity == s.remoteIdentity && t.sessionVersion == s.sessionVersion
    && t.senderChain.Some? == s.senderChain.Some?
  }

  /** A property of the keys and the name of a state. */
  ghost predicate Stable(p: SessionStructure -> bool)
  {
    forall s: SessionStructure, t: SessionStructure :: p(s) && SameKeys(s, t) ==> p(t)
  }

  /** Decryption of this message keeps the property, whether or not it succeeds. */
  ghost predicate Keeps(m: WhisperMessage, p: SessionStructure -> bool)
  {
    forall s: SessionStructure, ourNew: KeyPair :: p(s) ==> p(Decrypt(s, m, ourNew).state)
  }

  /** The session that the operation starts has the property, and the message that it decrypts keeps it. */
  ghost predicate Admits(op: Op, p: SessionStructure -> bool)
  {
    && (SessionOf(op).Some? ==> p(SessionOf(op).value))
    && (match op
        case ReceivePreKey(_, m, _) => Keeps(m.message, p)
        case ReceiveWhisper(m, _) => Keeps(m, p)
        case _ => true)
  }

  lemma PromotionKeepsAll(before: Record, k: nat, state: SessionStructure, after: Record, p: SessionStructure -> bool)
    requires k < |States(before)| && Promoted(before, k, state, after) && All(before, p) && p(state)
    ensures All(after, p)
  {
    forall i | 0 <= i < |States(after)| ensures p(States(after)[i]) {
      if i > 0 {
        FromEarlier(before, k, state, after, i);
      }
    }
  }

  lemma SearchKeepsAll(r: Record, m: WhisperMessage, ourNew: nat -> KeyPair, p: SessionStructure -> bool)
    requires |r.previous| <= ARCHIVED_STATES_MAX_LENGTH && All(r, p) && Keeps(m, p)
    ensures All(DecryptRecord(r, m, ourNew).record, p)
  {
    if DecryptRecord(r, m, ourNew).answer.Ok? {
      var k := SearchPromotes(r, m, ourNew);
      PromotionKeepsAll(r, k, AttemptAt(r, k, m, ourNew).state, DecryptRecord(r, m, ourNew).record, p);
    } else {
      SearchAndPromotion(r, m, ourNew);
    }
  }

  lemma StartKeepsAll(r: Record, after: Record, p: SessionStructure -> bool)
    requires All(r, p) && p(after.current) && after.previous == StartOver(r).previous
    ensures All(after, p)
  {
    forall i | 0 <= i < |States(after)| ensures p(States(after)[i]) {
      if i > 0 {
        assert after.previous[i - 1] in States(r);
      }
    }
  }

  lemma SameStatesKeepAll(r: Record, after: Record, p: SessionStructure -> bool)
    requires All(r, p) && States(after) == States(r)
    ensures All(after, p)
  {
  }

  lemma UpdateKeepsAll(r: Record, after: Record, p: SessionStructure -> bool)
    requires All(r, p) && Stable(p) && after.previous == r.previous
    requires SameKeys(r.current, after.current)
    ensures All(after, p)
  {
    assert p(States(r)[0]);
    forall i | 0 <= i < |States(after)| ensures p(States(after)[i]) {
      if i > 0 {
        assert States(after)[i] == States(r)[i];
      }
    }
  }

  /** What an operation puts into an empty current state is its session. */
  lemma StartedSession(r: Record, op: Op)
    requires Sized(r)
    ensures op.Bundle? && SessionOf(op).Some? ==>
              After(r, op).current == SessionOf(op).value && After(r, op).previous == StartOver(r).previous
    ensures op.CompleteExchange? && SessionOf(op).Some? ==>
              After(r, op).current == SessionOf(op).value && After(r, op).previous == StartOver(r).previous
    ensures op.ReceivePreKey? && ProcessV3(r, op.stores, op.preKey).Ok?
            && !HoldsSession(r, op.preKey.version, op.preKey.baseKey) ==>
              var ready := ProcessV3(r, op.stores, op.preKey).value.0;
              && SessionOf(op) == Some(ready.current) && ready.previous == StartOver(r).previous
  {
    hide InitializeAsAlice, InitializeAsBob, HoldsSession;
  }

  lemma OpKeepsAll(r: Record, op: Op, p: SessionStructure -> bool)
    requires Sized(r) && All(r, p) && Stable(p) && Admits(op, p)
    ensures All(After(r, op), p)
  {
    var after := After(r, op);
    StartedSession(r, op);
    match op
    case Bundle(_, b, _, _) =>
      if b.signedPreKey.Some? {
        StartKeepsAll(r, after, p);
      }
    case ReceivePreKey(st, m, ourNew) =>
      if Decrypts(r, op) {
        var ready := ProcessV3(r, st, m).value.0;
        if !HoldsSession(r, m.version, m.baseKey) {
          StartKeepsAll(r, ready, p);
        }
        SearchKeepsAll(ready, m.message, ourNew, p);
        SameStatesKeepAll(DecryptRecord(ready, m.message, ourNew).record, after, p);
      }
    case ReceiveWhisper(m, ourNew) =>
      SearchKeepsAll(r, m, ourNew, p);
      SameStatesKeepAll(if Decrypts(r, op) then DecryptRecord(r, m, ourNew).record else r, after, p);
    case SendMessage(_) => UpdateKeepsAll(r, after, p);
    case OfferExchange(_) => UpdateKeepsAll(r, after, p);
    case CompleteExchange(q, _) =>
      if BaseKeysComparable(q.ourBase, q.theirBase) {
        StartKeepsAll(r, after, p);
      }
  }

  lemma {:induction false} RunKeepsAll(r: Record, ops: seq<Op>, p: SessionStructure -> bool)
    requires Sized(r) && All(r, p) && Stable(p)
    requires forall i :: 0 <= i < |ops| ==> Admits(ops[i], p)
    ensures All(RunRecord(r, ops), p) && Sized(RunRecord(r, ops))
    decreases |ops|
  {
    if |ops| != 0 {
      OpKeepsSize(r, ops[0]);
      OpKeepsAll(r, ops[0], p);
      RunKeepsAll(After(r, ops[0]), ops[1..], p);
    }
  }

  // ----- soundness of the record -----

  lemma SoundIsAdmitted(op: Op)
    ensures Admits(op, Sound)
  {
    forall s, m, ourNew | Sound(s) ensures Sound(Decrypt(s, m, ourNew).state) {
      DecryptIsSound(s, m, ourNew);
    }
  }

  /** Every record that operations build is sound: its chains are tidy and store only keys the ratchet derived. */
  lemma {:induction false} RecordsStaySound(r: Record, ops: seq<Op>)
    requires Sized(r) && SoundRecord(r)
    ensures SoundRecord(RunRecord(r, ops)) && Sized(RunRecord(r, ops))
  {
    forall i | 0 <= i < |ops| ensures Admits(ops[i], Sound) {
      SoundIsAdmitted(ops[i]);
    }
    RunKeepsAll(r, ops, Sound);
  }

  // ----- sessions of other master secrets -----

  /** The public keys whose agreements go into the master secret of the session that an operation starts. */
  function SecretKeys(op: Op): set<PublicKey>
  {
    match op
    case Bundle(st, b, ourBase, _) =>
      {st.identityKeyPair.publicKey, ourBase.publicKey, b.identityKey}
      + (if b.signedPreKey.Some? then {b.signedPreKey.value} else {}) + if b.preKey.Some? then {b.preKey.value} else {}
    case ReceivePreKey(st, m, _) =>
      {st.identityKeyPair.publicKey, m.identityKey, m.baseKey}
      + (if m.signedPreKeyId in st.signedPreKeys then {st.signedPreKeys[m.signedPreKeyId].publicKey} else {})
      + if m.preKeyId.Some? && m.preKeyId.value in st.preKeys then {st.preKeys[m.preKeyId.value].publicKey} else {}
    case CompleteExchange(p, _) =>
      {p.ourBase.publicKey, p.ourIdentity.publicKey, p.theirBase, p.theirIdentity}
    case _ => {}
  }

  lemma {:induction false} AliceMentions(p: AliceParameters, key: PublicKey)
    ensures Mentions(AliceSecret(p), key) <==>
              || key in {p.theirSignedPreKey, p.ourIdentity.publicKey, p.theirIdentity, p.ourBase.publicKey}
              || p.theirOneTimePreKey == Some(key)
  {
    var parts := AliceSecret(p).parts;
    assert Mentions(parts[1], key) <==> key in {p.theirSignedPreKey, p.ourIdentity.publicKey};
    assert Mentions(parts[2], key) <==> key in {p.theirIdentity, p.ourBase.publicKey};
    assert Mentions(parts[3], key) <==> key in {p.theirSignedPreKey, p.ourBase.publicKey};
    if p.theirOneTimePreKey.Some? {
      assert Mentions(parts[4], key) <==> key in {p.theirOneTimePreKey.value, p.ourBase.publicKey};
    }
  }

  lemma {:induction false} BobMentions(p: BobParameters, key: PublicKey)
    ensures Mentions(BobSecret(p), key) <==>
              || key in {p.theirIdentity, p.ourSignedPreKey.publicKey, p.theirBase, p.ourIdentity.publicKey}
              || (p.ourOneTimePreKey.Some? && p.ourOneTimePreKey.value.publicKey == key)
  {
    var parts := BobSecret(p).parts;
    assert Mentions(parts[1], key) <==> key in {p.theirIdentity, p.ourSignedPreKey.publicKey};
    assert Mentions(parts[2], key) <==> key in {p.theirBase, p.ourIdentity.publicKey};
    assert Mentions(parts[3], key) <==> key in {p.theirBase, p.ourSignedPreKey.publicKey};
    if p.ourOneTimePreKey.Some? {
      assert Mentions(parts[4], key) <==> key in {p.theirBase, p.ourOneTimePreKey.value.publicKey};
    }
  }

  /** A state that neither grew from the master secret nor carries the key as its base key. */
  predicate Unrelated(s: SessionStructure, key: PublicKey, master: Term)
  {
    Foreign(s, master) && s.aliceBaseKey != Some(key)
  }

  lemma NewAliceIsForeign(p: AliceParameters, sending: KeyPair, master: Term)
    requires AliceSecret(p) != master
    ensures Foreign(InitializeAsAlice(EMPTY_STRUCTURE, p, sending), master)
  {
  }

  lemma NewBobIsForeign(p: BobParameters, master: Term)
    requires BobSecret(p) != master
    ensures Foreign(InitializeAsBob(EMPTY_STRUCTURE, p), master)
  {
  }

  lemma SameKeysAreForeign(s: SessionStructure, t: SessionStructure, master: Term)
    requires Foreign(s, master) && t.rootKey == s.rootKey && t.receiverChains == s.receiverChains
    ensures Foreign(t, master)
  {
  }

  /** A session that an operation starts without the key cannot have a master secret with it. */
  lemma {:induction false} NewSessionsAreUnrelated(op: Op, key: PublicKey, master: Term)
    requires key !in SecretKeys(op) && Mentions(master, key)
    ensures SessionOf(op).Some? ==> Unrelated(SessionOf(op).value, key, master)
  {
    hide Foreign, Mentions, AliceSecret, BobSecret;
    if SessionOf(op).Some? {
      match op
      case Bundle(st, b, ourBase, sending) =>
        var p := BundleParameters(st, b, ourBase);
        AliceMentions(p, key);
        NewAliceIsForeign(p, sending, master);
        SameKeysAreForeign(InitializeAsAlice(EMPTY_STRUCTURE, p, sending), SessionOf(op).value, master);
      case ReceivePreKey(st, m, _) =>
        var p := ReceivedParameters(st, m, OneTimePreKey(st, m.preKeyId).value);
        BobMentions(p, key);
        NewBobIsForeign(p, master);
        SameKeysAreForeign(InitializeAsBob(EMPTY_STRUCTURE, p), SessionOf(op).value, master);
      case CompleteExchange(p, sending) =>
        if IsAlice(p) {
          var a := AliceParameters(p.ourIdentity, p.ourBase, p.theirIdentity, p.theirBase, p.theirRatchet, None);
          AliceMentions(a, key);
          NewAliceIsForeign(a, sending, master);
        } else {
          var b := BobParameters(p.ourIdentity, p.ourBase, p.ourRatchet, None, p.theirIdentity, p.theirBase);
          BobMentions(b, key);
          NewBobIsForeign(b, master);
        }
      case _ =>
    }
  }

  lemma DecryptIsUnrelated(m: WhisperMessage, key: PublicKey, master: Term)
    ensures Keeps(m, s => Unrelated(s, key, master))
  {
    forall s, ourNew | Unrelated(s, key, master) ensures Unrelated(Decrypt(s, m, ourNew).state, key, master) {
      DecryptIsForeign(s, m, ourNew, master);
      DecryptKeepsName(s, m, ourNew);
    }
    hide Decrypt;
  }

  lemma {:induction false} UnrelatedIsAdmitted(op: Op, key: PublicKey, master: Term)
    requires key !in SecretKeys(op) && Mentions(master, key)
    ensures Admits(op, s => Unrelated(s, key, master))
  {
    hide Keeps, SessionOf, Unrelated, SecretKeys, Mentions;
    NewSessionsAreUnrelated(op, key, master);
    if op.ReceivePreKey? {
      DecryptIsUnrelated(op.preKey.message, key, master);
    } else if op.ReceiveWhisper? {
      DecryptIsUnrelated(op.message, key, master);
    }
  }

  /** Operations build the record, and none of them agrees on a secret with this key. */
  ghost predicate BuiltWithout(r: Record, key: PublicKey)
  {
    exists ops ::
      && RunRecord(NEW_RECORD, ops) == r
      && forall i :: 0 <= i < |ops| ==> key !in SecretKeys(ops[i])
  }

  /**
   A record that operations build without some key, such as a base key that was not yet generated, holds
   no session of that name, and nothing that was derived from a master secret with that key.
   */
  lemma {:induction false} RecordsStayForeign(r: Record, key: PublicKey, version: nat, master: Term)
    requires BuiltWithout(r, key) && master.Concat? && Mentions(master, key)
    ensures ForeignRecord(r, master)
    ensures !HoldsSession(r, version, key)
    ensures |r.previous| <= ARCHIVED_STATES_MAX_LENGTH
  {
    hide Decrypt, Mentions, SecretKeys;
    var p := s => Unrelated(s, key, master);
    assert States(NEW_RECORD) == [EMPTY_STRUCTURE];
    var ops :| && RunRecord(NEW_RECORD, ops) == r
               && forall i :: 0 <= i < |ops| ==> key !in SecretKeys(ops[i]);
    forall i | 0 <= i < |ops| ensures Admits(ops[i], p) {
      UnrelatedIsAdmitted(ops[i], key, master);
    }
    assert Stable(p);
    hide Stable, Admits, Foreign;
    RunKeepsAll(NEW_RECORD, ops, p);
  }

  // ----- ratchet keys that a record has not seen -----

  /** The ratchet keys of the other side that an operation brings. */
  function RatchetKeys(op: Op): set<PublicKey>
  {
    match op
    case Bundle(_, b, _, _) => if b.signedPreKey.Some? then {b.signedPreKey.value} else {}
    case ReceivePreKey(_, m, _) => {m.message.header.ratchetKey}
    case ReceiveWhisper(m, _) => {m.header.ratchetKey}
    case CompleteExchange(p, _) => {p.theirRatchet}
    case _ => {}
  }

  lemma OtherKeysAreAdmitted(op: Op, key: PublicKey)
    requires key !in RatchetKeys(op)
    ensures Admits(op, s => !HasChain(s, key))
  {
    forall s, m: WhisperMessage, ourNew | !HasChain(s, key) && m.header.ratchetKey != key
      ensures !HasChain(Decrypt(s, m, ourNew).state, key)
    {
      DecryptStartsOneChain(s, m, ourNew, key);
    }
    hide Decrypt;
  }

  /** A record that operations build without a ratchet key holds no chain for it. */
  lemma {:induction false} RatchetKeysStayNew(ops: seq<Op>, key: PublicKey)
    requires forall i :: 0 <= i < |ops| ==> key !in RatchetKeys(ops[i])
    ensures forall s :: s in States(RunRecord(NEW_RECORD, ops)) ==> !HasChain(s, key)
  {
    hide Decrypt, RatchetKeys;
    var p := s => !HasChain(s, key);
    assert States(NEW_RECORD) == [EMPTY_STRUCTURE];
    forall i | 0 <= i < |ops| ensures Admits(ops[i], p) {
      OtherKeysAreAdmitted(ops[i], key);
    }
    assert Stable(p);
    hide Stable, Admits;
    RunKeepsAll(NEW_RECORD, ops, p);
  }

  // ----- the search over whole runs -----

  /**
   Complete search, for every record that any run of operations leaves: a well-made message that some
   state can decrypt is decrypted exactly when no state in front of the first such one blocks it.
   */
  lemma {:induction false} SearchIsComplete(ops: seq<Op>, i: nat, m: WhisperMessage, ourNew: nat -> KeyPair)
    requires WellMade(m)
    requires i < |States(RunRecord(NEW_RECORD, ops))|
    requires AttemptAt(RunRecord(NEW_RECORD, ops), i, m, ourNew).answer.Ok?
    requires forall j :: 0 <= j < i ==> !AttemptAt(RunRecord(NEW_RECORD, ops), j, m, ourNew).answer.Ok?
    ensures var r := RunRecord(NEW_RECORD, ops);
            && (DecryptRecord(r, m, ourNew).answer.Ok? <==> forall j :: 0 <= j < i ==> !Blocks(States(r)[j], m))
            && (DecryptRecord(r, m, ourNew).answer.Ok? ==>
                  && DecryptRecord(r, m, ourNew).answer == AttemptAt(r, i, m, ourNew).answer
                  && Promoted(r, i, AttemptAt(r, i, m, ourNew).state, DecryptRecord(r, m, ourNew).record))
  {
    assert States(NEW_RECORD) == [EMPTY_STRUCTURE];
    RecordsStaySound(NEW_RECORD, ops);
    CompleteSearch(RunRecord(NEW_RECORD, ops), i, m, ourNew);
  }

  /** With a ratchet key that only one state holds, the message is decrypted, by the first state that can. */
  lemma ExclusiveKeyIsFound(ops: seq<Op>, i: nat, m: WhisperMessage, ourNew: nat -> KeyPair) returns (first: nat)
    requires WellMade(m)
    requires i < |States(RunRecord(NEW_RECORD, ops))|
    requires AttemptAt(RunRecord(NEW_RECORD, ops), i, m, ourNew).answer.Ok?
    requires var states := States(RunRecord(NEW_RECORD, ops));
             forall j :: 0 <= j < |states| && j != i ==> !HasChain(states[j], m.header.ratchetKey)
    ensures var r := RunRecord(NEW_RECORD, ops);
            && first <= i && FirstReader(r, first, m, ourNew)
            && DecryptRecord(r, m, ourNew).answer == AttemptAt(r, first, m, ourNew).answer
            && Promoted(r, first, AttemptAt(r, first, m, ourNew).state, DecryptRecord(r, m, ourNew).record)
  {
    assert States(NEW_RECORD) == [EMPTY_STRUCTURE];
    RecordsStaySound(NEW_RECORD, ops);
    first := ExclusiveKeysAreFound(RunRecord(NEW_RECORD, ops), i, m, ourNew);
  }

  // ----- the prekey phase -----

  /** Operations that start a session of our own making. */
  predicate Starts(op: Op)
  {
    op.Bundle? || op.CompleteExchange?
  }

  ghost predicate EverDecrypts(r: Record, ops: seq<Op>)
    decreases |ops|
  {
    |ops| != 0 && (Decrypts(r, ops[0]) || EverDecrypts(After(r, ops[0]), ops[1..]))
  }

  /**
   From a bundle on, and until the next session starts, what is sent is a prekey message exactly as
   long as nothing was decrypted on the record.
   */
  lemma {:induction false} PreKeyPhase(r: Record, ops: seq<Op>, plaintext: seq<byte>)
    requires RecordInv(r) && PermittedRun(r, ops)
    requires forall i :: 0 <= i < |ops| ==> !Starts(ops[i])
    ensures var last := RunRecord(r, ops).current;
            && (last.pendingPreKey.Some? <==> r.current.pendingPreKey.Some? && !EverDecrypts(r, ops))
            && (r.current.senderChain.Some? ==> last.senderChain.Some?)
            && (Encrypt(last, plaintext).Ok? <==> last.senderChain.Some?)
            && (Encrypt(last, plaintext).Ok? ==>
                  (Encrypt(last, plaintext).value.0.PreKey? <==> last.pendingPreKey.Some?))
    decreases |ops|
  {
    if |ops| != 0 {
      var op := ops[0];
      OpKeepsInv(r, op);
      OpAndPreKey(r, op);
      PreKeyPhase(After(r, op), ops[1..], plaintext);
    }
  }

  lemma OpAndPreKey(r: Record, op: Op)
    requires RecordInv(r) && Permitted(r, op)
    requires !Starts(op)
    ensures After(r, op).current.pendingPreKey == if Decrypts(r, op) then None else r.current.pendingPreKey
    ensures r.current.senderChain.Some? ==> After(r, op).current.senderChain.Some?
  {
    match op
    case ReceivePreKey(st, m, ourNew) =>
      if ProcessV3(r, st, m).Ok? {
        ProcessV3KeepsOrder(r, st, m);
        SearchKeepsOrder(ProcessV3(r, st, m).value.0, m.message, ourNew);
      }
    case ReceiveWhisper(m, ourNew) => SearchKeepsOrder(r, m, ourNew);
    case SendMessage(_) =>
    case OfferExchange(_) =>
  }

  lemma BundleOpensPreKeyPhase(r: Record, st: Stores, b: PreKeyBundle, ourBase: KeyPair, sending: KeyPair,
                               plaintext: seq<byte>)
    requires b.signedPreKey.Some?
    ensures var s := After(r, Bundle(st, b, ourBase, sending)).current;
            && Encrypt(s, plaintext).Ok? && Encrypt(s, plaintext).value.0.PreKey?
            && var m := Encrypt(s, plaintext).value.0.preKey;
               && m.baseKey == ourBase.publicKey && m.signedPreKeyId == b.signedPreKeyId
               && m.preKeyId == (if b.preKey.Some? then Some(b.preKeyId) else None)
               && m.identityKey == st.identityKeyPair.publicKey && m.registrationId == st.registrationId
               && s.remoteIdentity == b.identityKey && s.remoteRegistrationId == b.registrationId
  {
  }

  /**
   The prekey phase, wherever in a record's life a bundle is processed: from then on every message that
   is sent is a prekey message up to the first successful decryption, and a plain one afterwards.
   */
  lemma {:induction false} PreKeyPhaseAfterBundle(r: Record, earlier: seq<Op>, bundle: Op, ops: seq<Op>,
                                                  plaintext: seq<byte>)
    requires RecordInv(r) && PermittedRun(r, earlier) && bundle.Bundle? && bundle.bundle.signedPreKey.Some?
    requires Permitted(RunRecord(r, earlier), bundle)
    requires PermittedRun(After(RunRecord(r, earlier), bundle), ops)
    requires forall i :: 0 <= i < |ops| ==> !Starts(ops[i])
    ensures var started := After(RunRecord(r, earlier), bundle);
            var sent := Encrypt(RunRecord(started, ops).current, plaintext);
            sent.Ok? && (sent.value.0.PreKey? <==> !EverDecrypts(started, ops))
  {
    RecordsStayOrderly(r, earlier);
    OpKeepsInv(RunRecord(r, earlier), bundle);
    PreKeyPhase(After(RunRecord(r, earlier), bundle), ops, plaintext);
  }
}
