/**
 Which session a full archive loses, over any run of operations on a record
 (axolotl/state/sessionrecord.py, axolotl/sessioncipher.py, axolotl/sessionbuilder.py).
 */
module ArchiveOrder {
  import opened Wrappers
  import opened Curve
  import opened Messages
  import opened SessionStates
  import opened SessionProtocol
  import opened SessionRecords
  import opened AxolotlStores
  import opened RatchetingSession
  import opened SessionBuilders
  import opened RecordRuns

  /**
   A new session goes in front of all others, in a full archive too: what was current is the first archived
   state, every other state moves back one place, and of 41 states only the last one is lost.
   */
  lemma NewSessionGoesFirst(r: Record, op: Op)
    requires Sized(r) && !r.isFresh && !op.ReceivePreKey? && Archives(r, op)
    ensures var before, after := States(r), States(After(r, op));
            && SessionOf(op) == Some(after[0])
            && |after| == (if |before| == 41 then 41 else |before| + 1)
            && after[1] == r.current
            && forall i :: 0 < i < |after| ==> after[i] == before[i - 1]
  {
  }

  /** The same for the record that a prekey message is decrypted on. */
  lemma NewSessionIsTriedFirst(r: Record, st: Stores, m: PreKeyWhisperMessage)
    requires Sized(r) && !r.isFresh && !HoldsSession(r, m.version, m.baseKey) && ProcessV3(r, st, m).Ok?
    ensures var before, after := States(r), States(ProcessV3(r, st, m).value.0);
            && |after| == (if |before| == 41 then 41 else |before| + 1)
            && after[1] == r.current
            && forall i :: 0 < i < |after| ==> after[i] == before[i - 1]
  {
    hide HoldsSession, InitializeAsBob;
  }

  /** Decryption read the message with an archived state and made it current, in front of the current one. */
  predicate Overtaken(r: Record, m: WhisperMessage, ourNew: nat -> KeyPair)
  {
    DecryptRecord(r, m, ourNew).answer.Ok? && !Decrypt(r.current, m, ourNew(0)).answer.Ok?
  }

  /** How many states the operation puts in front of others: a new session, or an archived one that read a message. */
  function Fronted(r: Record, op: Op): nat
  {
    (if Archives(r, op) then 1 else 0)
    + match op
      case ReceivePreKey(st, m, ourNew) =>
        if Decrypts(r, op) && Overtaken(ProcessV3(r, st, m).value.0, m.message, ourNew) then 1 else 0
      case ReceiveWhisper(m, ourNew) => if Overtaken(r, m, ourNew) then 1 else 0
      case _ => 0
  }

  ghost function FrontedBy(r: Record, ops: seq<Op>): nat
    decreases |ops|
  {
    if |ops| == 0 then 0 else Fronted(r, ops[0]) + FrontedBy(After(r, ops[0]), ops[1..])
  }

  /** State number i of a record has the property. */
  predicate At(r: Record, i: nat, p: SessionStructure -> bool)
  {
    i < |States(r)| && p(States(r)[i])
  }

  /** The messages of the operation keep the property. */
  ghost predicate Carries(op: Op, p: SessionStructure -> bool)
  {
    match op
    case ReceivePreKey(_, m, _) => Keeps(m.message, p)
    case ReceiveWhisper(m, _) => Keeps(m, p)
    case _ => true
  }

  /** Promotion moves the states in front of the promoted one back by one place. */
  lemma PromotionMovesBack(before: Record, k: nat, state: SessionStructure, after: Record, i: nat,
                           p: SessionStructure -> bool) returns (j: nat)
    requires k < |States(before)| && Promoted(before, k, state, after) && At(before, i, p)
    requires i == k ==> p(state)
    ensures At(after, j, p) && j <= if k > 0 then i + 1 else i
  {
    j := if i == k then 0 else if i < k then i + 1 else i;
    assert i != k ==> States(after)[j] == States(before)[i];
  }

  lemma SearchMovesBack(r: Record, m: WhisperMessage, ourNew: nat -> KeyPair, i: nat, p: SessionStructure -> bool)
    returns (j: nat)
    requires |r.previous| <= 40 && At(r, i, p) && Keeps(m, p)
    ensures At(DecryptRecord(r, m, ourNew).record, j, p)
    ensures j <= i + if Overtaken(r, m, ourNew) then 1 else 0
  {
    hide Decrypt, DecryptRecord, Promoted;
    j := i;
    SearchAndPromotion(r, m, ourNew);
    if DecryptRecord(r, m, ourNew).answer.Ok? {
      var k := SearchStops(r, m, ourNew);
      assert AttemptAt(r, 0, m, ourNew) == Decrypt(r.current, m, ourNew(0));
      j := PromotionMovesBack(r, k, AttemptAt(r, k, m, ourNew).state, DecryptRecord(r, m, ourNew).record, i, p);
    }
  }

  /** Storing the record moves nothing. */
  lemma StoredStates(r: Record)
    ensures States(r.(isFresh := false)) == States(r)
  {
  }

  lemma PreKeyMovesBack(r: Record, st: Stores, m: PreKeyWhisperMessage, ourNew: nat -> KeyPair, i: nat,
                        p: SessionStructure -> bool) returns (j: nat)
    requires Sized(r) && !r.isFresh && At(r, i, p) && Keeps(m.message, p)
    requires i + Fronted(r, ReceivePreKey(st, m, ourNew)) <= 40
    ensures At(After(r, ReceivePreKey(st, m, ourNew)), j, p)
    ensures j <= i + Fronted(r, ReceivePreKey(st, m, ourNew))
  {
    hide DecryptRecord, HoldsSession, InitializeAsBob, Decrypt;
    j := i;
    if Decrypts(r, ReceivePreKey(st, m, ourNew)) {
      var ready := ProcessV3(r, st, m).value.0;
      if !HoldsSession(r, m.version, m.baseKey) {
        NewSessionIsTriedFirst(r, st, m);
        j := i + 1;
      }
      assert At(ready, j, p);
      j := SearchMovesBack(ready, m.message, ourNew, j, p);
      StoredStates(DecryptRecord(ready, m.message, ourNew).record);
    }
  }

  lemma WhisperMovesBack(r: Record, m: WhisperMessage, ourNew: nat -> KeyPair, i: nat, p: SessionStructure -> bool)
    returns (j: nat)
    requires Sized(r) && At(r, i, p) && Keeps(m, p)
    ensures At(After(r, ReceiveWhisper(m, ourNew)), j, p)
    ensures j <= i + Fronted(r, ReceiveWhisper(m, ourNew))
  {
    hide DecryptRecord, Decrypt;
    j := i;
    if DecryptRecord(r, m, ourNew).answer.Ok? {
      j := SearchMovesBack(r, m, ourNew, i, p);
      StoredStates(DecryptRecord(r, m, ourNew).record);
    }
  }

  /** An operation moves a state back by no more than it puts in front; up to place 40 nothing is lost. */
  lemma OpMovesBack(r: Record, op: Op, i: nat, p: SessionStructure -> bool) returns (j: nat)
    requires Sized(r) && !r.isFresh && At(r, i, p) && Stable(p) && Carries(op, p)
    requires i + Fronted(r, op) <= 40
    ensures At(After(r, op), j, p) && j <= i + Fronted(r, op)
  {
    hide DecryptRecord, ProcessV3, InitializeAsAlice, Initialize;
    j := i;
    match op
    case ReceivePreKey(st, m, ourNew) => j := PreKeyMovesBack(r, st, m, ourNew, i, p);
    case ReceiveWhisper(m, ourNew) => j := WhisperMovesBack(r, m, ourNew, i, p);
    case SendMessage(_) => SameSessionMoves(r, After(r, op), i, p);
    case OfferExchange(_) => SameSessionMoves(r, After(r, op), i, p);
    case _ =>
      if Archives(r, op) {
        NewSessionGoesFirst(r, op);
        j := i + 1;
      }
  }

  lemma SameSessionMoves(r: Record, after: Record, i: nat, p: SessionStructure -> bool)
    requires At(r, i, p) && Stable(p) && after.previous == r.previous && SameKeys(r.current, after.current)
    ensures At(after, i, p)
  {
  }

  lemma StaysStored(r: Record, op: Op)
    requires Sized(r) && !r.isFresh
    ensures !After(r, op).isFresh
  {
  }

  /**
   Over any run, in full archives too: a state moves back by no more than the number of states that were put
   in front, and is held as long as it has not been pushed beyond place 40.
   */
  lemma {:induction false} RunMovesBack(r: Record, ops: seq<Op>, i: nat, p: SessionStructure -> bool)
    returns (j: nat)
    requires Sized(r) && !r.isFresh && At(r, i, p) && Stable(p)
    requires forall k :: 0 <= k < |ops| ==> Carries(ops[k], p)
    requires i + FrontedBy(r, ops) <= 40
    ensures At(RunRecord(r, ops), j, p) && j <= i + FrontedBy(r, ops)
    decreases |ops|
  {
    j := i;
    if |ops| != 0 {
      j := OpMovesBack(r, ops[0], i, p);
      OpKeepsSize(r, ops[0]);
      StaysStored(r, ops[0]);
      j := RunMovesBack(After(r, ops[0]), ops[1..], j, p);
    }
  }

  lemma NamesAreCarried(op: Op, version: nat, key: PublicKey)
    ensures Carries(op, s => Matches(s, version, key))
  {
    forall s, m, ourNew | Matches(s, version, key) ensures Matches(Decrypt(s, m, ourNew).state, version, key) {
      DecryptKeepsName(s, m, ourNew);
    }
    hide Decrypt;
  }

  /** So a session that was current survives every run that puts at most forty states in front of it. */
  lemma {:induction false} FortyInFront(r: Record, ops: seq<Op>, version: nat, key: PublicKey)
    requires Sized(r) && Matches(r.current, version, key) && FrontedBy(r, ops) <= 40
    ensures HoldsSession(RunRecord(r, ops), version, key)
  {
    var p := s => Matches(s, version, key);
    assert At(r, 0, p) && Stable(p);
    forall k | 0 <= k < |ops| ensures Carries(ops[k], p) {
      NamesAreCarried(ops[k], version, key);
    }
    var j := RunMovesBack(r, ops, 0, p);
  }
}
