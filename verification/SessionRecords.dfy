/**
 A record: the current session and up to forty archived ones
 (axolotl/state/sessionrecord.py), and the search of a record for the session
 that can read a message (axolotl/sessioncipher.py).
 */
module SessionRecords {
  import opened Wrappers
  import opened Curve
  import opened Ratchet
  import opened Messages
  import opened SessionStates
  import opened SessionProtocol

  const ARCHIVED_STATES_MAX_LENGTH := 40

  datatype Record = Record(current: SessionStructure, previous: seq<SessionStructure>, isFresh: bool)

  const NEW_RECORD := Record(EMPTY_STRUCTURE, [], true)

  function States(r: Record): seq<SessionStructure>
  {
    [r.current] + r.previous
  }

  /** A serialised key is never empty, so it never equals a base key field that was not set. */
  predicate Matches(s: SessionStructure, version: nat, aliceBaseKey: PublicKey)
  {
    Version(s) == version && s.aliceBaseKey == Some(aliceBaseKey)
  }

  predicate HoldsSession(r: Record, version: nat, aliceBaseKey: PublicKey)
  {
    exists s :: s in States(r) && Matches(s, version, aliceBaseKey)
  }

  function Promote(r: Record, promoted: SessionStructure): Record
  {
    var grown := [r.current] + r.previous;
    r.(current := promoted,
       previous := if |grown| > ARCHIVED_STATES_MAX_LENGTH then grown[..|grown| - 1] else grown)
  }

  function ArchiveCurrent(r: Record): Record
  {
    Promote(r, EMPTY_STRUCTURE)
  }

  function Without(previous: seq<SessionStructure>, i: nat): seq<SessionStructure>
    requires i < |previous|
  {
    previous[..i] + previous[i + 1..]
  }

  // ----- the search -----

  datatype Found = Found(answer: Result<seq<byte>, Failure>, record: Record)

  /** ourNew(i) is the key pair that attempt i generates if it needs one. */
  function DecryptPrevious(r: Record, i: nat, m: WhisperMessage, ourNew: nat -> KeyPair): Found
    decreases |r.previous| - i
  {
    if i >= |r.previous| then Found(Err(InvalidMessage), r)
    else
      var attempt := Decrypt(r.previous[i], m, ourNew(i + 1));
      match attempt.answer
      case Ok(_) => Found(attempt.answer, Promote(r.(previous := Without(r.previous, i)), attempt.state))
      case Err(InvalidMessage) => DecryptPrevious(r, i + 1, m, ourNew)
      case Err(_) => Found(attempt.answer, r)
  }

  function DecryptRecord(r: Record, m: WhisperMessage, ourNew: nat -> KeyPair): Found
  {
    var attempt := Decrypt(r.current, m, ourNew(0));
    match attempt.answer
    case Ok(_) => Found(attempt.answer, r.(current := attempt.state))
    case Err(InvalidMessage) => DecryptPrevious(r, 0, m, ourNew)
    case Err(_) => Found(attempt.answer, r)
  }

  /** Attempt i of the search, counting the current state as attempt 0. */
  function AttemptAt(r: Record, i: nat, m: WhisperMessage, ourNew: nat -> KeyPair): Attempt
    requires i < |States(r)|
  {
    Decrypt(States(r)[i], m, ourNew(i))
  }

  /** The search stops at attempt i: everything before it answered InvalidMessage, it did not. */
  ghost predicate StopsAt(r: Record, i: nat, m: WhisperMessage, ourNew: nat -> KeyPair)
  {
    && i < |States(r)|
    && AttemptAt(r, i, m, ourNew).answer != Err(InvalidMessage)
    && forall j :: 0 <= j < i ==> AttemptAt(r, j, m, ourNew).answer == Err(InvalidMessage)
  }

  lemma {:induction false} DecryptPreviousStops(r: Record, i: nat, m: WhisperMessage, ourNew: nat -> KeyPair)
    requires i <= |r.previous|
    requires forall j :: 0 <= j <= i ==> AttemptAt(r, j, m, ourNew).answer == Err(InvalidMessage)
    ensures var found := DecryptPrevious(r, i, m, ourNew);
            || (&& found == Found(Err(InvalidMessage), r)
                && forall j :: 0 <= j < |States(r)| ==> AttemptAt(r, j, m, ourNew).answer == Err(InvalidMessage))
            || (exists k :: i < k < |States(r)| && StopsAt(r, k, m, ourNew)
                            && found.answer == AttemptAt(r, k, m, ourNew).answer
                            && found.record
                                 == if !found.answer.Ok? then r
                                    else Promote(r.(previous := Without(r.previous, k - 1)),
                                                 AttemptAt(r, k, m, ourNew).state))
    decreases |r.previous| - i
  {
    hide Decrypt;
    if i < |r.previous| {
      assert States(r)[i + 1] == r.previous[i];
      if AttemptAt(r, i + 1, m, ourNew).answer == Err(InvalidMessage) {
        DecryptPreviousStops(r, i + 1, m, ourNew);
      } else {
        assert StopsAt(r, i + 1, m, ourNew);
      }
    }
  }

  /** What the record looks like after state number i decrypted and became current. */
  ghost predicate Promoted(before: Record, i: nat, state: SessionStructure, after: Record)
    requires i < |States(before)|
  {
    && after.current == state
    && after.isFresh == before.isFresh
    && |after.previous| == |before.previous|
    && after.previous == if i == 0 then before.previous else [before.current] + Without(before.previous, i - 1)
  }

  /**
   Search with promotion: the search answers what the first state that does not call the message
   invalid answers. On success that state, updated, is current, the old current is the first
   archived one, it alone left the archive, and the archive keeps its size. On any failure, even
   after attempts that advanced ratchets and stored keys, the record is as it was.
   */
  lemma SearchAndPromotion(r: Record, m: WhisperMessage, ourNew: nat -> KeyPair)
    requires |r.previous| <= ARCHIVED_STATES_MAX_LENGTH
    ensures var found := DecryptRecord(r, m, ourNew);
            && (!found.answer.Ok? ==> found.record == r)
            && (found.answer == Err(InvalidMessage) <==>
                  forall i :: 0 <= i < |States(r)| ==> AttemptAt(r, i, m, ourNew).answer == Err(InvalidMessage))
            && (forall i :: StopsAt(r, i, m, ourNew) ==>
                  && found.answer == AttemptAt(r, i, m, ourNew).answer
                  && (found.answer.Ok? ==> Promoted(r, i, AttemptAt(r, i, m, ourNew).state, found.record)))
  {
    hide Decrypt;
    assert States(r)[0] == r.current;
    if AttemptAt(r, 0, m, ourNew).answer == Err(InvalidMessage) {
      DecryptPreviousStops(r, 0, m, ourNew);
    } else {
      assert StopsAt(r, 0, m, ourNew);
    }
    forall i, j | StopsAt(r, i, m, ourNew) && StopsAt(r, j, m, ourNew) ensures i == j {
      OneStop(r, i, j, m, ourNew);
    }
  }

  lemma OneStop(r: Record, i: nat, j: nat, m: WhisperMessage, ourNew: nat -> KeyPair)
    requires StopsAt(r, i, m, ourNew) && StopsAt(r, j, m, ourNew)
    ensures i == j
  {
    hide AttemptAt;
  }

  /** A search that does not fail as invalid stops at some state. */
  lemma SearchStops(r: Record, m: WhisperMessage, ourNew: nat -> KeyPair) returns (i: nat)
    requires |r.previous| <= ARCHIVED_STATES_MAX_LENGTH && DecryptRecord(r, m, ourNew).answer != Err(InvalidMessage)
    ensures StopsAt(r, i, m, ourNew)
  {
    SearchAndPromotion(r, m, ourNew);
    i :| i < |States(r)| && AttemptAt(r, i, m, ourNew).answer != Err(InvalidMessage);
    if exists k :: 0 <= k < i && AttemptAt(r, k, m, ourNew).answer != Err(InvalidMessage) {
      i := FirstStop(r, i, m, ourNew);
    }
  }

  predicate SoundRecord(r: Record)
  {
    forall i :: 0 <= i < |States(r)| ==> Sound(States(r)[i])
  }

  /** Nothing that the record holds was derived from the master secret. */
  predicate ForeignRecord(r: Record, master: Term)
  {
    forall i :: 0 <= i < |States(r)| ==> Foreign(States(r)[i], master)
  }

  /** Some property of every state of a record. */
  predicate All(r: Record, p: SessionStructure -> bool)
  {
    forall i :: 0 <= i < |States(r)| ==> p(States(r)[i])
  }

  /**
   Completeness of the search: a well-made message that some state can decrypt is decrypted exactly
   when no state in front of the first such one holds its chain and has used up its counter.
   */
  lemma CompleteSearch(r: Record, i: nat, m: WhisperMessage, ourNew: nat -> KeyPair)
    requires |r.previous| <= ARCHIVED_STATES_MAX_LENGTH && SoundRecord(r) && WellMade(m)
    requires i < |States(r)| && AttemptAt(r, i, m, ourNew).answer.Ok?
    requires forall j :: 0 <= j < i ==> !AttemptAt(r, j, m, ourNew).answer.Ok?
    ensures DecryptRecord(r, m, ourNew).answer.Ok? <==> forall j :: 0 <= j < i ==> !Blocks(States(r)[j], m)
    ensures DecryptRecord(r, m, ourNew).answer.Ok? ==>
              && DecryptRecord(r, m, ourNew).answer == AttemptAt(r, i, m, ourNew).answer
              && Promoted(r, i, AttemptAt(r, i, m, ourNew).state, DecryptRecord(r, m, ourNew).record)
  {
    hide Decrypt, Blocks;
    SearchAndPromotion(r, m, ourNew);
    forall j | 0 <= j < |States(r)|
      ensures AttemptAt(r, j, m, ourNew).answer == Err(DuplicateMessage) <==> Blocks(States(r)[j], m)
      ensures var answer := AttemptAt(r, j, m, ourNew).answer;
              answer.Ok? || answer.error in {InvalidMessage, DuplicateMessage}
    {
      DecryptFailures(States(r)[j], m, ourNew(j));
    }
    if forall j :: 0 <= j < i ==> !Blocks(States(r)[j], m) {
      assert StopsAt(r, i, m, ourNew);
    } else {
      var j := FirstStop(r, i, m, ourNew);
    }
  }

  lemma {:induction false} FirstStop(r: Record, i: nat, m: WhisperMessage, ourNew: nat -> KeyPair) returns (j: nat)
    requires i < |States(r)|
    requires exists k :: 0 <= k < i && AttemptAt(r, k, m, ourNew).answer != Err(InvalidMessage)
    ensures j < i && StopsAt(r, j, m, ourNew)
  {
    hide Decrypt;
    j := 0;
    while AttemptAt(r, j, m, ourNew).answer == Err(InvalidMessage)
      invariant j < i
      invariant forall k :: 0 <= k < j ==> AttemptAt(r, k, m, ourNew).answer == Err(InvalidMessage)
      decreases i - j
    {
      j := j + 1;
    }
  }

  /** The first state of the search that can decrypt the message. */
  ghost predicate FirstReader(r: Record, i: nat, m: WhisperMessage, ourNew: nat -> KeyPair)
  {
    && i < |States(r)| && AttemptAt(r, i, m, ourNew).answer.Ok?
    && forall j :: 0 <= j < i ==> !AttemptAt(r, j, m, ourNew).answer.Ok?
  }

  /** With ratchet keys that no two states share, whatever some state can decrypt is decrypted by the first that can. */
  lemma ExclusiveKeysAreFound(r: Record, i: nat, m: WhisperMessage, ourNew: nat -> KeyPair) returns (first: nat)
    requires |r.previous| <= ARCHIVED_STATES_MAX_LENGTH && SoundRecord(r) && WellMade(m)
    requires i < |States(r)| && AttemptAt(r, i, m, ourNew).answer.Ok?
    requires forall j :: 0 <= j < |States(r)| && j != i ==> !HasChain(States(r)[j], m.header.ratchetKey)
    ensures first <= i && FirstReader(r, first, m, ourNew)
    ensures DecryptRecord(r, m, ourNew).answer == AttemptAt(r, first, m, ourNew).answer
    ensures Promoted(r, first, AttemptAt(r, first, m, ourNew).state, DecryptRecord(r, m, ourNew).record)
  {
    first := i;
    while exists j :: 0 <= j < first && AttemptAt(r, j, m, ourNew).answer.Ok?
      invariant first <= i && AttemptAt(r, first, m, ourNew).answer.Ok?
      decreases first
    {
      var smaller: nat :| smaller < first && AttemptAt(r, smaller, m, ourNew).answer.Ok?;
      first := smaller;
    }
    CompleteSearch(r, first, m, ourNew);
  }

  /**
   Why the keys must be exclusive: a current state that holds the chain and has used up the counter ends
   the search with a duplicate, whatever the states behind it can read.
   */
  lemma UsedChainHidesSessions(r: Record, i: nat, m: WhisperMessage, ourNew: nat -> KeyPair)
    requires SoundRecord(r) && Blocks(r.current, m)
    requires 0 < i < |States(r)| && AttemptAt(r, i, m, ourNew).answer.Ok?
    ensures DecryptRecord(r, m, ourNew) == Found(Err(DuplicateMessage), r)
  {
    assert States(r)[0] == r.current;
    DecryptFailures(r.current, m, ourNew(0));
  }

  /** Archived states that call a message invalid make no difference: the record acts as its current session. */
  lemma ActsAsCurrentSession(r: Record, m: WhisperMessage, ourNew: nat -> KeyPair)
    requires |r.previous| <= ARCHIVED_STATES_MAX_LENGTH
    requires forall i :: 0 < i < |States(r)| ==> AttemptAt(r, i, m, ourNew).answer == Err(InvalidMessage)
    ensures DecryptRecord(r, m, ourNew)
            == Found(Decrypt(r.current, m, ourNew(0)).answer, r.(current := Receive(r.current, m, ourNew(0))))
  {
    SearchAndPromotion(r, m, ourNew);
    assert States(r)[0] == r.current;
    if Decrypt(r.current, m, ourNew(0)).answer != Err(InvalidMessage) {
      assert StopsAt(r, 0, m, ourNew);
    }
  }

  /**
   Archived states that never read the message: the record takes the plaintext and the state of its
   current session, or stays as it is.
   */
  lemma ActsAsCurrentReader(r: Record, m: WhisperMessage, ourNew: nat -> KeyPair)
    requires |r.previous| <= ARCHIVED_STATES_MAX_LENGTH
    requires forall i :: 0 < i < |States(r)| ==> !AttemptAt(r, i, m, ourNew).answer.Ok?
    ensures var attempt, found := Decrypt(r.current, m, ourNew(0)), DecryptRecord(r, m, ourNew);
            && found.record == r.(current := Receive(r.current, m, ourNew(0)))
            && (if attempt.answer.Ok? then found.answer == attempt.answer else found.answer.Err?)
  {
    assert States(r)[0] == r.current;
    SearchAndPromotion(r, m, ourNew);
    if Decrypt(r.current, m, ourNew(0)).answer.Ok? {
      assert StopsAt(r, 0, m, ourNew);
    } else if DecryptRecord(r, m, ourNew).answer.Ok? {
      var i := SearchStops(r, m, ourNew);
    }
  }

  // ----- the record as an object -----

  class SessionRecord {
    var sessionState: SessionState
    var previousStates: seq<SessionState>
    const isFresh: bool

    /** The current state is nobody's archived state, so updating it in place leaves the archive alone. */
    ghost predicate Valid()
      reads this
    {
      sessionState !in previousStates
    }

    ghost function View(): Record
      reads this, sessionState, previousStates
    {
      Record(sessionState.structure, Structures(previousStates), isFresh)
    }

    constructor ()
      ensures Valid() && fresh(sessionState) && View() == NEW_RECORD
    {
      sessionState := new SessionState();
      previousStates := [];
      isFresh := true;
    }

    /** Parsing a stored record builds new objects for all of its states. */
    constructor Parse(stored: Record)
      ensures Valid() && fresh(sessionState) && (forall s :: s in previousStates ==> fresh(s))
      ensures View() == stored.(isFresh := false)
    {
      sessionState := new SessionState.Parse(stored.current);
      previousStates := [];
      isFresh := false;
      new;
      for i := 0 to |stored.previous|
        invariant Valid() && fresh(sessionState) && sessionState.structure == stored.current
        invariant forall s :: s in previousStates ==> fresh(s)
        invariant |previousStates| == i && forall k :: 0 <= k < i ==> previousStates[k].structure == stored.previous[k]
      {
        var state := new SessionState.Parse(stored.previous[i]);
        previousStates := previousStates + [state];
      }
      assert Structures(previousStates) == stored.previous;
    }

    method HasSessionState(version: nat, aliceBaseKey: PublicKey) returns (r: bool)
      ensures r == HoldsSession(View(), version, aliceBaseKey)
    {
      assert States(View())[0] == sessionState.structure;
      if Matches(sessionState.structure, version, aliceBaseKey) {
        return true;
      }
      for i := 0 to |previousStates|
        invariant forall k :: 0 <= k < i ==> !Matches(previousStates[k].structure, version, aliceBaseKey)
      {
        assert States(View())[i + 1] == previousStates[i].structure;
        if Matches(previousStates[i].structure, version, aliceBaseKey) {
          return true;
        }
      }
      forall s | s in States(View()) ensures !Matches(s, version, aliceBaseKey) {
        var k :| 0 <= k < |States(View())| && States(View())[k] == s;
      }
      return false;
    }

    method PromoteState(promoted: SessionState)
      requires Valid() && promoted != sessionState && promoted !in previousStates
      modifies this
      ensures Valid() && sessionState == promoted
      ensures View() == Promote(old(View()), promoted.structure)
    {
      previousStates := [sessionState] + previousStates;
      sessionState := promoted;
      ghost var grown := States(old(View()));
      assert Structures(previousStates) == grown;
      if |previousStates| > ARCHIVED_STATES_MAX_LENGTH {
        previousStates := previousStates[..|previousStates| - 1];
        assert Structures(previousStates) == grown[..|grown| - 1];
      }
    }

    method ArchiveCurrentState()
      requires Valid()
      modifies this
      ensures Valid() && fresh(sessionState)
      ensures View() == ArchiveCurrent(old(View()))
    {
      var state := new SessionState();
      PromoteState(state);
    }

    method SetState(state: SessionState)
      requires Valid() && state !in previousStates
      modifies this
      ensures Valid() && sessionState == state
      ensures View() == old(View()).(current := state.structure)
    {
      sessionState := state;
    }

    /** `previousStates.pop(i)` on the list that the record itself holds. */
    method PopPrevious(i: nat)
      requires Valid() && i < |previousStates|
      modifies this`previousStates
      ensures Valid() && forall s :: s in previousStates ==> s in old(previousStates)
      ensures View() == old(View()).(previous := Without(old(View().previous), i))
    {
      previousStates := previousStates[..i] + previousStates[i + 1..];
    }
  }

  ghost function Structures(states: seq<SessionState>): (r: seq<SessionStructure>)
    reads states
    ensures |r| == |states| && forall i :: 0 <= i < |r| ==> r[i] == states[i].structure
  {
    seq(|states|, i requires 0 <= i < |states| reads states => states[i].structure)
  }
}
