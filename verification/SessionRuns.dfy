/**
 One session under any traffic whatever, authentic or not: what it never does with its sending keys,
 and what its receiver list is (axolotl/sessioncipher.py, axolotl/state/sessionstate.py).
 */
module SessionRuns {
  import opened Wrappers
  import opened Curve
  import opened Ratchet
  import opened SkippedKeys
  import opened Messages
  import opened SessionStates
  import opened SessionProtocol

  datatype Op = Send(plaintext: seq<byte>) | Receive(message: WhisperMessage, ourNew: KeyPair)

  /** Ratchet key and counter of a message that was sent. */
  datatype Position = Position(ratchetKey: PublicKey, counter: nat)

  /**
   A session with its history: positions it sent at and the previous counters it announced there, ratchet
   keys it opened receiver chains for, and its own ratchet keys.
   */
  datatype Trace = Trace(session: SessionStructure, sent: seq<Position>, announced: seq<nat>,
                         committed: seq<PublicKey>, own: seq<PublicKey>)

  function PositionOf(m: WhisperMessage): Position
  {
    Position(m.header.ratchetKey, m.header.counter)
  }

  function Next(t: Trace, op: Op): Trace
  {
    match op
    case Send(plaintext) =>
      (match Encrypt(t.session, plaintext)
       case Err(_) => t
       case Ok((m, s)) =>
         t.(session := s, sent := t.sent + [PositionOf(Inner(m))],
            announced := t.announced + [Inner(m).header.previousCounter]))
    case Receive(m, ourNew) =>
      if !Decrypt(t.session, m, ourNew).answer.Ok? then t
      else t.(session := SessionProtocol.Receive(t.session, m, ourNew),
              committed := if HasChain(t.session, m.header.ratchetKey) then t.committed
                           else t.committed + [m.header.ratchetKey],
              own := if HasChain(t.session, m.header.ratchetKey) then t.own else t.own + [ourNew.publicKey])
  }

  function Run(t: Trace, ops: seq<Op>): Trace
    decreases |ops|
  {
    if ops == [] then t else Run(Next(t, ops[0]), ops[1..])
  }

  /** Every generated key pair is new: different from the first one and from those generated before. */
  ghost predicate FreshKeys(first: PublicKey, ops: seq<Op>)
  {
    forall i :: 0 <= i < |ops| && ops[i].Receive? ==>
      ops[i].ourNew.publicKey != first
      && forall j :: 0 <= j < i && ops[j].Receive? ==> ops[j].ourNew != ops[i].ourNew
  }

  function CountKey(sent: seq<Position>, key: PublicKey): nat
  {
    if sent == [] then 0
    else CountKey(sent[..|sent| - 1], key) + if sent[|sent| - 1].ratchetKey == key then 1 else 0
  }

  /** Each counter says how many messages went out before under the same ratchet key. */
  ghost predicate Consecutive(sent: seq<Position>)
  {
    forall i :: 0 <= i < |sent| ==> sent[i].counter == CountKey(sent[..i], sent[i].ratchetKey)
  }

  lemma {:induction false} CountKeyMonotone(sent: seq<Position>, key: PublicKey, i: nat, j: nat)
    requires i <= j <= |sent|
    ensures CountKey(sent[..i], key) <= CountKey(sent[..j], key)
    ensures i < j && sent[i].ratchetKey == key ==> CountKey(sent[..i], key) < CountKey(sent[..j], key)
    decreases j - i
  {
    if i < j {
      assert sent[..j][..j - 1] == sent[..j - 1];
      CountKeyMonotone(sent, key, i, j - 1);
    }
  }

  /** Consecutive counters make positions distinct. */
  lemma ConsecutiveIsDistinct(sent: seq<Position>, i: nat, j: nat)
    requires Consecutive(sent) && i < j < |sent|
    ensures sent[i] != sent[j]
  {
    CountKeyMonotone(sent, sent[i].ratchetKey, i, j);
  }

  /** The last five elements, or all of them. */
  function LastFive(keys: seq<PublicKey>): seq<PublicKey>
  {
    if |keys| <= MAX_RECEIVER_CHAINS then keys else keys[|keys| - MAX_RECEIVER_CHAINS..]
  }

  function ChainKeys(chains: seq<ReceiverChain>): (r: seq<PublicKey>)
    ensures |r| == |chains| && forall i :: 0 <= i < |r| ==> r[i] == chains[i].ratchetKey
  {
    seq(|chains|, i requires 0 <= i < |chains| => chains[i].ratchetKey)
  }

  /** The receiver list holds the chains of the last five ratchet keys, none of them twice. */
  predicate ListInv(t: Trace)
  {
    && t.session.senderChain.Some?
    && ChainKeys(t.session.receiverChains) == LastFive(t.committed)
    && Distinct(LastFive(t.committed))
  }

  ghost predicate TraceInv(t: Trace, used: set<PublicKey>)
  {
    && t.session.senderChain.Some?
    && (forall i :: 0 <= i < |t.sent| ==> t.sent[i].ratchetKey in used)
    && Consecutive(t.sent)
    && var sender := t.session.senderChain.value;
       && sender.ratchetKeyPair.publicKey in used
       && sender.chainKey.index == CountKey(t.sent, sender.ratchetKeyPair.publicKey)
  }

  lemma {:induction false} UnusedKeyHasNoMessages(sent: seq<Position>, key: PublicKey)
    requires forall i :: 0 <= i < |sent| ==> sent[i].ratchetKey != key
    ensures CountKey(sent, key) == 0
  {
    if sent != [] {
      UnusedKeyHasNoMessages(sent[..|sent| - 1], key);
    }
  }

  lemma SendKeepsTrace(t: Trace, used: set<PublicKey>, plaintext: seq<byte>)
    requires TraceInv(t, used)
    ensures TraceInv(Next(t, Send(plaintext)), used)
  {
    var after := Next(t, Send(plaintext));
    var n := |t.sent|;
    assert after.sent[..n] == t.sent;
    forall i | 0 <= i < |after.sent|
      ensures after.sent[i].counter == CountKey(after.sent[..i], after.sent[i].ratchetKey)
    {
      if i < n {
        assert after.sent[..i] == t.sent[..i];
      }
    }
  }

  lemma LastFiveGrows(keys: seq<PublicKey>, key: PublicKey)
    ensures var kept := LastFive(keys);
            LastFive(keys + [key]) == (if |kept| < MAX_RECEIVER_CHAINS then kept else kept[1..]) + [key]
  {
  }

  lemma AddChainKeys(chains: seq<ReceiverChain>, key: PublicKey, chainKey: ChainKey)
    requires |chains| <= MAX_RECEIVER_CHAINS
    ensures var kept := ChainKeys(chains);
            ChainKeys(AddChain(chains, key, chainKey))
                == (if |kept| < MAX_RECEIVER_CHAINS then kept else kept[1..]) + [key]
  {
  }

  lemma DistinctGrows(kept: seq<PublicKey>, key: PublicKey)
    requires Distinct(kept) && key !in kept
    ensures Distinct(kept + [key])
  {
  }

  lemma {:induction false} AddChainIsLastFive(chains: seq<ReceiverChain>, committed: seq<PublicKey>, key: PublicKey,
                                              chainKey: ChainKey)
    requires ChainKeys(chains) == LastFive(committed) && Distinct(LastFive(committed)) && FindChain(chains, key).None?
    ensures ChainKeys(AddChain(chains, key, chainKey)) == LastFive(committed + [key])
    ensures Distinct(LastFive(committed + [key]))
  {
    var keys := ChainKeys(chains);
    LastFiveGrows(committed, key);
    AddChainKeys(chains, key, chainKey);
    assert key !in keys;
    DistinctGrows(if |keys| < MAX_RECEIVER_CHAINS then keys else keys[1..], key);
  }

  lemma ReceiveKeepsLists(t: Trace, m: WhisperMessage, ourNew: KeyPair)
    requires ListInv(t) && Decrypt(t.session, m, ourNew).answer.Ok?
    ensures ListInv(Next(t, Receive(m, ourNew)))
  {
    var key, chains := m.header.ratchetKey, t.session.receiverChains;
    var s1 := GetOrCreateChain(t.session, key, ourNew);
    var chain := Take(ChainOf(s1, key), m.header.counter, Some(MAX_AHEAD), DeriveMessageKeys).chain;
    assert Next(t, Receive(m, ourNew)).session.receiverChains == WithChain(s1, key, chain).receiverChains;
    assert ChainKeys(WithChain(s1, key, chain).receiverChains) == ChainKeys(s1.receiverChains);
    if !HasChain(t.session, key) {
      AddChainIsLastFive(chains, t.committed, key, NewChain(t.session, key));
    }
  }

  lemma ReceiveKeepsTrace(t: Trace, used: set<PublicKey>, m: WhisperMessage, ourNew: KeyPair)
    requires TraceInv(t, used) && ourNew.publicKey !in used
    ensures TraceInv(Next(t, Receive(m, ourNew)), used + {ourNew.publicKey})
  {
    if Decrypt(t.session, m, ourNew).answer.Ok? {
      UnusedKeyHasNoMessages(t.sent, ourNew.publicKey);
    }
  }

  lemma {:induction false} RunKeepsTrace(t: Trace, used: set<PublicKey>, ops: seq<Op>)
    returns (usedAfter: set<PublicKey>)
    requires TraceInv(t, used)
    requires forall i :: 0 <= i < |ops| && ops[i].Receive? ==> ops[i].ourNew.publicKey !in used
    requires forall i, j :: 0 <= j < i < |ops| && ops[i].Receive? && ops[j].Receive? ==> ops[j].ourNew != ops[i].ourNew
    ensures TraceInv(Run(t, ops), usedAfter)
    decreases |ops|
  {
    usedAfter := used;
    if ops != [] {
      var op, rest := ops[0], ops[1..];
      assert forall i :: 0 <= i < |rest| ==> rest[i] == ops[i + 1];
      match op
      case Send(plaintext) =>
        SendKeepsTrace(t, used, plaintext);
        usedAfter := RunKeepsTrace(Next(t, op), used, rest);
      case Receive(m, ourNew) =>
        ReceiveKeepsTrace(t, used, m, ourNew);
        usedAfter := RunKeepsTrace(Next(t, op), used + {ourNew.publicKey}, rest);
    }
  }

  /** A session as an initialiser leaves it. */
  ghost predicate Begins(t: Trace)
  {
    && t.session.senderChain.Some? && t.session.senderChain.value.chainKey.index == 0
    && t.sent == [] && t.committed == ChainKeys(t.session.receiverChains) && |t.committed| <= 1
    && t.session.previousCounter == 0 && t.announced == []
    && t.own == [t.session.senderChain.value.ratchetKeyPair.publicKey]
  }

  /**
   No sender key reuse: over any interleaving of encrypts and decrypts, whatever arrives, the positions
   put on messages are pairwise distinct, and the counters under one ratchet key count up from 0.
   */
  lemma {:induction false} NoSenderKeyReuse(t: Trace, ops: seq<Op>)
    requires Begins(t) && FreshKeys(t.session.senderChain.value.ratchetKeyPair.publicKey, ops)
    ensures var sent := Run(t, ops).sent;
            && (forall i, j :: 0 <= i < j < |sent| ==> sent[i] != sent[j])
            && (forall i :: 0 <= i < |sent| ==> sent[i].counter == CountKey(sent[..i], sent[i].ratchetKey))
  {
    var _ := RunKeepsTrace(t, {t.session.senderChain.value.ratchetKeyPair.publicKey}, ops);
    var sent := Run(t, ops).sent;
    forall i, j | 0 <= i < j < |sent| ensures sent[i] != sent[j] {
      ConsecutiveIsDistinct(sent, i, j);
    }
  }

  // ----- the previous counter -----

  /** The number of the last message under own ratchet key k - 1, or 0 if there is none. */
  function PreviousOf(sent: seq<Position>, own: seq<PublicKey>, k: nat): nat
    requires k < |own|
  {
    if k == 0 || CountKey(sent, own[k - 1]) == 0 then 0 else CountKey(sent, own[k - 1]) - 1
  }

  /** Every message announced what was sent under the own ratchet key before its own. */
  ghost predicate Announced(sent: seq<Position>, announced: seq<nat>, own: seq<PublicKey>)
  {
    && |announced| == |sent|
    && (forall i :: 0 <= i < |sent| ==> sent[i].ratchetKey in own)
    && forall i, k :: 0 <= i < |sent| && 0 <= k < |own| && sent[i].ratchetKey == own[k] ==>
         announced[i] == PreviousOf(sent, own, k)
  }

  ghost predicate PreviousInv(t: Trace)
  {
    && Distinct(t.own) && t.own != [] && t.session.senderChain.Some?
    && var sender := t.session.senderChain.value;
       && sender.ratchetKeyPair.publicKey == t.own[|t.own| - 1]
       && sender.chainKey.index == CountKey(t.sent, t.own[|t.own| - 1])
       && t.session.previousCounter == PreviousOf(t.sent, t.own, |t.own| - 1)
       && Announced(t.sent, t.announced, t.own)
  }

  lemma {:induction false} CountOneMore(sent: seq<Position>, p: Position, key: PublicKey)
    ensures CountKey(sent + [p], key) == CountKey(sent, key) + if p.ratchetKey == key then 1 else 0
  {
    assert (sent + [p])[..|sent|] == sent;
  }

  /** Sending under the last own key does not change what lies before it. */
  lemma OneMoreAnnounced(sent: seq<Position>, announced: seq<nat>, own: seq<PublicKey>, p: Position, previous: nat)
    requires Distinct(own) && own != [] && p.ratchetKey == own[|own| - 1] && Announced(sent, announced, own)
    requires previous == PreviousOf(sent, own, |own| - 1)
    ensures forall k :: 0 <= k < |own| ==> PreviousOf(sent + [p], own, k) == PreviousOf(sent, own, k)
    ensures Announced(sent + [p], announced + [previous], own)
  {
    hide CountKey;
    forall k | 0 <= k < |own| ensures PreviousOf(sent + [p], own, k) == PreviousOf(sent, own, k) {
      if k > 0 {
        CountOneMore(sent, p, own[k - 1]);
      }
    }
    hide PreviousOf;
  }

  lemma SendKeepsPrevious(t: Trace, plaintext: seq<byte>)
    requires PreviousInv(t)
    ensures PreviousInv(Next(t, Send(plaintext)))
  {
    hide CountKey, PreviousOf, Announced;
    var p := Next(t, Send(plaintext)).sent[|t.sent|];
    OneMoreAnnounced(t.sent, t.announced, t.own, p, t.session.previousCounter);
    CountOneMore(t.sent, p, t.own[|t.own| - 1]);
  }

  /** What a decryption does to the sending half of a session. */
  lemma ReceivedSender(s: SessionStructure, m: WhisperMessage, ourNew: KeyPair)
    requires Decrypt(s, m, ourNew).answer.Ok?
    ensures s.senderChain.Some?
    ensures var after, index := Decrypt(s, m, ourNew).state, s.senderChain.value.chainKey.index;
            if HasChain(s, m.header.ratchetKey) then
              after.senderChain == s.senderChain && after.previousCounter == s.previousCounter
            else
              && after.senderChain.Some? && after.senderChain.value.ratchetKeyPair == ourNew
              && after.senderChain.value.chainKey.index == 0
              && after.previousCounter == if index == 0 then 0 else index - 1
  {
    hide Take, VerifyMac, GetPlaintext;
  }

  lemma {:induction false} OneMoreKey(sent: seq<Position>, announced: seq<nat>, own: seq<PublicKey>, key: PublicKey)
    requires Announced(sent, announced, own) && Distinct(own) && key !in own
    ensures Distinct(own + [key]) && Announced(sent, announced, own + [key]) && CountKey(sent, key) == 0
  {
    UnusedKeyHasNoMessages(sent, key);
    hide CountKey;
    assert forall k :: 0 <= k < |own| ==> PreviousOf(sent, own + [key], k) == PreviousOf(sent, own, k);
    hide PreviousOf;
  }

  lemma ReceiveKeepsPrevious(t: Trace, m: WhisperMessage, ourNew: KeyPair)
    requires PreviousInv(t) && ourNew.publicKey !in t.own
    ensures PreviousInv(Next(t, Receive(m, ourNew)))
  {
    hide CountKey, Announced, Decrypt;
    if Decrypt(t.session, m, ourNew).answer.Ok? {
      ReceivedSender(t.session, m, ourNew);
      OneMoreKey(t.sent, t.announced, t.own, ourNew.publicKey);
    }
  }

  lemma {:induction false} RunKeepsPrevious(t: Trace, ops: seq<Op>)
    requires PreviousInv(t)
    requires forall i :: 0 <= i < |ops| && ops[i].Receive? ==> ops[i].ourNew.publicKey !in t.own
    requires forall i, j :: 0 <= j < i < |ops| && ops[i].Receive? && ops[j].Receive? ==> ops[j].ourNew != ops[i].ourNew
    ensures PreviousInv(Run(t, ops))
    decreases |ops|
  {
    hide PreviousInv, CountKey, Decrypt, Encrypt;
    if ops != [] {
      match ops[0] {
        case Send(plaintext) => SendKeepsPrevious(t, plaintext);
        case Receive(m, ourNew) => ReceiveKeepsPrevious(t, m, ourNew);
      }
      RunKeepsPrevious(Next(t, ops[0]), ops[1..]);
    }
  }

  lemma BeginsPrevious(t: Trace)
    requires Begins(t)
    ensures PreviousInv(t) && t.own == [t.session.senderChain.value.ratchetKeyPair.publicKey]
  {
  }

  lemma PreviousMeans(t: Trace, i: nat, k: nat)
    requires PreviousInv(t) && i < |t.sent| && k < |t.own| && t.sent[i].ratchetKey == t.own[k]
    ensures Distinct(t.own) && |t.announced| == |t.sent| && t.announced[i] == PreviousOf(t.sent, t.own, k)
  {
    hide CountKey, PreviousOf;
  }

  /**
   The previous counter of a message, over any run: under the first ratchet key it is 0, and under a later
   one the number of the last message that went out under the key before, or 0 if none did.
   */
  lemma {:induction false} PreviousCounters(t: Trace, ops: seq<Op>, i: nat, k: nat)
    requires Begins(t) && FreshKeys(t.session.senderChain.value.ratchetKeyPair.publicKey, ops)
    requires i < |Run(t, ops).sent| && k < |Run(t, ops).own|
    requires Run(t, ops).sent[i].ratchetKey == Run(t, ops).own[k]
    ensures var last := Run(t, ops);
            && Distinct(last.own) && |last.announced| == |last.sent|
            && (k == 0 ==> last.announced[i] == 0)
            && (k > 0 ==> var earlier := CountKey(last.sent, last.own[k - 1]);
                          last.announced[i] == if earlier == 0 then 0 else earlier - 1)
  {
    BeginsPrevious(t);
    hide Run, Begins, PreviousInv;
    RunKeepsPrevious(t, ops);
    PreviousMeans(Run(t, ops), i, k);
  }

  lemma {:induction false} RunKeepsLists(t: Trace, ops: seq<Op>)
    requires ListInv(t)
    ensures ListInv(Run(t, ops))
    decreases |ops|
  {
    if ops != [] {
      match ops[0] {
        case Send(_) =>
        case Receive(m, ourNew) =>
          if Decrypt(t.session, m, ourNew).answer.Ok? {
            ReceiveKeepsLists(t, m, ourNew);
          }
      }
      RunKeepsLists(Next(t, ops[0]), ops[1..]);
    }
  }

  /**
   The receiver list is a bounded map, whatever arrives and whatever keys are generated: the last five
   chains that were opened, in order, no ratchet key twice.
   */
  lemma {:induction false} ReceiverListIsLastFive(t: Trace, ops: seq<Op>)
    requires Begins(t)
    ensures var last := Run(t, ops);
            && |last.session.receiverChains| == |LastFive(last.committed)| <= 5
            && (|last.committed| >= 5 ==> |last.session.receiverChains| == 5)
            && (forall i :: 0 <= i < |last.session.receiverChains| ==>
                  last.session.receiverChains[i].ratchetKey == LastFive(last.committed)[i])
            && Distinct(LastFive(last.committed))
  {
    RunKeepsLists(t, ops);
  }
}
