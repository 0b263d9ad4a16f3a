/**
 Two peers, set up by the Alice and Bob initialisers, that then send and receive in any order over a
 network that loses, reorders, duplicates and injects messages
 (axolotl/sessioncipher.py, axolotl/ratchet/rootkey.py, axolotl/ratchet/ratchetingsession.py).

 Ratchet keys are numbered in the order they are taken into use: number 0 is Bob's first, number 1
 Alice's. Odd epochs are Alice's, even ones Bob's.
 */
module Conversation {
  import opened Wrappers
  import opened Curve
  import opened Ratchet
  import opened SkippedKeys
  import opened Messages
  import opened SessionStates
  import opened SessionProtocol
  import opened RatchetingSession

  datatype Role = Alice | Bob

  /** History: the epoch and the plaintext of each message a peer sent. */
  datatype Sent = Sent(epoch: nat, message: WhisperMessage, plaintext: seq<byte>)

  /**
   More history: the number of the peer's current ratchet key, and the counters decrypted so far, by
   sender ratchet key.
   */
  datatype Peer = Peer(session: SessionStructure, sent: seq<Sent>, delivered: map<PublicKey, set<nat>>, epoch: nat)

  datatype System = System(alice: Peer, bob: Peer, keys: seq<PublicKey>)

  datatype Step =
    | Send(who: Role, plaintext: seq<byte>)
    | Deliver(who: Role, message: WhisperMessage, ourNew: KeyPair)

  function Other(who: Role): Role
  {
    if who == Alice then Bob else Alice
  }

  function At(sys: System, who: Role): Peer
  {
    if who == Alice then sys.alice else sys.bob
  }

  function Update(sys: System, who: Role, p: Peer): System
  {
    if who == Alice then sys.(alice := p) else sys.(bob := p)
  }

  function On(delivered: map<PublicKey, set<nat>>, key: PublicKey): set<nat>
  {
    if key in delivered then delivered[key] else {}
  }

  // ----- the machine: what the code does, and what history records -----

  /** The sender after Encrypt, if there is a sender chain. */
  function Sends(p: Peer, plaintext: seq<byte>): Peer
  {
    match Encrypt(p.session, plaintext)
    case Err(_) => p
    case Ok((m, s)) => p.(session := s, sent := p.sent + [Sent(p.epoch, Inner(m), plaintext)])
  }

  /** The receiver after a successful delivery; a ratchet step takes the next epoch number. */
  function Delivered(p: Peer, m: WhisperMessage, state: SessionStructure, next: nat): Peer
  {
    var key := m.header.ratchetKey;
    p.(session := state,
       delivered := p.delivered[key := On(p.delivered, key) + {m.header.counter}],
       epoch := if HasChain(p.session, key) then p.epoch else next)
  }

  function Apply(sys: System, step: Step): System
  {
    var p := At(sys, step.who);
    match step
    case Send(who, plaintext) => Update(sys, who, Sends(p, plaintext))
    case Deliver(who, m, ourNew) =>
      var attempt := Decrypt(p.session, m, ourNew);
      if !attempt.answer.Ok? then sys
      else Update(sys, who, Delivered(p, m, attempt.state, |sys.keys|)).(
        keys := if HasChain(p.session, m.header.ratchetKey) then sys.keys else sys.keys + [ourNew.publicKey])
  }

  predicate SentBy(p: Peer, m: WhisperMessage)
  {
    exists i :: 0 <= i < |p.sent| && p.sent[i].message == m
  }

  /** Generated keys are new, and whatever decrypts was sent by the peer: the network cannot forge. */
  ghost predicate Allowed(sys: System, step: Step)
  {
    step.Deliver? ==>
      && step.ourNew.publicKey !in sys.keys
      && (Decrypt(At(sys, step.who).session, step.message, step.ourNew).answer.Ok? ==>
            SentBy(At(sys, Other(step.who)), step.message))
  }

  ghost predicate Start(sys: System, master: Term)
  {
    && Established(sys.alice.session, sys.bob.session, master)
    && sys.alice.sent == sys.bob.sent == []
    && sys.alice.delivered == sys.bob.delivered == map[]
    && sys.alice.epoch == 1 && sys.bob.epoch == 0
    && sys.keys == [sys.bob.session.senderChain.value.ratchetKeyPair.publicKey,
                    sys.alice.session.senderChain.value.ratchetKeyPair.publicKey]
    && sys.keys[0] != sys.keys[1]
  }

  // ----- the common root chain -----

  /** Element i of the root chain that both peers walk along, and the chain seed born with it. */
  function Link(master: Term, keys: seq<PublicKey>, i: nat): RootAndChain
    requires i < |keys|
  {
    if i == 0 then CalculateDerivedKeys(master)
    else CreateChain(Link(master, keys, i - 1).rootKey, keys[i - 1], KeyPair(keys[i]))
  }

  function Seed(master: Term, keys: seq<PublicKey>, i: nat): Term
    requires i < |keys|
  {
    Link(master, keys, i).chainKey.key
  }

  lemma {:induction false} LinkDepth(master: Term, keys: seq<PublicKey>, i: nat)
    requires i < |keys|
    ensures RatchetDepth(Link(master, keys, i).rootKey) == RatchetDepth(Seed(master, keys, i)) == i
    ensures Link(master, keys, i).chainKey.index == 0
  {
    if i > 0 {
      LinkDepth(master, keys, i - 1);
    }
  }

  lemma {:induction false} LinkIsStable(master: Term, keys: seq<PublicKey>, k: PublicKey, i: nat)
    requires i < |keys|
    ensures Link(master, keys + [k], i) == Link(master, keys, i)
  {
    if i > 0 {
      LinkIsStable(master, keys, k, i - 1);
    }
  }

  // ----- the invariant -----

  /** How many receiver chains a peer at epoch e still has. */
  function Retained(e: nat): nat
  {
    if (e + 1) / 2 < MAX_RECEIVER_CHAINS then (e + 1) / 2 else MAX_RECEIVER_CHAINS
  }

  /** The epoch of the receiver chain at position i. */
  function ChainEpoch(e: nat, i: nat): (j: int)
    requires i < Retained(e)
    ensures 0 <= j < e
  {
    e + 1 - 2 * (Retained(e) - i)
  }

  /** A receiver chain for epoch j that handed out exactly what was delivered on it. */
  ghost predicate Follows(master: Term, keys: seq<PublicKey>, j: nat, c: ReceiverChain,
                          delivered: map<PublicKey, set<nat>>)
    requires j < |keys|
  {
    && c.ratchetKey == keys[j]
    && Tracks(c.chain, Seed(master, keys, j), 0, On(delivered, keys[j]), DeriveMessageKeys)
  }

  /** Nothing was delivered on keys later than epoch e. */
  ghost predicate DeliveredUpTo(keys: seq<PublicKey>, e: nat, delivered: map<PublicKey, set<nat>>)
  {
    && (forall k :: k in delivered ==> k in keys)
    && (forall j :: e < j < |keys| ==> keys[j] !in delivered)
  }

  ghost predicate Receiving(master: Term, keys: seq<PublicKey>, e: nat, chains: seq<ReceiverChain>,
                            delivered: map<PublicKey, set<nat>>)
    requires e < |keys|
  {
    && |chains| == Retained(e)
    && (forall i :: 0 <= i < |chains| ==> Follows(master, keys, ChainEpoch(e, i), chains[i], delivered))
    && DeliveredUpTo(keys, e, delivered)
  }

  ghost predicate Sending(master: Term, keys: seq<PublicKey>, e: nat, s: SessionStructure)
    requires e < |keys|
  {
    && s.rootKey == Link(master, keys, e).rootKey
    && s.senderChain.Some?
    && var sender := s.senderChain.value;
       && sender.ratchetKeyPair == KeyPair(keys[e])
       && sender.chainKey.key == Advance(Seed(master, keys, e), sender.chainKey.index)
  }

  /** A message is what its epoch's chain says it must be. */
  ghost predicate Authentic(master: Term, keys: seq<PublicKey>, e: nat, x: Sent, sender: PublicKey, receiver: PublicKey)
  {
    && x.epoch < |keys| && x.epoch <= e && x.epoch % 2 == e % 2
    && var h := x.message.header;
       x.message
           == NewWhisperMessage(CURRENT_VERSION, KeysAt(Seed(master, keys, x.epoch), 0, h.counter, DeriveMessageKeys),
                                      keys[x.epoch], h.counter, h.previousCounter, x.plaintext, sender, receiver)
  }

  ghost predicate PeerInv(master: Term, keys: seq<PublicKey>, p: Peer)
  {
    && p.epoch < |keys|
    && p.session.sessionVersion == CURRENT_VERSION
    && Sending(master, keys, p.epoch, p.session)
    && Receiving(master, keys, p.epoch, p.session.receiverChains, p.delivered)
    && forall i :: 0 <= i < |p.sent| ==>
         Authentic(master, keys, p.epoch, p.sent[i], p.session.localIdentity, p.session.remoteIdentity)
  }

  /** Two peers at neighbouring epochs, the later of which has the newest ratchet key. */
  ghost predicate PairInv(master: Term, keys: seq<PublicKey>, p: Peer, q: Peer)
  {
    && Distinct(keys)
    && p.epoch % 2 != q.epoch % 2
    && ((q.epoch == p.epoch + 1 && p.epoch + 2 == |keys|) || (p.epoch == q.epoch + 1 && q.epoch + 2 == |keys|))
    && p.session.localIdentity == q.session.remoteIdentity
    && q.session.localIdentity == p.session.remoteIdentity
    && PeerInv(master, keys, p)
    && PeerInv(master, keys, q)
  }

  ghost predicate Inv(sys: System, master: Term)
  {
    PairInv(master, sys.keys, sys.alice, sys.bob)
  }

  lemma StartInv(sys: System, master: Term)
    requires Start(sys, master)
    ensures Inv(sys, master)
  {
    var seed := Seed(master, sys.keys, 0);
    assert Link(master, sys.keys, 1)
           == CreateChain(Link(master, sys.keys, 0).rootKey, sys.keys[0], KeyPair(sys.keys[1]));
    FreshChainTracks(seed, 0, DeriveMessageKeys);
    assert sys.alice.session.receiverChains[0].chain == Chain(ChainKey(seed, 0), []);
  }

  // ----- one delivery -----

  /** Position of the chain of epoch j in the receiver list of a peer at epoch e. */
  lemma {:induction false} RetainedIsFound(keys: seq<PublicKey>, e: nat, chains: seq<ReceiverChain>, i: nat)
    requires e < |keys| && Distinct(keys) && |chains| == Retained(e) && i < |chains|
    requires forall k :: 0 <= k < |chains| ==> chains[k].ratchetKey == keys[ChainEpoch(e, k)]
    ensures FindChain(chains, keys[ChainEpoch(e, i)]) == Some(i)
  {
    assert chains[i].ratchetKey == keys[ChainEpoch(e, i)];
  }

  lemma {:induction false} NotRetainedIsNotFound(keys: seq<PublicKey>, e: nat, chains: seq<ReceiverChain>, j: nat)
    requires e < |keys| && Distinct(keys) && |chains| == Retained(e) && j < |keys|
    requires forall k :: 0 <= k < |chains| ==> chains[k].ratchetKey == keys[ChainEpoch(e, k)]
    requires forall k :: 0 <= k < |chains| ==> ChainEpoch(e, k) != j
    ensures FindChain(chains, keys[j]).None?
  {
  }

  predicate IsRetained(e: nat, j: nat)
  {
    j < e && e - j < 2 * Retained(e)
  }

  /** Decryption of an authentic message on a chain the receiver still has. */
  lemma DeliverRetained(master: Term, keys: seq<PublicKey>, e: nat, p: Peer, x: Sent, d: nat, i: nat, ourNew: KeyPair)
    requires e == p.epoch && d < |keys| && Distinct(keys) && PeerInv(master, keys, p)
    requires Authentic(master, keys, d, x, p.session.remoteIdentity, p.session.localIdentity)
    requires i < |p.session.receiverChains| && ChainEpoch(e, i) == x.epoch
    ensures var s, m := p.session, x.message;
            var c := s.receiverChains[i].chain;
            var r := Decrypt(s, m, ourNew);
            && HasChain(s, m.header.ratchetKey)
            && r.answer == (if m.header.counter in On(p.delivered, keys[x.epoch]) then Err(DuplicateMessage)
                            else if m.header.counter > c.chainKey.index + MAX_AHEAD then Err(InvalidMessage)
                            else Ok(x.plaintext))
            && (r.answer.Ok? ==>
                  var taken := Take(c, m.header.counter, Some(MAX_AHEAD), DeriveMessageKeys);
                  && taken.Taken?
                  && r.state == s.(receiverChains := s.receiverChains[i := ReceiverChain(keys[x.epoch], taken.chain)],
                                   pendingPreKey := None))
  {
    hide Take, Tracks, Link, Advance;
    var s, m := p.session, x.message;
    RetainedIsFound(keys, e, s.receiverChains, i);
    var c := s.receiverChains[i].chain;
    TakeIsExact(c, Seed(master, keys, x.epoch), 0, On(p.delivered, keys[x.epoch]), m.header.counter, Some(MAX_AHEAD),
                DeriveMessageKeys);
  }

  /** A message whose chain was evicted starts a chain with other keys, so its MAC never fits. */
  lemma DeliverEvicted(master: Term, keys: seq<PublicKey>, e: nat, p: Peer, x: Sent, d: nat, ourNew: KeyPair)
    requires e == p.epoch && d < |keys| && PeerInv(master, keys, p)
    requires Authentic(master, keys, d, x, p.session.remoteIdentity, p.session.localIdentity)
    requires !HasChain(p.session, keys[x.epoch]) && x.epoch <= e
    ensures Decrypt(p.session, x.message, ourNew).answer == Err(InvalidMessage)
  {
    hide Take, Receiving;
    var seed, counter := NewChain(p.session, keys[x.epoch]).key, x.message.header.counter;
    DecryptOnNewChain(p.session, x.message, ourNew);
    LinkDepth(master, keys, e);
    LinkDepth(master, keys, x.epoch);
    assert RatchetDepth(seed) == e + 1;
    if DeriveMessageKeys(Advance(seed, counter)).macKey == x.message.mac.macKey {
      AdvanceInjective(seed, Seed(master, keys, x.epoch), counter);
    }
  }

  /** The first message of the peer's next epoch makes the receiver take the same ratchet step, and one of its own. */
  lemma DeliverNext(master: Term, keys: seq<PublicKey>, e: nat, p: Peer, x: Sent, d: nat, ourNew: KeyPair)
    requires e == p.epoch && d < |keys| && PeerInv(master, keys, p)
    requires Authentic(master, keys, d, x, p.session.remoteIdentity, p.session.localIdentity)
    requires !HasChain(p.session, keys[x.epoch]) && x.epoch == e + 1
    ensures var s, counter := p.session, x.message.header.counter;
            var seed := ChainKey(Seed(master, keys, e + 1), 0);
            var taken := Take(Chain(seed, []), counter, Some(MAX_AHEAD), DeriveMessageKeys);
            var r := Decrypt(s, x.message, ourNew);
            && r.answer == (if counter > MAX_AHEAD then Err(InvalidMessage) else Ok(x.plaintext))
            && (r.answer.Ok? ==>
                  && NewChain(s, keys[e + 1]) == seed
                  && taken.Taken? && Tracks(taken.chain, seed.key, 0, {counter}, DeriveMessageKeys)
                  && r.state
                       == WithChain(GetOrCreateChain(s, keys[e + 1], ourNew), keys[e + 1], taken.chain).(
                         pendingPreKey := None))
  {
    hide Take, Advance;
    DecryptOnNewChain(p.session, x.message, ourNew);
    CreateChainAgrees(p.session.rootKey, KeyPair(keys[e]), KeyPair(keys[e + 1]));
  }

  // ----- every step keeps the invariant -----

  /** A new ratchet key changes nothing for a peer whose own chains do not use it. */
  lemma PeerInvIsStable(master: Term, keys: seq<PublicKey>, k: PublicKey, p: Peer)
    requires k !in keys && PeerInv(master, keys, p)
    ensures PeerInv(master, keys + [k], p)
  {
    var keys', e := keys + [k], p.epoch;
    LinkIsStable(master, keys, k, e);
    forall i | 0 <= i < |p.session.receiverChains|
      ensures Seed(master, keys', ChainEpoch(e, i)) == Seed(master, keys, ChainEpoch(e, i))
    {
      LinkIsStable(master, keys, k, ChainEpoch(e, i));
    }
    forall i | 0 <= i < |p.sent|
      ensures Authentic(master, keys', e, p.sent[i], p.session.localIdentity, p.session.remoteIdentity)
    {
      LinkIsStable(master, keys, k, p.sent[i].epoch);
    }
  }

  lemma SendKeepsPeer(master: Term, keys: seq<PublicKey>, p: Peer, plaintext: seq<byte>)
    requires PeerInv(master, keys, p)
    ensures Sends(p, plaintext).sent != p.sent && PeerInv(master, keys, Sends(p, plaintext))
  {
    LinkDepth(master, keys, p.epoch);
  }

  lemma RetainedDeliveryKeepsPeer(master: Term, keys: seq<PublicKey>, e: nat, p: Peer, i: nat, counter: nat,
                                  chain: Chain<MessageKeys>, after: Peer)
    requires e == p.epoch && Distinct(keys) && PeerInv(master, keys, p) && i < |p.session.receiverChains|
    requires var key := p.session.receiverChains[i].ratchetKey;
             && Tracks(chain, Seed(master, keys, ChainEpoch(e, i)), 0, On(p.delivered, key) + {counter},
                       DeriveMessageKeys)
             && var s := p.session;
                after == p.(session := s.(receiverChains := s.receiverChains[i := ReceiverChain(key, chain)],
                                          pendingPreKey := None),
                            delivered := p.delivered[key := On(p.delivered, key) + {counter}])
    ensures PeerInv(master, keys, after)
  {
    hide Tracks, Link, Advance;
    var chains, chains' := p.session.receiverChains, after.session.receiverChains;
    var key := chains[i].ratchetKey;
    forall k | 0 <= k < |chains'|
      ensures Follows(master, keys, ChainEpoch(e, k), chains'[k], after.delivered)
    {
      if k != i {
        assert ChainEpoch(e, k) != ChainEpoch(e, i);
        assert chains'[k] == chains[k] && chains[k].ratchetKey != key;
        assert On(after.delivered, chains[k].ratchetKey) == On(p.delivered, chains[k].ratchetKey);
      }
    }
  }

  /** Two epochs later the kept chains have moved to the front and one more follows. */
  lemma RetainedGrows(e: nat)
    ensures Retained(e + 2) == if Retained(e) < MAX_RECEIVER_CHAINS then Retained(e) + 1 else MAX_RECEIVER_CHAINS
    ensures ChainEpoch(e + 2, Retained(e + 2) - 1) == e + 1
  {
  }

  /** A kept chain does not notice the new keys. */
  lemma KeptChain(master: Term, keys: seq<PublicKey>, k: PublicKey, j: nat, c: ReceiverChain,
                  delivered: map<PublicKey, set<nat>>, counter: nat)
    requires j + 1 < |keys| && Distinct(keys) && Follows(master, keys, j, c, delivered)
    ensures Follows(master, keys + [k], j, c, delivered[keys[|keys| - 1] := {counter}])
  {
    LinkIsStable(master, keys, k, j);
    assert On(delivered[keys[|keys| - 1] := {counter}], keys[j]) == On(delivered, keys[j]);
  }

  lemma NextEpochReceiving(master: Term, keys: seq<PublicKey>, e: nat, chains: seq<ReceiverChain>,
                           delivered: map<PublicKey, set<nat>>,
                           k: PublicKey, counter: nat, chain: Chain<MessageKeys>, chains': seq<ReceiverChain>)
    requires e + 2 == |keys| && Distinct(keys) && k !in keys && Receiving(master, keys, e, chains, delivered)
    requires Tracks(chain, Seed(master, keys, e + 1), 0, {counter}, DeriveMessageKeys)
    requires var kept := if |chains| < MAX_RECEIVER_CHAINS then chains else chains[1..];
             chains' == kept + [ReceiverChain(keys[e + 1], chain)]
    ensures Receiving(master, keys + [k], e + 2, chains', delivered[keys[e + 1] := {counter}])
  {
    hide Tracks, Link;
    RetainedGrows(e);
    LinkIsStable(master, keys, k, e + 1);
    var shift := if |chains| < MAX_RECEIVER_CHAINS then 0 else 1;
    forall i | 0 <= i < |chains'|
      ensures Follows(master, keys + [k], ChainEpoch(e + 2, i), chains'[i], delivered[keys[e + 1] := {counter}])
    {
      if i < |chains'| - 1 {
        assert chains'[i] == chains[i + shift] && ChainEpoch(e + 2, i) == ChainEpoch(e, i + shift);
        KeptChain(master, keys, k, ChainEpoch(e, i + shift), chains[i + shift], delivered, counter);
      }
    }
  }

  lemma NextEpochSending(master: Term, keys: seq<PublicKey>, e: nat, s: SessionStructure, ourNew: KeyPair)
    requires e + 2 == |keys| && Sending(master, keys, e, s) && !HasChain(s, keys[e + 1])
    ensures Sending(master, keys + [ourNew.publicKey], e + 2, GetOrCreateChain(s, keys[e + 1], ourNew))
  {
    var keys' := keys + [ourNew.publicKey];
    CreateChainAgrees(s.rootKey, KeyPair(keys[e]), KeyPair(keys[e + 1]));
    LinkIsStable(master, keys, ourNew.publicKey, e + 1);
    assert Link(master, keys', e + 2) == CreateChain(Link(master, keys', e + 1).rootKey, keys[e + 1], ourNew);
  }

  /** The receiver list after a ratchet step and the first delivery on the new chain. */
  lemma NextChains(s: SessionStructure, key: PublicKey, ourNew: KeyPair, chain: Chain<MessageKeys>)
    requires s.senderChain.Some? && !HasChain(s, key)
    ensures var chains := s.receiverChains;
            WithChain(GetOrCreateChain(s, key, ourNew), key, chain).receiverChains
              == (if |chains| < MAX_RECEIVER_CHAINS then chains else chains[1..]) + [ReceiverChain(key, chain)]
  {
    AddedChainIsFound(s.receiverChains, key, NewChain(s, key));
  }

  lemma NextDeliveryKeepsPeer(master: Term, keys: seq<PublicKey>, e: nat, p: Peer, ourNew: KeyPair, counter: nat,
                              chain: Chain<MessageKeys>, after: Peer)
    requires e == p.epoch && e + 2 == |keys| && Distinct(keys) && PeerInv(master, keys, p) && ourNew.publicKey !in keys
    requires !HasChain(p.session, keys[e + 1])
    requires Tracks(chain, Seed(master, keys, e + 1), 0, {counter}, DeriveMessageKeys)
    requires var stepped := GetOrCreateChain(p.session, keys[e + 1], ourNew);
             after == p.(session := WithChain(stepped, keys[e + 1], chain).(pendingPreKey := None),
                         delivered := p.delivered[keys[e + 1] := On(p.delivered, keys[e + 1]) + {counter}],
                         epoch := e + 2)
    ensures PeerInv(master, keys + [ourNew.publicKey], after)
  {
    hide Tracks, Link, Advance;
    NextChains(p.session, keys[e + 1], ourNew, chain);
    assert On(p.delivered, keys[e + 1]) + {counter} == {counter};
    NextEpochReceiving(master, keys, e, p.session.receiverChains, p.delivered, ourNew.publicKey, counter, chain,
                       after.session.receiverChains);
    NextEpochSending(master, keys, e, p.session, ourNew);
    PeerInvIsStable(master, keys, ourNew.publicKey, p);
  }

  /** The receiver list holds exactly the chains of the last five epochs of the peer that this one has seen. */
  lemma RetainedChains(master: Term, keys: seq<PublicKey>, e: nat, p: Peer, j: nat) returns (i: nat)
    requires e == p.epoch && Distinct(keys) && PeerInv(master, keys, p)
    requires j < |keys| && j % 2 != e % 2
    ensures HasChain(p.session, keys[j]) <==> IsRetained(e, j)
    ensures IsRetained(e, j) ==>
              && i < |p.session.receiverChains| && ChainEpoch(e, i) == j
              && ChainOf(p.session, keys[j]) == p.session.receiverChains[i].chain
  {
    hide Tracks, Link, Advance, Sending, Authentic, DeliveredUpTo;
    i := 0;
    var chains := p.session.receiverChains;
    if IsRetained(e, j) {
      i := Retained(e) - (e + 1 - j) / 2;
      assert ChainEpoch(e, i) == j;
      RetainedIsFound(keys, e, chains, i);
    } else {
      NotRetainedIsNotFound(keys, e, chains, j);
    }
  }

  /** What a peer answers to an authentic message of the other one. */
  function Verdict(p: Peer, x: Sent): Result<seq<byte>, Failure>
  {
    var key, counter := x.message.header.ratchetKey, x.message.header.counter;
    var ahead := if HasChain(p.session, key) then ChainOf(p.session, key).chainKey.index + MAX_AHEAD else MAX_AHEAD;
    if x.epoch <= p.epoch && !IsRetained(p.epoch, x.epoch) then Err(InvalidMessage)
    else if counter in On(p.delivered, key) then Err(DuplicateMessage)
    else if counter > ahead then Err(InvalidMessage)
    else Ok(x.plaintext)
  }

  lemma VerdictIsGiven(master: Term, keys: seq<PublicKey>, p: Peer, q: Peer, i: nat, ourNew: KeyPair)
    requires PairInv(master, keys, p, q) && i < |q.sent|
    ensures var x := q.sent[i];
            && x.epoch < |keys| && x.message.header.ratchetKey == keys[x.epoch]
            && (HasChain(p.session, keys[x.epoch]) <==> IsRetained(p.epoch, x.epoch))
            && Decrypt(p.session, x.message, ourNew).answer == Verdict(p, x)
            && (x.message.header.counter in On(p.delivered, keys[x.epoch]) ==> !Verdict(p, x).Ok?)
  {
    var x, e, d := q.sent[i], p.epoch, q.epoch;
    var at := RetainedChains(master, keys, e, p, x.epoch);
    if IsRetained(e, x.epoch) {
      DeliverRetained(master, keys, e, p, x, d, at, ourNew);
    } else if x.epoch <= e {
      DeliverEvicted(master, keys, e, p, x, d, ourNew);
    } else {
      DeliverNext(master, keys, e, p, x, d, ourNew);
    }
  }

  lemma DeliverRetainedKeepsPeer(master: Term, keys: seq<PublicKey>, p: Peer, q: Peer, i: nat, ourNew: KeyPair,
                                 attempt: Attempt)
    requires PairInv(master, keys, p, q) && i < |q.sent| && IsRetained(p.epoch, q.sent[i].epoch)
    requires attempt == Decrypt(p.session, q.sent[i].message, ourNew) && attempt.answer.Ok?
    ensures PeerInv(master, keys, Delivered(p, q.sent[i].message, attempt.state, |keys|))
  {
    var x := q.sent[i];
    var at := RetainedChains(master, keys, p.epoch, p, x.epoch);
    var c, counter := p.session.receiverChains[at].chain, x.message.header.counter;
    DeliverRetained(master, keys, p.epoch, p, x, q.epoch, at, ourNew);
    TakeIsExact(c, Seed(master, keys, x.epoch), 0, On(p.delivered, keys[x.epoch]), counter, Some(MAX_AHEAD),
                DeriveMessageKeys);
    RetainedDeliveryKeepsPeer(master, keys, p.epoch, p, at, counter,
                              Take(c, counter, Some(MAX_AHEAD), DeriveMessageKeys).chain,
                              Delivered(p, x.message, attempt.state, |keys|));
  }

  lemma DeliverNextKeepsPeer(master: Term, keys: seq<PublicKey>, e: nat, p: Peer, x: Sent, d: nat, ourNew: KeyPair,
                             attempt: Attempt)
    requires e == p.epoch && e + 2 == |keys| && d < |keys| && Distinct(keys) && PeerInv(master, keys, p)
    requires ourNew.publicKey !in keys
    requires Authentic(master, keys, d, x, p.session.remoteIdentity, p.session.localIdentity)
    requires x.epoch == e + 1 && !HasChain(p.session, keys[e + 1])
    requires attempt == Decrypt(p.session, x.message, ourNew) && attempt.answer.Ok?
    ensures PeerInv(master, keys + [ourNew.publicKey], Delivered(p, x.message, attempt.state, e + 2))
  {
    hide Decrypt, Tracks, Link, Take;
    var counter := x.message.header.counter;
    DeliverNext(master, keys, e, p, x, d, ourNew);
    var taken := Take(Chain(ChainKey(Seed(master, keys, e + 1), 0), []), counter, Some(MAX_AHEAD), DeriveMessageKeys);
    NextDeliveryKeepsPeer(master, keys, e, p, ourNew, counter, taken.chain,
                          Delivered(p, x.message, attempt.state, e + 2));
  }

  lemma DecryptKeepsIdentities(s: SessionStructure, m: WhisperMessage, ourNew: KeyPair)
    ensures var r := Decrypt(s, m, ourNew).state;
            r.localIdentity == s.localIdentity && r.remoteIdentity == s.remoteIdentity
  {
  }

  lemma NextEpochIsDistinct(keys: seq<PublicKey>, k: PublicKey, e: nat)
    requires Distinct(keys) && k !in keys && e + 2 == |keys|
    ensures Distinct(keys + [k]) && |keys| % 2 == e % 2
  {
  }

  /** The pair after one of the two stayed in its epoch, or moved on to the next one of its own. */
  lemma UpdatedPair(master: Term, keys: seq<PublicKey>, p: Peer, q: Peer, after: Peer)
    requires PairInv(master, keys, p, q) && after.epoch == p.epoch && PeerInv(master, keys, after)
    requires after.session.localIdentity == p.session.localIdentity
    requires after.session.remoteIdentity == p.session.remoteIdentity
    ensures PairInv(master, keys, after, q)
  {
  }

  lemma NextEpochPair(master: Term, keys: seq<PublicKey>, k: PublicKey, p: Peer, q: Peer, after: Peer)
    requires PairInv(master, keys, p, q) && k !in keys && q.epoch == p.epoch + 1
    requires after.epoch == p.epoch + 2 && PeerInv(master, keys + [k], after)
    requires after.session.localIdentity == p.session.localIdentity
    requires after.session.remoteIdentity == p.session.remoteIdentity
    ensures PairInv(master, keys + [k], after, q)
  {
    NextEpochIsDistinct(keys, k, p.epoch);
    PeerInvIsStable(master, keys, k, q);
  }

  /** A successful delivery keeps the invariant; the receiver is two epochs on if it took a ratchet step. */
  lemma DeliverKeepsPair(master: Term, keys: seq<PublicKey>, p: Peer, q: Peer, i: nat, ourNew: KeyPair,
                         attempt: Attempt)
    requires PairInv(master, keys, p, q) && i < |q.sent| && ourNew.publicKey !in keys
    requires attempt == Decrypt(p.session, q.sent[i].message, ourNew) && attempt.answer.Ok?
    ensures var m := q.sent[i].message;
            PairInv(master, if HasChain(p.session, m.header.ratchetKey) then keys else keys + [ourNew.publicKey],
                    Delivered(p, m, attempt.state, |keys|), q)
  {
    hide Decrypt, Tracks, Link, Advance, Receiving, Sending, Distinct;
    var x := q.sent[i];
    VerdictIsGiven(master, keys, p, q, i, ourNew);
    DecryptKeepsIdentities(p.session, x.message, ourNew);
    if IsRetained(p.epoch, x.epoch) {
      DeliverRetainedKeepsPeer(master, keys, p, q, i, ourNew, attempt);
      UpdatedPair(master, keys, p, q, Delivered(p, x.message, attempt.state, |keys|));
    } else {
      DeliverNextKeepsPeer(master, keys, p.epoch, p, x, q.epoch, ourNew, attempt);
      NextEpochPair(master, keys, ourNew.publicKey, p, q, Delivered(p, x.message, attempt.state, p.epoch + 2));
    }
  }

  lemma PairInvIsSymmetric(master: Term, keys: seq<PublicKey>, p: Peer, q: Peer)
    requires PairInv(master, keys, p, q)
    ensures PairInv(master, keys, q, p)
  {
  }

  lemma SendStepKeepsPair(master: Term, sys: System, who: Role, plaintext: seq<byte>, p: Peer, q: Peer)
    requires p == At(sys, who) && q == At(sys, Other(who)) && PairInv(master, sys.keys, p, q)
    ensures var after := Apply(sys, Send(who, plaintext));
            At(after, Other(who)) == q && PairInv(master, after.keys, At(after, who), q)
  {
    SendKeepsPeer(master, sys.keys, p, plaintext);
  }

  /** What a delivery step does to the two peers and the list of keys. */
  lemma DeliverStepMeans(sys: System, step: Step, p: Peer, q: Peer)
    requires step.Deliver? && p == At(sys, step.who) && q == At(sys, Other(step.who))
    ensures var after := Apply(sys, step);
            && At(after, Other(step.who)) == q
            && (if Decrypt(p.session, step.message, step.ourNew).answer.Ok? then
                  && At(after, step.who)
                       == Delivered(p, step.message, Decrypt(p.session, step.message, step.ourNew).state, |sys.keys|)
                  && after.keys == if HasChain(p.session, step.message.header.ratchetKey) then sys.keys
                                   else sys.keys + [step.ourNew.publicKey]
                else after == sys)
  {
  }

  lemma DeliverStepKeepsPair(master: Term, sys: System, step: Step, p: Peer, q: Peer)
    requires step.Deliver? && p == At(sys, step.who) && q == At(sys, Other(step.who))
    requires PairInv(master, sys.keys, p, q) && Allowed(sys, step)
    ensures var after := Apply(sys, step);
            At(after, Other(step.who)) == q && PairInv(master, after.keys, At(after, step.who), q)
  {
    DeliverStepMeans(sys, step, p, q);
    if Decrypt(p.session, step.message, step.ourNew).answer.Ok? {
      var i :| 0 <= i < |q.sent| && q.sent[i].message == step.message;
      DeliverKeepsPair(master, sys.keys, p, q, i, step.ourNew, Decrypt(p.session, step.message, step.ourNew));
    }
  }

  lemma StepKeepsPair(master: Term, sys: System, step: Step, p: Peer, q: Peer)
    requires p == At(sys, step.who) && q == At(sys, Other(step.who))
    requires PairInv(master, sys.keys, p, q) && Allowed(sys, step)
    ensures var after := Apply(sys, step);
            At(after, Other(step.who)) == q && PairInv(master, after.keys, At(after, step.who), q)
  {
    match step
    case Send(who, plaintext) => SendStepKeepsPair(master, sys, who, plaintext, p, q);
    case Deliver(_, _, _) => DeliverStepKeepsPair(master, sys, step, p, q);
  }

  lemma StepKeepsInv(sys: System, master: Term, step: Step)
    requires Inv(sys, master) && Allowed(sys, step)
    ensures Inv(Apply(sys, step), master)
  {
    var after := Apply(sys, step);
    if step.who == Alice {
      StepKeepsPair(master, sys, step, sys.alice, sys.bob);
    } else {
      PairInvIsSymmetric(master, sys.keys, sys.alice, sys.bob);
      StepKeepsPair(master, sys, step, sys.bob, sys.alice);
      PairInvIsSymmetric(master, after.keys, after.bob, after.alice);
    }
  }

  // ----- whole runs -----

  function Run(sys: System, steps: seq<Step>): System
    decreases |steps|
  {
    if steps == [] then sys else Run(Apply(sys, steps[0]), steps[1..])
  }

  ghost predicate AllowedRun(sys: System, steps: seq<Step>)
    decreases |steps|
  {
    steps == [] || (Allowed(sys, steps[0]) && AllowedRun(Apply(sys, steps[0]), steps[1..]))
  }

  lemma {:induction false} RunKeepsInv(sys: System, master: Term, steps: seq<Step>)
    requires Inv(sys, master) && AllowedRun(sys, steps)
    ensures Inv(Run(sys, steps), master)
    decreases |steps|
  {
    if steps != [] {
      StepKeepsInv(sys, master, steps[0]);
      RunKeepsInv(Apply(sys, steps[0]), master, steps[1..]);
    }
  }

  /** A reachable state, seen from either peer. */
  lemma {:induction false} Reachable(start: System, master: Term, steps: seq<Step>, who: Role)
    requires Start(start, master) && AllowedRun(start, steps)
    ensures var sys := Run(start, steps); PairInv(master, sys.keys, At(sys, who), At(sys, Other(who)))
  {
    StartInv(start, master);
    RunKeepsInv(start, master, steps);
    var sys := Run(start, steps);
    PairInvIsSymmetric(master, sys.keys, sys.alice, sys.bob);
  }

  /**
   Two-party ratchet agreement, in every reachable state: the root keys are neighbours on one root
   chain, and every receiver chain, like the sender chain of the peer whose ratchet key it carries,
   grew from the seed that chain of root keys has for its epoch.
   */
  lemma {:induction false} RatchetsAgree(start: System, master: Term, steps: seq<Step>, who: Role)
    requires Start(start, master) && AllowedRun(start, steps)
    ensures var sys := Run(start, steps);
            var p, q := At(sys, who), At(sys, Other(who));
            var s, t := p.session, q.session;
            && (p.epoch == q.epoch + 1 || q.epoch == p.epoch + 1) && p.epoch < |sys.keys| && q.epoch < |sys.keys|
            && s.rootKey == Link(master, sys.keys, p.epoch).rootKey
            && t.rootKey == Link(master, sys.keys, q.epoch).rootKey
            && t.senderChain.Some? && t.senderChain.value.ratchetKeyPair.publicKey == sys.keys[q.epoch]
            && t.senderChain.value.chainKey.key
                 == Advance(Seed(master, sys.keys, q.epoch), t.senderChain.value.chainKey.index)
            && |s.receiverChains| == Retained(p.epoch)
            && forall i :: 0 <= i < |s.receiverChains| ==>
                 && s.receiverChains[i].ratchetKey == sys.keys[ChainEpoch(p.epoch, i)]
                 && s.receiverChains[i].chain.chainKey.key
                      == Advance(Seed(master, sys.keys, ChainEpoch(p.epoch, i)),
                                 s.receiverChains[i].chain.chainKey.index)
  {
    Reachable(start, master, steps, who);
  }

  /**
   Decryption correctness, in every reachable state. What a peer answers to message number i of the
   other one depends only on history: whether its chain is among the last five, whether it was
   delivered before, and how far ahead it lies. A plaintext is the one that was sent, and no message
   is delivered twice, evicted chains included.
   */
  lemma {:induction false} EveryDeliveryIsExact(start: System, master: Term, steps: seq<Step>, who: Role, i: nat,
                                                ourNew: KeyPair)
    requires Start(start, master) && AllowedRun(start, steps)
    requires i < |At(Run(start, steps), Other(who)).sent|
    ensures var sys := Run(start, steps);
            var p, x := At(sys, who), At(sys, Other(who)).sent[i];
            var key := x.message.header.ratchetKey;
            && Decrypt(p.session, x.message, ourNew).answer == Verdict(p, x)
            && (HasChain(p.session, key) <==> IsRetained(p.epoch, x.epoch))
            && (x.message.header.counter in On(p.delivered, key) ==> !Decrypt(p.session, x.message, ourNew).answer.Ok?)
  {
    Reachable(start, master, steps, who);
    var sys := Run(start, steps);
    VerdictIsGiven(master, sys.keys, At(sys, who), At(sys, Other(who)), i, ourNew);
  }

  /** A MAC names its sender and receiver, so it does not fit with the two exchanged. */
  lemma WrongDirectionIsRefused(s: SessionStructure, m: WhisperMessage, macKey: Term, ourNew: KeyPair)
    requires s.localIdentity != s.remoteIdentity && m.header.version >= 3
    requires m.mac == GetMac(s.localIdentity, s.remoteIdentity, macKey, m.header)
    ensures Decrypt(s, m, ourNew).answer.Err?
  {
  }

  /** What a peer sent itself is refused when the network sends it back, in every reachable state. */
  lemma {:induction false} ReflectionIsRefused(start: System, master: Term, steps: seq<Step>, who: Role, i: nat,
                                               ourNew: KeyPair)
    requires Start(start, master) && AllowedRun(start, steps)
    requires i < |At(Run(start, steps), who).sent|
    ensures var p := At(Run(start, steps), who);
            p.session.localIdentity != p.session.remoteIdentity ==>
              Decrypt(p.session, p.sent[i].message, ourNew).answer.Err?
  {
    Reachable(start, master, steps, who);
    var p := At(Run(start, steps), who);
    if p.session.localIdentity != p.session.remoteIdentity {
      OwnMessageIsRefused(master, Run(start, steps).keys, p, i, ourNew);
    }
  }

  // ----- why the network cannot forge -----

  lemma {:induction false} LinkMaster(master: Term, keys: seq<PublicKey>, i: nat)
    requires i < |keys|
    ensures MasterOf(Link(master, keys, i).rootKey) == MasterOf(Seed(master, keys, i)) == master
  {
    if i > 0 {
      LinkMaster(master, keys, i - 1);
    }
  }

  lemma KeysOfMaster(master: Term, keys: seq<PublicKey>, i: nat, counter: nat)
    requires i < |keys|
    ensures MasterOf(KeysAt(Seed(master, keys, i), 0, counter, DeriveMessageKeys).macKey) == master
  {
    var seed := Seed(master, keys, i);
    LinkMaster(master, keys, i);
    AdvanceKeepsMaster(seed, counter);
    DerivationsKeepMaster(seed, NO_KEY, KeyPair(NO_KEY), Advance(seed, counter));
  }

  /** What the peers send is made under the master secret they share. */
  lemma SentIsMade(master: Term, keys: seq<PublicKey>, d: nat, x: Sent, sender: PublicKey, receiver: PublicKey)
    requires Authentic(master, keys, d, x, sender, receiver)
    ensures x.message.mac.Mac? && MadeUnder(x.message, master)
  {
    KeysOfMaster(master, keys, x.epoch, x.message.header.counter);
  }

  /**
   And nothing else is ever read: a message that decrypts is what a peer makes of this plaintext in the
   present version with keys of the master secret, and it names the peer as sender and the reader as receiver.
   */
  lemma ReadIsMade(master: Term, keys: seq<PublicKey>, p: Peer, m: WhisperMessage, ourNew: KeyPair)
    returns (made: MessageKeys)
    requires PeerInv(master, keys, p) && Decrypt(p.session, m, ourNew).answer.Ok?
    ensures MasterOf(made.macKey) == master
    ensures m == NewWhisperMessage(CURRENT_VERSION, made, m.header.ratchetKey, m.header.counter,
                                   m.header.previousCounter, Decrypt(p.session, m, ourNew).answer.value,
                                   p.session.remoteIdentity, p.session.localIdentity)
    ensures m.mac.Mac? && MadeUnder(m, master)
  {
    var s, key, counter := p.session, m.header.ratchetKey, m.header.counter;
    DecryptedState(s, m, ourNew);
    var s1 := GetOrCreateChain(s, key, ourNew);
    made := Take(ChainOf(s1, key), counter, Some(MAX_AHEAD), DeriveMessageKeys).keys;
    if HasChain(s, key) {
      var i := FindChain(s.receiverChains, key).value;
      var j := ChainEpoch(p.epoch, i);
      assert Follows(master, keys, j, s.receiverChains[i], p.delivered);
      TakeIsExact(ChainOf(s, key), Seed(master, keys, j), 0, On(p.delivered, keys[j]), counter, Some(MAX_AHEAD),
                  DeriveMessageKeys);
      KeysOfMaster(master, keys, j, counter);
    } else {
      DecryptOnNewChain(s, m, ourNew);
      LinkMaster(master, keys, p.epoch);
      var seed := NewChain(s, key).key;
      AdvanceKeepsMaster(seed, counter);
      DerivationsKeepMaster(s.rootKey, key, s.senderChain.value.ratchetKeyPair, Advance(seed, counter));
    }
  }

  /**
   Keys of the master secret are known to the two peers alone: a delivered message whose MAC was made
   under one of them was sent by one of the two. Nothing is said about any other message.
   */
  predicate Unforged(sys: System, master: Term, step: Step)
  {
    step.Deliver? ==>
      && step.ourNew.publicKey !in sys.keys
      && (step.message.mac.Mac? && MadeUnder(step.message, master) ==>
            SentBy(sys.alice, step.message) || SentBy(sys.bob, step.message))
  }

  ghost predicate UnforgedRun(sys: System, master: Term, steps: seq<Step>)
    decreases |steps|
  {
    steps == [] || (Unforged(sys, master, steps[0]) && UnforgedRun(Apply(sys, steps[0]), master, steps[1..]))
  }

  lemma OwnMessageIsRefused(master: Term, keys: seq<PublicKey>, p: Peer, i: nat, ourNew: KeyPair)
    requires PeerInv(master, keys, p) && i < |p.sent| && p.session.localIdentity != p.session.remoteIdentity
    ensures Decrypt(p.session, p.sent[i].message, ourNew).answer.Err?
  {
    var x := p.sent[i];
    assert Authentic(master, keys, p.epoch, x, p.session.localIdentity, p.session.remoteIdentity);
    WrongDirectionIsRefused(p.session, x.message, x.message.mac.macKey, ourNew);
  }

  lemma UnforgedIsAllowed(sys: System, master: Term, step: Step)
    requires Inv(sys, master) && Unforged(sys, master, step)
    requires sys.alice.session.localIdentity != sys.alice.session.remoteIdentity
    ensures Allowed(sys, step)
  {
    hide PeerInv;
    if step.Deliver? {
      var p := At(sys, step.who);
      if Decrypt(p.session, step.message, step.ourNew).answer.Ok? {
        var _ := ReadIsMade(master, sys.keys, p, step.message, step.ourNew);
        if SentBy(p, step.message) {
          var i :| 0 <= i < |p.sent| && p.sent[i].message == step.message;
          OwnMessageIsRefused(master, sys.keys, p, i, step.ourNew);
        }
        assert SentBy(At(sys, Other(step.who)), step.message);
      }
    }
  }

  lemma StepKeepsIdentities(sys: System, step: Step)
    ensures var after := Apply(sys, step);
            && after.alice.session.localIdentity == sys.alice.session.localIdentity
            && after.alice.session.remoteIdentity == sys.alice.session.remoteIdentity
  {
    if step.Deliver? {
      DecryptKeepsIdentities(At(sys, step.who).session, step.message, step.ourNew);
    }
  }

  /**
   Over whole runs: if the identities differ and nobody else makes MACs under keys of the master secret,
   the run is allowed, whatever else the network delivers, replays or reflects. So every result about
   allowed runs holds of it.
   */
  lemma {:induction false} UnforgedRunIsAllowed(sys: System, master: Term, steps: seq<Step>)
    requires Inv(sys, master) && UnforgedRun(sys, master, steps)
    requires sys.alice.session.localIdentity != sys.alice.session.remoteIdentity
    ensures AllowedRun(sys, steps)
    decreases |steps|
  {
    if steps != [] {
      UnforgedIsAllowed(sys, master, steps[0]);
      StepKeepsInv(sys, master, steps[0]);
      StepKeepsIdentities(sys, steps[0]);
      UnforgedRunIsAllowed(Apply(sys, steps[0]), master, steps[1..]);
    }
  }
}
