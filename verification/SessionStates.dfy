/**
 One session's stored structure and the object that updates it in place
 (axolotl/state/sessionstate.py).
 */
module SessionStates {
  import opened Wrappers
  import opened Curve
  import opened Ratchet
  import opened SkippedKeys

  datatype SenderChain = SenderChain(ratchetKeyPair: KeyPair, chainKey: ChainKey)

  datatype ReceiverChain = ReceiverChain(ratchetKey: PublicKey, chain: Chain<MessageKeys>)

  datatype PendingPreKey = PendingPreKey(preKeyId: Option<nat>, signedPreKeyId: nat, baseKey: PublicKey)

  datatype PendingKeyExchange = PendingKeyExchange(sequence: nat, baseKey: KeyPair, ratchetKey: KeyPair,
                                                   identityKey: KeyPair)

  datatype SessionStructure = SessionStructure(
    sessionVersion: nat,
    localIdentity: PublicKey,
    remoteIdentity: PublicKey,
    rootKey: Term,
    previousCounter: nat,
    senderChain: Option<SenderChain>,
    receiverChains: seq<ReceiverChain>,
    pendingKeyExchange: Option<PendingKeyExchange>,
    pendingPreKey: Option<PendingPreKey>,
    remoteRegistrationId: nat,
    localRegistrationId: nat,
    aliceBaseKey: Option<PublicKey>)

  /** The default of the identity fields: no bytes. */
  const NO_KEY := DjbECPublicKey([])

  const EMPTY_STRUCTURE :=
    SessionStructure(0, NO_KEY, NO_KEY, Empty, 0, None, [], None, None, 0, 0, None)

  const MAX_RECEIVER_CHAINS := 5

  function Version(s: SessionStructure): nat
  {
    if s.sessionVersion == 0 then 2 else s.sessionVersion
  }

  function FindChain(chains: seq<ReceiverChain>, key: PublicKey): (r: Option<nat>)
    ensures r.Some? ==> r.value < |chains| && chains[r.value].ratchetKey == key
    ensures r.Some? ==> forall k :: 0 <= k < r.value ==> chains[k].ratchetKey != key
    ensures r.None? ==> forall k :: 0 <= k < |chains| ==> chains[k].ratchetKey != key
  {
    if chains == [] then None
    else if chains[0].ratchetKey == key then Some(0)
    else match FindChain(chains[1..], key)
         case None =>
           assert forall k :: 1 <= k < |chains| ==> chains[k] == chains[1..][k - 1];
           None
         case Some(k) =>
           assert forall j :: 1 <= j <= k ==> chains[j] == chains[1..][j - 1];
           Some(k + 1)
  }

  predicate HasChain(s: SessionStructure, key: PublicKey)
  {
    FindChain(s.receiverChains, key).Some?
  }

  function ChainOf(s: SessionStructure, key: PublicKey): Chain<MessageKeys>
    requires HasChain(s, key)
  {
    s.receiverChains[FindChain(s.receiverChains, key).value].chain
  }

  function WithChain(s: SessionStructure, key: PublicKey, chain: Chain<MessageKeys>): (r: SessionStructure)
    requires HasChain(s, key)
  {
    var i := FindChain(s.receiverChains, key).value;
    s.(receiverChains := s.receiverChains[i := ReceiverChain(key, chain)])
  }

  /** Replacing a chain keeps every ratchet key where it was. */
  lemma {:induction false} WithChainKeepsKeys(s: SessionStructure, key: PublicKey, chain: Chain<MessageKeys>)
    requires HasChain(s, key)
    ensures FindChain(WithChain(s, key, chain).receiverChains, key) == FindChain(s.receiverChains, key)
    ensures ChainOf(WithChain(s, key, chain), key) == chain
  {
    var i := FindChain(s.receiverChains, key).value;
    var r := WithChain(s, key, chain).receiverChains;
    assert forall k :: 0 <= k < |r| ==> r[k].ratchetKey == s.receiverChains[k].ratchetKey;
    assert r[i].ratchetKey == key;
  }

  /** Append a chain and let the oldest one go when there are more than five. */
  function AddChain(chains: seq<ReceiverChain>, key: PublicKey, chainKey: ChainKey): seq<ReceiverChain>
  {
    var grown := chains + [ReceiverChain(key, Chain(chainKey, []))];
    if |grown| > MAX_RECEIVER_CHAINS then grown[1..] else grown
  }

  /** A chain that was just added is found, at the end of the list. */
  lemma {:induction false} AddedChainIsFound(chains: seq<ReceiverChain>, key: PublicKey, chainKey: ChainKey)
    requires FindChain(chains, key).None?
    ensures var added := AddChain(chains, key, chainKey);
            FindChain(added, key) == Some(|added| - 1) && added[|added| - 1] == ReceiverChain(key, Chain(chainKey, []))
  {
    var added := AddChain(chains, key, chainKey);
    assert added[|added| - 1].ratchetKey == key;
    assert forall k :: 0 <= k < |added| - 1 ==> added[k].ratchetKey != key;
  }

  class SessionState {
    var structure: SessionStructure

    constructor ()
      ensures structure == EMPTY_STRUCTURE
    {
      structure := EMPTY_STRUCTURE;
    }

    /** The copy constructor: later changes to either object leave the other alone. */
    constructor Copy(session: SessionState)
      ensures structure == session.structure
    {
      structure := session.structure;
    }

    constructor Parse(stored: SessionStructure)
      ensures structure == stored
    {
      structure := stored;
    }

    method GetReceiverChain(senderEphemeral: PublicKey) returns (r: Option<nat>)
      ensures r == FindChain(structure.receiverChains, senderEphemeral)
    {
      var chains := structure.receiverChains;
      var index := 0;
      while index < |chains|
        invariant index <= |chains|
        invariant forall k :: 0 <= k < index ==> chains[k].ratchetKey != senderEphemeral
      {
        if chains[index].ratchetKey == senderEphemeral {
          return Some(index);
        }
        index := index + 1;
      }
      return None;
    }

    method AddReceiverChain(senderRatchetKey: PublicKey, chainKey: ChainKey)
      modifies this
      ensures structure == old(structure).(receiverChains := AddChain(old(structure).receiverChains, senderRatchetKey,
                                                                      chainKey))
    {
      var chain := ReceiverChain(senderRatchetKey, Chain(chainKey, []));
      structure := structure.(receiverChains := structure.receiverChains + [chain]);
      if |structure.receiverChains| > MAX_RECEIVER_CHAINS {
        structure := structure.(receiverChains := structure.receiverChains[1..]);
      }
    }

    method HasMessageKeys(senderEphemeral: PublicKey, counter: nat) returns (r: bool)
      requires HasChain(structure, senderEphemeral)
      ensures r == Find(ChainOf(structure, senderEphemeral).stored, counter).Some?
    {
      var index := GetReceiverChain(senderEphemeral);
      var keys := structure.receiverChains[index.value].chain.stored;
      for i := 0 to |keys|
        invariant forall k :: 0 <= k < i ==> keys[k].index != counter
      {
        if keys[i].index == counter {
          return true;
        }
      }
      return false;
    }

    method RemoveMessageKeys(senderEphemeral: PublicKey, counter: nat) returns (r: Option<MessageKeys>)
      requires HasChain(structure, senderEphemeral)
      modifies this
      ensures var c := ChainOf(old(structure), senderEphemeral);
              match Find(c.stored, counter)
              case None => r == None && structure == old(structure)
              case Some(k) => && r == Some(c.stored[k].keys)
                              && structure == WithChain(old(structure), senderEphemeral,
                                                        Chain(c.chainKey, c.stored[..k] + c.stored[k + 1..]))
    {
      var index := GetReceiverChain(senderEphemeral);
      var chain := structure.receiverChains[index.value].chain;
      var keys := chain.stored;
      r := None;
      for i := 0 to |keys|
        invariant forall k :: 0 <= k < i ==> keys[k].index != counter
        invariant r == None && structure == old(structure)
      {
        if keys[i].index == counter {
          FindIsFirst(keys, counter, i);
          r := Some(keys[i].keys);
          structure := WithChain(structure, senderEphemeral, Chain(chain.chainKey, keys[..i] + keys[i + 1..]));
          return;
        }
      }
    }

    method SetMessageKeys(senderEphemeral: PublicKey, index: nat, messageKeys: MessageKeys)
      requires HasChain(structure, senderEphemeral)
      modifies this
      ensures var c := ChainOf(old(structure), senderEphemeral);
              structure == WithChain(old(structure), senderEphemeral,
                                     Chain(c.chainKey, c.stored + [Stored(index, messageKeys)]))
    {
      var at := GetReceiverChain(senderEphemeral);
      var chain := structure.receiverChains[at.value].chain;
      structure := WithChain(structure, senderEphemeral,
                             Chain(chain.chainKey, chain.stored + [Stored(index, messageKeys)]));
    }

    method SetReceiverChainKey(senderEphemeral: PublicKey, chainKey: ChainKey)
      requires HasChain(structure, senderEphemeral)
      modifies this
      ensures var c := ChainOf(old(structure), senderEphemeral);
              structure == WithChain(old(structure), senderEphemeral, Chain(chainKey, c.stored))
    {
      var at := GetReceiverChain(senderEphemeral);
      structure := WithChain(structure, senderEphemeral,
                             Chain(chainKey, structure.receiverChains[at.value].chain.stored));
    }
  }
}
