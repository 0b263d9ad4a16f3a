/**
 The group cipher and the group session builder as objects over their store: every method is proved to
 compute the functions of Groups.
 */
module GroupCiphers {
  import opened Wrappers
  import opened Curve
  import opened Ratchet
  import opened SkippedKeys
  import opened Messages
  import opened Groups

  class SenderKeyState {
    var structure: SenderKeyStructure

    constructor (structure: SenderKeyStructure)
      ensures this.structure == structure
    {
      this.structure := structure;
    }

    method SetSenderChainKey(chainKey: ChainKey)
      modifies this
      ensures structure == old(structure).(chain := Chain(chainKey, old(structure).chain.stored))
    {
      structure := structure.(chain := structure.chain.(chainKey := chainKey));
    }

    method HasSenderMessageKey(iteration: nat) returns (r: bool)
      ensures r == Find(structure.chain.stored, iteration).Some?
    {
      var keys := structure.chain.stored;
      for i := 0 to |keys|
        invariant forall k :: 0 <= k < i ==> keys[k].index != iteration
      {
        if keys[i].index == iteration {
          return true;
        }
      }
      return false;
    }

    method AddSenderMessageKey(iteration: nat, seed: Term)
      modifies this
      ensures structure == old(structure).(
                chain := Chain(old(structure).chain.chainKey, old(structure).chain.stored + [Stored(iteration, seed)]))
    {
      structure := structure.(chain := structure.chain.(stored := structure.chain.stored + [Stored(iteration, seed)]));
    }

    method RemoveSenderMessageKey(iteration: nat) returns (r: Option<Term>)
      modifies this
      ensures var c := old(structure).chain;
              match Find(c.stored, iteration)
              case None => r == None && structure == old(structure)
              case Some(k) => && r == Some(c.stored[k].keys)
                              && structure
                                   == old(structure).(chain := Chain(c.chainKey, c.stored[..k] + c.stored[k + 1..]))
    {
      var keys := structure.chain.stored;
      r := None;
      for i := 0 to |keys|
        invariant forall k :: 0 <= k < i ==> keys[k].index != iteration
        invariant r == None && structure == old(structure)
      {
        if keys[i].index == iteration {
          FindIsFirst(keys, iteration, i);
          r := Some(keys[i].keys);
          structure := structure.(chain := structure.chain.(stored := keys[..i] + keys[i + 1..]));
          return;
        }
      }
    }
  }

  class SenderKeyRecord {
    var states: seq<SenderKeyState>

    /** No state occurs twice, so changing one in place changes one entry. */
    ghost predicate Valid()
      reads this
    {
      forall i, j :: 0 <= i < j < |states| ==> states[i] != states[j]
    }

    ghost function View(): (r: SenderKeys)
      reads this, states
      ensures |r| == |states| && forall i :: 0 <= i < |r| ==> r[i] == states[i].structure
    {
      seq(|states|, i requires 0 <= i < |states| reads this, states => states[i].structure)
    }

    constructor (stored: SenderKeys)
      ensures Valid() && View() == stored && forall s :: s in states ==> fresh(s)
    {
      states := [];
      new;
      for i := 0 to |stored|
        invariant Valid() && (forall s :: s in states ==> fresh(s))
        invariant View() == stored[..i]
      {
        var state := new SenderKeyState(stored[i]);
        states := states + [state];
      }
    }

    method IsEmpty() returns (r: bool)
      ensures r <==> View() == []
    {
      r := |states| == 0;
    }

    method GetSenderKeyState(keyId: nat) returns (r: Option<nat>)
      ensures r == FindState(View(), keyId)
    {
      for i := 0 to |states|
        invariant forall k :: 0 <= k < i ==> View()[k].keyId != keyId
      {
        if states[i].structure.keyId == keyId {
          return Some(i);
        }
      }
      return None;
    }

    method AddSenderKeyState(id: nat, iteration: nat, chainKey: Term, signatureKey: PublicKey)
      requires Valid()
      modifies this
      ensures Valid()
      ensures View()
                == old(View()) + [SenderKeyStructure(id, Chain(ChainKey(chainKey, iteration), []), signatureKey, None)]
    {
      var state := new SenderKeyState(SenderKeyStructure(id, Chain(ChainKey(chainKey, iteration), []), signatureKey,
                                                         None));
      states := states + [state];
    }

    method SetSenderKeyState(id: nat, iteration: nat, chainKey: Term, signatureKey: KeyPair)
      modifies this
      ensures Valid() && forall s :: s in states ==> fresh(s)
      ensures View() == [SenderKeyStructure(id, Chain(ChainKey(chainKey, iteration), []), signatureKey.publicKey,
                                            Some(signatureKey))]
    {
      var state := new SenderKeyState(
        SenderKeyStructure(id, Chain(ChainKey(chainKey, iteration), []), signatureKey.publicKey, Some(signatureKey)));
      states := [state];
    }
  }

  /** The record that a store returns for a name without one is empty. */
  function Load(records: map<string, SenderKeys>, name: string): SenderKeys
  {
    if name in records then records[name] else []
  }

  class SenderKeyStore {
    var records: map<string, SenderKeys>

    constructor ()
      ensures records == map[]
    {
      records := map[];
    }

    method LoadSenderKey(name: string) returns (r: SenderKeyRecord)
      ensures fresh(r) && r.Valid() && (forall s :: s in r.states ==> fresh(s))
      ensures r.View() == Load(records, name)
    {
      r := new SenderKeyRecord(if name in records then records[name] else []);
    }

    method StoreSenderKey(name: string, r: SenderKeyRecord)
      modifies this
      ensures records == old(records)[name := r.View()]
    {
      var stored := [];
      for i := 0 to |r.states|
        invariant unchanged(this) && stored == r.View()[..i]
      {
        stored := stored + [r.states[i].structure];
      }
      assert stored == r.View();
      records := records[name := stored];
    }
  }

  class GroupSessionBuilder {
    const store: SenderKeyStore

    constructor (store: SenderKeyStore)
      ensures this.store == store
    {
      this.store := store;
    }

    method Process(name: string, d: DistributionMessage)
      modifies store
      ensures store.records == old(store.records)[name := ProcessDistribution(Load(old(store.records), name), d)]
    {
      var record := store.LoadSenderKey(name);
      record.AddSenderKeyState(d.keyId, d.iteration, d.chainKey, d.signingKey);
      store.StoreSenderKey(name, record);
    }

    /** The three values are the ones that the key helper draws. */
    method Create(name: string, keyId: nat, chainKey: Term, signing: KeyPair) returns (d: DistributionMessage)
      modifies store
      ensures var before := Load(old(store.records), name);
              var (after, announced) := Groups.Create(before, keyId, chainKey, signing);
              && d == announced
              && store.records == if before == [] then old(store.records)[name := after] else old(store.records)
    {
      var record := store.LoadSenderKey(name);
      var isEmpty := record.IsEmpty();
      if isEmpty {
        record.SetSenderKeyState(keyId, 0, chainKey, signing);
        store.StoreSenderKey(name, record);
      }
      var state := record.states[0];
      assert record.View()[0] == state.structure;
      d := DistributionMessage(state.structure.keyId, state.structure.chain.chainKey.index,
                               state.structure.chain.chainKey.key, state.structure.signingPublic);
    }
  }

  class GroupCipher {
    const store: SenderKeyStore
    const name: string

    constructor (store: SenderKeyStore, name: string)
      ensures this.store == store && this.name == name
    {
      this.store, this.name := store, name;
    }

    method Encrypt(plaintext: seq<byte>) returns (r: Result<SenderKeyMessage, Failure>)
      modifies store
      ensures match GroupEncrypt(Load(old(store.records), name), plaintext)
              case Err(e) => r == Err(e) && store.records == old(store.records)
              case Ok((m, after)) => r == Ok(m) && store.records == old(store.records)[name := after]
    {
      var record := store.LoadSenderKey(name);
      ghost var before := record.View();
      if |record.states| == 0 {
        return Err(NoSession);
      }
      var state := record.states[0];
      assert state in record.states;
      var chainKey := state.structure.chain.chainKey;
      var body := GroupBody(MessageSeed(chainKey.key), plaintext);
      if state.structure.signingPrivate.None? {
        return Err(Uncaught);
      }
      var signer := state.structure.signingPrivate.value.publicKey;
      var keyId := state.structure.keyId;
      state.SetSenderChainKey(NextChainKey(chainKey));
      assert record.View() == before[0 := state.structure];
      store.StoreSenderKey(name, record);
      return Ok(SenderKeyMessage(keyId, chainKey.index, body, SignedBy(signer, keyId, chainKey.index, body)));
    }

    /** The chain of the loaded record advances in place; the store sees it only when a plaintext came out. */
    method Decrypt(m: SenderKeyMessage) returns (r: Result<seq<byte>, Failure>)
      modifies store
      ensures match GroupDecrypt(Load(old(store.records), name), m)
              case Err(e) => r == Err(e) && store.records == old(store.records)
              case Ok((plaintext, after)) => r == Ok(plaintext) && store.records == old(store.records)[name := after]
    {
      hide Groups.GetSenderKey, FindState, OpenBody, SignatureFits;
      var record := store.LoadSenderKey(name);
      ghost var before := record.View();
      var isEmpty := record.IsEmpty();
      if isEmpty {
        return Err(NoSession);
      }
      var at := record.GetSenderKeyState(m.keyId);
      if at.None? {
        return Err(InvalidMessage);
      }
      var state := record.states[at.value];
      assert state in record.states;
      if !SignatureFits(m, state.structure.signingPublic) {
        return Err(InvalidMessage);
      }
      var seed := GetSenderKey(state, m.iteration);
      if seed.Err? {
        return Err(seed.error);
      }
      var plaintext := OpenBody(seed.value, m.body);
      if plaintext.None? {
        return Err(InvalidMessage);
      }
      assert record.View() == before[at.value := state.structure];
      store.StoreSenderKey(name, record);
      return Ok(plaintext.value);
    }

    static method GetSenderKey(state: SenderKeyState, iteration: nat) returns (r: Result<Term, Failure>)
      modifies state
      ensures match Groups.GetSenderKey(old(state.structure).chain, iteration)
              case Taken(seed, chain) => r == Ok(seed) && state.structure == old(state.structure).(chain := chain)
              case AlreadyTaken => r == Err(DuplicateMessage) && state.structure == old(state.structure)
              case TooFarAhead => r == Err(InvalidMessage) && state.structure == old(state.structure)
    {
      ghost var before := state.structure;
      var chainKey := state.structure.chain.chainKey;
      if chainKey.index > iteration {
        var has := state.HasSenderMessageKey(iteration);
        if has {
          var seed := state.RemoveSenderMessageKey(iteration);
          return Ok(seed.value);
        }
        return Err(DuplicateMessage);
      }
      if chainKey.index - iteration > 2000 {
        return Err(InvalidMessage);
      }
      while chainKey.index < iteration
        invariant chainKey.index <= iteration
        invariant state.structure == before.(chain := Chain(before.chain.chainKey, state.structure.chain.stored))
        invariant SkipTo(Chain(chainKey, state.structure.chain.stored), iteration, MessageSeed)
                    == SkipTo(before.chain, iteration, MessageSeed)
      {
        state.AddSenderMessageKey(chainKey.index, MessageSeed(chainKey.key));
        chainKey := NextChainKey(chainKey);
      }
      state.SetSenderChainKey(NextChainKey(chainKey));
      return Ok(MessageSeed(chainKey.key));
    }
  }
}
