/**
 The stores behind the engine, as maps
 (yowsup/axolotl/store/sqlaxolotlstore.py, axolotl/state/axolotlstore.py).
 */
module AxolotlStores {
  import opened Curve
  import opened SessionRecords

  datatype Address = Address(recipientId: string, deviceId: int)

  /** What a store holds. A stored record reads back as a record that is not fresh. */
  datatype Stores = Stores(
    sessions: map<Address, Record>,
    identities: map<Address, PublicKey>,
    preKeys: map<nat, KeyPair>,
    signedPreKeys: map<nat, KeyPair>,
    identityKeyPair: KeyPair,
    registrationId: nat)

  function LoadRecord(st: Stores, a: Address): Record
  {
    if a in st.sessions then st.sessions[a].(isFresh := false) else NEW_RECORD
  }

  predicate IsTrustedIdentity(st: Stores, a: Address, key: PublicKey)
  {
    a in st.identities ==> st.identities[a] == key
  }

  /** The writes of one operation, in order. */
  datatype Event = SavedIdentity | StoredSession | RemovedPreKey(id: nat)

  class AxolotlStore {
    var sessions: map<Address, Record>
    var identities: map<Address, PublicKey>
    var preKeys: map<nat, KeyPair>
    var signedPreKeys: map<nat, KeyPair>
    const identityKeyPair: KeyPair
    const registrationId: nat
    ghost var trace: seq<Event>

    ghost function View(): Stores
      reads this
    {
      Stores(sessions, identities, preKeys, signedPreKeys, identityKeyPair, registrationId)
    }

    constructor (identityKeyPair: KeyPair, registrationId: nat)
      ensures View() == Stores(map[], map[], map[], map[], identityKeyPair, registrationId) && trace == []
    {
      sessions, identities, preKeys, signedPreKeys := map[], map[], map[], map[];
      this.identityKeyPair, this.registrationId := identityKeyPair, registrationId;
      trace := [];
    }

    method LoadSession(a: Address) returns (r: SessionRecord)
      ensures fresh(r) && r.Valid() && fresh(r.sessionState)
      ensures r.View() == LoadRecord(View(), a)
    {
      if a in sessions {
        r := new SessionRecord.Parse(sessions[a]);
      } else {
        r := new SessionRecord();
      }
    }

    method StoreSession(a: Address, r: SessionRecord)
      modifies this`sessions, this`trace
      ensures View() == old(View()).(sessions := old(sessions)[a := r.View()])
      ensures trace == old(trace) + [StoredSession]
    {
      var previous := [];
      for i := 0 to |r.previousStates|
        invariant previous == Structures(r.previousStates)[..i]
        invariant unchanged(this)
      {
        previous := previous + [r.previousStates[i].structure];
      }
      assert previous == r.View().previous;
      sessions := sessions[a := Record(r.sessionState.structure, previous, r.isFresh)];
      trace := trace + [StoredSession];
    }

    method SaveIdentity(a: Address, key: PublicKey)
      modifies this`identities, this`trace
      ensures View() == old(View()).(identities := old(identities)[a := key])
      ensures trace == old(trace) + [SavedIdentity]
    {
      identities := identities[a := key];
      trace := trace + [SavedIdentity];
    }

    method RemovePreKey(id: nat)
      modifies this`preKeys, this`trace
      ensures View() == old(View()).(preKeys := old(preKeys) - {id})
      ensures trace == old(trace) + [RemovedPreKey(id)]
    {
      preKeys := preKeys - {id};
      trace := trace + [RemovedPreKey(id)];
    }

    /** The id column is unique: storing a known id raises and changes nothing. */
    method StorePreKey(id: nat, keyPair: KeyPair) returns (stored: bool)
      modifies this`preKeys
      ensures stored == (id !in old(preKeys))
      ensures preKeys == if stored then old(preKeys)[id := keyPair] else old(preKeys)
    {
      stored := id !in preKeys;
      if stored {
        preKeys := preKeys[id := keyPair];
      }
    }

    method LoadMaxPreKeyId() returns (max: nat)
      ensures max == MaxId(preKeys.Keys)
    {
      var rest := preKeys.Keys;
      max := 0;
      while rest != {}
        invariant rest <= preKeys.Keys && IsMaxId(preKeys.Keys - rest, max)
        decreases rest
      {
        var id :| id in rest;
        assert preKeys.Keys - (rest - {id}) == preKeys.Keys - rest + {id};
        rest := rest - {id};
        max := if id > max then id else max;
      }
      assert preKeys.Keys - rest == preKeys.Keys;
    }
  }

  /** `max` over the id column, 0 for an empty one. */
  ghost predicate IsMaxId(ids: set<nat>, max: nat)
  {
    && (if ids == {} then max == 0 else max in ids)
    && forall id :: id in ids ==> id <= max
  }

  ghost function MaxId(ids: set<nat>): (max: nat)
    ensures IsMaxId(ids, max)
  {
    if ids == {} then 0
    else
      var id :| id in ids;
      var rest := MaxId(ids - {id});
      assert forall other :: other in ids ==> other == id || other in ids - {id};
      if id > rest then id else rest
  }
}
