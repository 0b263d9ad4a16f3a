/**
 Generating one-time prekeys and keeping enough of them in stock
 (axolotl/util/keyhelper.py, yowsup/axolotl/manager.py).
 */
module PreKeys {
  import opened Wrappers
  import opened Curve
  import opened Messages
  import opened AxolotlStores
  import opened SessionRecords
  import opened SessionBuilders
  import opened SessionCiphers
  import opened Establishment

  const LAST_ID: nat := MAX_PREKEY_ID - 1
  const COUNT_GEN_PREKEYS: nat := 812
  const THRESHOLD_REGEN: nat := 10

  datatype PreKeyRecord = PreKeyRecord(id: nat, keyPair: KeyPair)

  /** The id of prekey i of a batch; it wraps around behind LAST_ID. */
  function PreKeyId(start: int, i: nat): nat
  {
    (start - 1 + i) % LAST_ID + 1
  }

  function Batch(start: int, count: nat, generate: nat -> KeyPair): (r: seq<PreKeyRecord>)
    ensures |r| == count && forall i :: 0 <= i < count ==> r[i] == PreKeyRecord(PreKeyId(start, i), generate(i))
  {
    seq(count, i requires i >= 0 => PreKeyRecord(PreKeyId(start, i), generate(i)))
  }

  method GeneratePreKeys(start: int, count: nat, generate: nat -> KeyPair) returns (results: seq<PreKeyRecord>)
    ensures results == Batch(start, count, generate)
  {
    results := [];
    var first := start - 1;
    for i := 0 to count
      invariant results == Batch(start, count, generate)[..i]
    {
      var preKeyId := (first + i) % (MAX_PREKEY_ID - 1) + 1;
      results := results + [PreKeyRecord(preKeyId, generate(i))];
    }
  }

  lemma IdsInRange(start: int, i: nat)
    ensures 1 <= PreKeyId(start, i) <= LAST_ID
  {
  }

  lemma SameResidue(a: int, b: int, n: nat)
    requires n > 0 && 0 < b - a < n
    ensures a % n != b % n
  {
    var q := b / n - a / n;
    assert b - a == n * q + b % n - a % n;
    if q >= 1 {
      assert n * q >= n;
    } else {
      assert n * q <= 0;
    }
  }

  /** The ids of a batch are pairwise distinct exactly when the batch is no longer than the id space. */
  lemma DistinctIff(start: int, count: nat)
    ensures (forall i, j :: 0 <= i < j < count ==> PreKeyId(start, i) != PreKeyId(start, j)) <==> count <= LAST_ID
  {
    if count <= LAST_ID {
      forall i, j | 0 <= i < j < count ensures PreKeyId(start, i) != PreKeyId(start, j) {
        SameResidue(start - 1 + i, start - 1 + j, LAST_ID);
      }
    } else {
      assert (start - 1 + LAST_ID) % LAST_ID == (start - 1) % LAST_ID;
      assert PreKeyId(start, 0) == PreKeyId(start, LAST_ID);
    }
  }

  /** A batch that starts right behind the largest stored id stays above it exactly when it does not wrap around. */
  lemma AboveMaxIff(max: nat, start: nat, count: nat)
    requires start == max + 1
    ensures (forall i :: 0 <= i < count ==> PreKeyId(start, i) > max)
            <==> (count == 0 || max == 0 || max + count <= LAST_ID)
  {
    if max + count <= LAST_ID {
      forall i | 0 <= i < count ensures PreKeyId(start, i) > max {
        assert (max + i) % LAST_ID == max + i;
      }
    } else if count > 0 && max > 0 {
      var i := if max <= LAST_ID then LAST_ID - max else 0;
      assert i < count;
      assert PreKeyId(start, i) <= max;
    }
  }

  // ----- keeping a stock -----

  /** Store the keys one by one, up to the first id that is already taken. */
  function StoreAll(stock: map<nat, KeyPair>, batch: seq<PreKeyRecord>): map<nat, KeyPair>
    decreases |batch|
  {
    if batch == [] || batch[0].id in stock then stock
    else StoreAll(stock[batch[0].id := batch[0].keyPair], batch[1..])
  }

  predicate Fits(stock: map<nat, KeyPair>, batch: seq<PreKeyRecord>)
  {
    && (forall k :: 0 <= k < |batch| ==> batch[k].id !in stock)
    && forall j, k :: 0 <= j < k < |batch| ==> batch[j].id != batch[k].id
  }

  /** A batch with new, distinct ids is stored in full and replaces nothing. */
  lemma {:induction false} FittingBatchIsStored(stock: map<nat, KeyPair>, batch: seq<PreKeyRecord>)
    requires Fits(stock, batch)
    ensures var after := StoreAll(stock, batch);
            && |after| == |stock| + |batch|
            && (forall id :: id in stock ==> id in after && after[id] == stock[id])
            && (forall k :: 0 <= k < |batch| ==> batch[k].id in after && after[batch[k].id] == batch[k].keyPair)
    decreases |batch|
  {
    if batch != [] {
      var next := stock[batch[0].id := batch[0].keyPair];
      FittingBatchIsStored(next, batch[1..]);
      assert forall k :: 1 <= k < |batch| ==> batch[k] == batch[1..][k - 1];
      assert |next| == |stock| + 1;
    }
  }

  /** The batch that leveling generates for a stock. */
  ghost function NextBatch(stock: map<nat, KeyPair>, generate: nat -> KeyPair): seq<PreKeyRecord>
  {
    Batch(MaxId(stock.Keys) + 1, COUNT_GEN_PREKEYS, generate)
  }

  lemma IdOfNext(max: nat, k: nat)
    requires max <= LAST_ID && k < COUNT_GEN_PREKEYS
    ensures PreKeyId(max + 1, k) == if max + k < LAST_ID then max + k + 1 else max + k - LAST_ID + 1
  {
    if max + k < LAST_ID {
      assert (max + k) % LAST_ID == max + k;
    } else {
      assert (max + k) % LAST_ID == max + k - LAST_ID;
    }
  }

  /** The next batch fits exactly when no id that it reaches by wrapping around is still in stock. */
  lemma NextBatchFitsIff(stock: map<nat, KeyPair>, generate: nat -> KeyPair)
    requires MaxId(stock.Keys) <= LAST_ID
    ensures Fits(stock, NextBatch(stock, generate))
            <==> forall id :: 1 <= id <= MaxId(stock.Keys) + COUNT_GEN_PREKEYS - LAST_ID ==> id !in stock
  {
    var max, batch := MaxId(stock.Keys), NextBatch(stock, generate);
    DistinctIff(max + 1, COUNT_GEN_PREKEYS);
    forall k | 0 <= k < |batch|
      ensures batch[k].id == if max + k < LAST_ID then max + k + 1 else max + k - LAST_ID + 1
    {
      IdOfNext(max, k);
    }
    forall id | 1 <= id <= max + COUNT_GEN_PREKEYS - LAST_ID && id in stock ensures !Fits(stock, batch) {
      assert batch[LAST_ID - max + id - 1].id == id;
    }
  }

  /** A collision raises after the keys in front of it were stored. */
  method StoreBatch(store: AxolotlStore, preKeys: seq<PreKeyRecord>) returns (r: bool)
    modifies store`preKeys
    ensures store.preKeys == StoreAll(old(store.preKeys), preKeys)
    ensures r == Fits(old(store.preKeys), preKeys)
  {
    for i := 0 to |preKeys|
      invariant StoreAll(store.preKeys, preKeys[i..]) == StoreAll(old(store.preKeys), preKeys)
      invariant Fits(store.preKeys, preKeys[i..]) <==> Fits(old(store.preKeys), preKeys)
    {
      var rest := preKeys[i..];
      assert rest[0] == preKeys[i] && rest[1..] == preKeys[i + 1..];
      FitsOneByOne(store.preKeys, rest);
      var stored := store.StorePreKey(preKeys[i].id, preKeys[i].keyPair);
      if !stored {
        return false;
      }
    }
    return true;
  }

  method LevelPreKeys(store: AxolotlStore, force: bool, generate: nat -> KeyPair)
    returns (r: Result<seq<PreKeyRecord>, Failure>)
    modifies store`preKeys
    ensures var stock := old(store.preKeys);
            var batch := NextBatch(stock, generate);
            if force || |stock| < THRESHOLD_REGEN then
              && store.preKeys == StoreAll(stock, batch)
              && r == if Fits(stock, batch) then Ok(batch) else Err(Uncaught)
            else r == Ok([]) && store.preKeys == stock
    ensures r.Ok? ==> |store.preKeys| >= 10
    ensures r.Ok? ==> |r.value| == (if force || |old(store.preKeys)| < 10 then 812 else 0)
  {
    hide Batch, Fits, StoreAll;
    if !force && |store.preKeys| >= THRESHOLD_REGEN {
      return Ok([]);
    }
    var max := store.LoadMaxPreKeyId();
    var preKeys := GeneratePreKeys(max + 1, COUNT_GEN_PREKEYS, generate);
    var stored := StoreBatch(store, preKeys);
    if !stored {
      return Err(Uncaught);
    }
    FittingBatchIsStored(old(store.preKeys), preKeys);
    return Ok(preKeys);
  }

  lemma FitsOneByOne(stock: map<nat, KeyPair>, batch: seq<PreKeyRecord>)
    requires batch != []
    ensures Fits(stock, batch) <==> batch[0].id !in stock && Fits(stock[batch[0].id := batch[0].keyPair], batch[1..])
  {
    var next, rest := stock[batch[0].id := batch[0].keyPair], batch[1..];
    if batch[0].id !in stock && Fits(next, rest) {
      forall j, k | 0 <= j < k < |batch| ensures batch[j].id != batch[k].id {
        assert batch[k] == rest[k - 1] && rest[k - 1].id !in next;
        if j > 0 {
          assert batch[j] == rest[j - 1];
        }
      }
      forall k | 0 <= k < |batch| ensures batch[k].id !in stock {
        if k > 0 {
          assert batch[k] == rest[k - 1];
        }
      }
    }
    if Fits(stock, batch) {
      assert forall k :: 0 <= k < |rest| ==> rest[k] == batch[k + 1];
    }
  }

  /**
   With generated prekeys the agreement never misses: whoever establishes a session from a bundle with
   a generated one-time prekey has its first message read, and that prekey is used up.
   */
  lemma GeneratedPreKeysWork(stA: Stores, stB: Stores, bobAddress: Address, aliceAddress: Address, b: PreKeyBundle,
                             ourBase: KeyPair, sending: KeyPair, plaintext: seq<byte>, bobNew: nat -> KeyPair,
                             start: int, i: nat)
    requires Publishes(stB, b) && b.preKey.Some? && b.preKeyId == PreKeyId(start, i)
    requires IsTrustedIdentity(stA, bobAddress, b.identityKey)
    requires IsTrustedIdentity(stB, aliceAddress, stA.identityKeyPair.publicKey)
    requires !HoldsSession(LoadRecord(stB, aliceAddress), Messages.CURRENT_VERSION, ourBase.publicKey)
    requires sending.publicKey != b.signedPreKey.value
    ensures var m := FirstPreKeyMessage(stA, bobAddress, b, ourBase, sending, plaintext);
            && m.Some?
            && var effect := AfterPreKeyMessage(stB, aliceAddress, m.value, bobNew);
               effect.answer == Ok(plaintext) && b.preKeyId !in effect.stores.preKeys
  {
    IdsInRange(start, i);
    BundleToPlaintext(stA, stB, bobAddress, aliceAddress, b, ourBase, sending, plaintext, bobNew);
  }
}
