/**
 What the ratchet is for: the keys of a message that was read are gone from the session that read it
 (axolotl/ratchet/chainkey.py, axolotl/ratchet/rootkey.py, axolotl/sessioncipher.py). Hashing forward
 from everything the session still holds does not lead back to them.
 */
module ForwardSecrecy {
  import opened Wrappers
  import opened Curve
  import opened Ratchet
  import opened SkippedKeys
  import opened SessionStates
  import opened RatchetingSession
  import C = Conversation
  import opened Conversation
  import Groups

  /** What HMAC, HKDF and concatenation make of the known terms; agreements and random seeds are not public. */
  ghost predicate Derives(known: Term -> bool, t: Term)
    decreases t
  {
    || known(t)
    || (match t
        case Empty => true
        case Discontinuity => true
        case Concat(parts) => forall i :: 0 <= i < |parts| ==> Derives(known, parts[i])
        case Hkdf(salt, input, _, _) => Derives(known, salt) && Derives(known, input)
        case Hmac(key, _) => Derives(known, key)
        case Agreed(_) => false
        case Random(_) => false)
  }

  predicate KeyOf(keys: MessageKeys, t: Term)
  {
    t == keys.cipherKey || t == keys.macKey || t == keys.iv
  }

  /** The terms in a receiver chain. */
  predicate HeldByChain(c: Chain<MessageKeys>, t: Term)
  {
    t == c.chainKey.key || exists k :: 0 <= k < |c.stored| && KeyOf(c.stored[k].keys, t)
  }

  /** All the secret terms in a session but its agreements. */
  predicate HeldBy(s: SessionStructure, t: Term)
  {
    || t == s.rootKey
    || (s.senderChain.Some? && t == s.senderChain.value.chainKey.key)
    || exists i :: 0 <= i < |s.receiverChains| && HeldByChain(s.receiverChains[i].chain, t)
  }

  /** The terms between the seed of a chain and the keys of its message n. */
  ghost predicate OnTheWay(seed: Term, n: nat, t: Term)
  {
    || (exists k: nat :: k <= n && t == Advance(seed, k))
    || t == Hmac(Advance(seed, n), MESSAGE_KEY_SEED)
    || KeyOf(DeriveMessageKeys(Advance(seed, n)), t)
  }

  /** An agreement, or a master secret with one in it. */
  predicate IsAgreed(t: Term)
  {
    t.Agreed? || (t.Concat? && exists i :: 0 <= i < |t.parts| && t.parts[i].Agreed?)
  }

  /** Every chain of a session starts from one of these. */
  predicate IsSeed(t: Term)
  {
    t.Hkdf? && t.info in {WhisperText, WhisperRatchet} && t.slice == 1 && IsAgreed(t.input)
  }

  /** Chain keys at different positions, or of different chains, are different. */
  lemma {:induction false} AdvanceIsDistinct(a: Term, m: nat, b: Term, n: nat)
    requires a.Hkdf? && b.Hkdf? && Advance(a, m) == Advance(b, n)
    ensures a == b && m == n
  {
    if m > 0 && n > 0 {
      AdvanceIsDistinct(a, m - 1, b, n - 1);
    }
  }

  lemma {:induction false} WayIsApart(start: Term, m: nat, seed: Term, n: nat, t: Term)
    requires IsSeed(start) && IsSeed(seed) && OnTheWay(seed, n, t)
    ensures start != seed || m > n ==> t != Advance(start, m)
    ensures start != seed || m != n ==> !KeyOf(DeriveMessageKeys(Advance(start, m)), t)
    ensures t.Hkdf? && t.slice == 0 ==> t.info == WhisperMessageKeys
  {
    if t == Advance(start, m) {
      if k: nat :| k <= n && t == Advance(seed, k) {
        AdvanceIsDistinct(start, m, seed, k);
      }
    }
    if KeyOf(DeriveMessageKeys(Advance(start, m)), t) && KeyOf(DeriveMessageKeys(Advance(seed, n)), t) {
      AdvanceIsDistinct(start, m, seed, n);
    }
  }

  /** No key serves two purposes: message keys, chain keys and root keys are all different. */
  lemma {:induction false} KeysAreSeparate(rootKey: Term, theirs: PublicKey, ours: KeyPair, m: nat, n: nat)
    ensures var step := CreateChain(rootKey, theirs, ours);
            var keys := DeriveMessageKeys(Advance(step.chainKey.key, m));
            && keys.cipherKey != keys.macKey && keys.cipherKey != keys.iv && keys.macKey != keys.iv
            && !KeyOf(keys, Advance(step.chainKey.key, n)) && !KeyOf(keys, step.rootKey)
            && Advance(step.chainKey.key, n) != step.rootKey
            && (m != n ==> Advance(step.chainKey.key, m) != Advance(step.chainKey.key, n))
  {
    var seed := CreateChain(rootKey, theirs, ours).chainKey.key;
    if Advance(seed, m) == Advance(seed, n) {
      AdvanceIsDistinct(seed, m, seed, n);
    }
  }

  /** A chain holds nothing on the way to a message of another chain, or to one that it handed out. */
  lemma ChainIsPast(c: Chain<MessageKeys>, start: Term, taken: set<nat>, seed: Term, n: nat, t: Term)
    requires IsSeed(start) && IsSeed(seed) && Tracks(c, start, 0, taken, DeriveMessageKeys)
    requires OnTheWay(seed, n, t) && (start == seed ==> n in taken)
    ensures !HeldByChain(c, t)
  {
    hide OnTheWay, DeriveMessageKeys, KeyOf;
    WayIsApart(start, c.chainKey.index, seed, n, t);
    forall k | 0 <= k < |c.stored| ensures !KeyOf(c.stored[k].keys, t) {
      WayIsApart(start, c.stored[k].index, seed, n, t);
      assert Holds(c.stored, c.stored[k].index);
    }
  }

  /** Without the seed and without a term on the way there is no way to the keys. */
  lemma {:induction false} WayIsClosed(known: Term -> bool, seed: Term, n: nat)
    requires !Derives(known, seed)
    requires forall k: nat :: 0 < k <= n ==> !known(Advance(seed, k))
    ensures !Derives(known, Advance(seed, n))
  {
    if n > 0 {
      WayIsClosed(known, seed, n - 1);
    }
  }

  lemma {:induction false} HashesDoNotTellSeeds(known: Term -> bool, seed: Term)
    requires IsSeed(seed) && !known(seed)
    requires forall u :: known(u) ==> u.Hkdf? || u.Hmac?
    ensures !Derives(known, seed)
  {
    var secret := seed.input;
    if secret.Concat? {
      var i :| 0 <= i < |secret.parts| && secret.parts[i].Agreed?;
      assert !Derives(known, secret.parts[i]);
    }
    assert !Derives(known, secret);
  }

  /** Whoever knows nothing but hashes, and none on the way, cannot derive the keys. */
  lemma {:induction false} KeysAreOutOfReach(known: Term -> bool, seed: Term, n: nat, t: Term)
    requires IsSeed(seed) && KeyOf(DeriveMessageKeys(Advance(seed, n)), t)
    requires forall u :: known(u) ==> u.Hkdf? || u.Hmac?
    requires forall u :: OnTheWay(seed, n, u) ==> !known(u)
    ensures !Derives(known, t)
  {
    forall k: nat | k <= n ensures !known(Advance(seed, k)) {
      assert OnTheWay(seed, n, Advance(seed, k));
    }
    assert Advance(seed, 0) == seed;
    HashesDoNotTellSeeds(known, seed);
    WayIsClosed(known, seed, n);
    var material := Hmac(Advance(seed, n), MESSAGE_KEY_SEED);
    assert OnTheWay(seed, n, material) && OnTheWay(seed, n, t);
    assert !Derives(known, material);
    assert t.Hkdf? && t.input == material;
  }

  lemma ChainHoldsHashes(c: Chain<MessageKeys>, start: Term, taken: set<nat>, t: Term)
    requires IsSeed(start) && Tracks(c, start, 0, taken, DeriveMessageKeys) && HeldByChain(c, t)
    ensures t.Hkdf? || t.Hmac?
  {
  }

  // ----- one chain -----

  /** What lies ahead of a known chain key can be derived. */
  lemma {:induction false} AheadIsInReach(known: Term -> bool, seed: Term, m: nat, n: nat)
    requires m <= n && known(Advance(seed, m))
    ensures Derives(known, Advance(seed, n))
  {
    if m < n {
      AheadIsInReach(known, seed, m, n - 1);
    }
  }

  lemma {:induction false} OthersAreInReach(c: Chain<MessageKeys>, seed: Term, taken: set<nat>, n: nat, t: Term)
    requires Tracks(c, seed, 0, taken, DeriveMessageKeys) && n !in taken
    requires KeyOf(DeriveMessageKeys(Advance(seed, n)), t)
    ensures Derives(u => HeldByChain(c, u), t)
  {
    var known := u => HeldByChain(c, u);
    if n < c.chainKey.index {
      assert Holds(c.stored, n);
      assert known(t);
    } else {
      AheadIsInReach(known, seed, c.chainKey.index, n);
      assert Derives(known, Hmac(Advance(seed, n), MESSAGE_KEY_SEED));
    }
  }

  /**
   Over any run of requests from a new chain: the keys of message n can be derived from the chain exactly
   as long as they were not handed out.
   */
  lemma {:induction false} HandedOutIsGone(seed: Term, requests: seq<nat>, limit: Option<nat>, n: nat, t: Term)
    requires IsSeed(seed) && KeyOf(DeriveMessageKeys(Advance(seed, n)), t)
    ensures var new_ := Chain(ChainKey(seed, 0), []);
            var c := SkippedKeys.Run(new_, requests, limit, DeriveMessageKeys);
            Derives(u => HeldByChain(c, u), t) <==> n !in HandedOut(new_, requests, limit, DeriveMessageKeys)
  {
    var new_ := Chain(ChainKey(seed, 0), []);
    var c := SkippedKeys.Run(new_, requests, limit, DeriveMessageKeys);
    var taken := HandedOut(new_, requests, limit, DeriveMessageKeys);
    RunTracks(seed, 0, requests, limit, DeriveMessageKeys);
    hide Tracks, HeldByChain, OnTheWay, Derives, KeyOf, SkippedKeys.Run, HandedOut;
    if n !in taken {
      OthersAreInReach(c, seed, taken, n, t);
    } else {
      forall u | HeldByChain(c, u) ensures (u.Hkdf? || u.Hmac?) && !OnTheWay(seed, n, u) {
        ChainHoldsHashes(c, seed, taken, u);
        if OnTheWay(seed, n, u) {
          ChainIsPast(c, seed, taken, seed, n, u);
        }
      }
      KeysAreOutOfReach(u => HeldByChain(c, u), seed, n, t);
    }
  }

  // ----- skipped keys of a group -----

  lemma {:induction false} GroupChainIsClosed(known: Term, seed: Term, n: nat)
    requires seed.Random? && known.Hmac? && known.seed == MESSAGE_KEY_SEED
    ensures !Derives(u => u == known, Advance(seed, n))
  {
    if n > 0 {
      GroupChainIsClosed(known, seed, n - 1);
    }
  }

  lemma {:induction false} GroupChainIsDistinct(seed: Term, m: nat, n: nat)
    requires seed.Random? && Advance(seed, m) == Advance(seed, n)
    ensures m == n
  {
    if m > 0 && n > 0 {
      GroupChainIsDistinct(seed, m - 1, n - 1);
    }
  }

  /** The key that a member keeps for a skipped message reads that message and no other one of the chain. */
  lemma {:induction false} SkippedKeyReadsOneMessage(seed: Term, m: nat, n: nat, plaintext: seq<byte>)
    requires seed.Random?
    ensures var kept := Groups.MessageSeed(Advance(seed, m));
            var body := Groups.GroupBody(Groups.MessageSeed(Advance(seed, n)), plaintext);
            && (Derives(u => u == kept, body.cipherKey) <==> m == n)
            && (Derives(u => u == kept, body.iv) <==> m == n)
  {
    var kept, other := Groups.MessageSeed(Advance(seed, m)), Groups.MessageSeed(Advance(seed, n));
    GroupChainIsClosed(kept, seed, n);
    if kept == other {
      GroupChainIsDistinct(seed, m, n);
    }
    assert Derives(u => u == kept, other) <==> kept == other;
  }

  // ----- a whole session -----

  lemma {:induction false} SeedsAreSeeds(master: Term, keys: seq<PublicKey>, i: nat)
    requires i < |keys| && IsAgreed(master)
    ensures IsSeed(Seed(master, keys, i))
    ensures Link(master, keys, i).rootKey.Hkdf? && Link(master, keys, i).rootKey.slice == 0
    ensures Link(master, keys, i).rootKey.info != WhisperMessageKeys
  {
  }

  lemma SeedsDiffer(master: Term, keys: seq<PublicKey>, i: nat, j: nat)
    requires i < |keys| && j < |keys| && i != j
    ensures Seed(master, keys, i) != Seed(master, keys, j)
  {
    LinkDepth(master, keys, i);
    LinkDepth(master, keys, j);
  }

  lemma SessionIsPast(master: Term, keys: seq<PublicKey>, p: Peer, j: nat, n: nat, u: Term)
    requires PeerInv(master, keys, p) && IsAgreed(master) && HeldBy(p.session, u)
    requires j < |keys| && j != p.epoch && n in On(p.delivered, keys[j])
    ensures u.Hkdf? || u.Hmac?
    ensures !OnTheWay(Seed(master, keys, j), n, u)
  {
    hide Tracks, Link, OnTheWay, HeldByChain, KeyOf;
    var seed, s, e := Seed(master, keys, j), p.session, p.epoch;
    SeedsAreSeeds(master, keys, j);
    SeedsAreSeeds(master, keys, e);
    SeedsDiffer(master, keys, e, j);
    if OnTheWay(seed, n, u) {
      WayIsApart(Seed(master, keys, e), s.senderChain.value.chainKey.index, seed, n, u);
    }
    if i :| 0 <= i < |s.receiverChains| && HeldByChain(s.receiverChains[i].chain, u) {
      var d := ChainEpoch(e, i);
      var c, taken := s.receiverChains[i].chain, On(p.delivered, keys[d]);
      assert Follows(master, keys, d, s.receiverChains[i], p.delivered);
      SeedsAreSeeds(master, keys, d);
      ChainHoldsHashes(c, Seed(master, keys, d), taken, u);
      if OnTheWay(seed, n, u) {
        if d != j {
          SeedsDiffer(master, keys, d, j);
        }
        ChainIsPast(c, Seed(master, keys, d), taken, seed, n, u);
      }
    }
  }

  /**
   In every reachable state of two peers: once a message was read, its keys cannot be derived from
   anything its reader's session still holds, however much of the conversation follows.
   */
  lemma ReadKeysAreGone(start: System, master: Term, steps: seq<Step>, who: Role, i: nat, t: Term)
    requires Start(start, master) && AllowedRun(start, steps) && IsAgreed(master)
    requires i < |At(C.Run(start, steps), Other(who)).sent|
    requires var p, x := At(C.Run(start, steps), who), At(C.Run(start, steps), Other(who)).sent[i];
             && x.message.header.counter in On(p.delivered, x.message.header.ratchetKey)
             && x.message.mac.Mac? && x.message.header.body.Encrypted?
             && t in {x.message.mac.macKey, x.message.header.body.cipherKey, x.message.header.body.iv}
    ensures !Derives(u => HeldBy(At(C.Run(start, steps), who).session, u), t)
  {
    var sys := C.Run(start, steps);
    var p, x := At(sys, who), At(sys, Other(who)).sent[i];
    Reachable(start, master, steps, who);
    var seed, n := Seed(master, sys.keys, x.epoch), x.message.header.counter;
    SeedsAreSeeds(master, sys.keys, x.epoch);
    assert KeyOf(DeriveMessageKeys(Advance(seed, n)), t);
    hide C.Run, Start, AllowedRun, Link, Advance, HeldBy, OnTheWay, Derives, KeyOf, DeriveMessageKeys;
    forall u | HeldBy(p.session, u) ensures (u.Hkdf? || u.Hmac?) && !OnTheWay(seed, n, u) {
      SessionIsPast(master, sys.keys, p, x.epoch, n, u);
    }
    KeysAreOutOfReach(u => HeldBy(p.session, u), seed, n, t);
  }

  /** Both initialisers start from such a master secret. */
  lemma SecretsAreAgreed(a: AliceParameters, b: BobParameters)
    ensures IsAgreed(AliceSecret(a)) && IsAgreed(BobSecret(b))
  {
    assert AliceSecret(a).parts[1].Agreed? && BobSecret(b).parts[1].Agreed?;
  }
}
