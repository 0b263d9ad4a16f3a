/**
 The key schedule as free terms: master secret, root keys, chain keys and
 message keys (axolotl/ratchet/rootkey.py, axolotl/ratchet/chainkey.py,
 axolotl/kdf/derivedrootsecrets.py, axolotl/kdf/derivedmessagesecrets.py).

 HMAC and HKDF are uninterpreted constructors, so two derived keys are equal
 exactly when they were derived in the same way.
 */
module Ratchet {
  import opened Curve

  datatype Info = WhisperText | WhisperRatchet | WhisperMessageKeys | WhisperGroup

  datatype Term =
    | Empty
    | Discontinuity
    | Agreed(secret: SharedSecret)
    | Concat(parts: seq<Term>)
    | Hkdf(salt: Term, input: Term, info: Info, slice: nat)
    | Hmac(key: Term, seed: nat)
    | Random(id: nat)

  const MESSAGE_KEY_SEED: nat := 0x01
  const CHAIN_KEY_SEED: nat := 0x02

  datatype ChainKey = ChainKey(key: Term, index: nat)

  datatype MessageKeys = MessageKeys(cipherKey: Term, macKey: Term, iv: Term)

  datatype RootAndChain = RootAndChain(rootKey: Term, chainKey: ChainKey)

  function NextKey(key: Term): Term
  {
    Hmac(key, CHAIN_KEY_SEED)
  }

  function NextChainKey(c: ChainKey): ChainKey
  {
    ChainKey(NextKey(c.key), c.index + 1)
  }

  /** The three slices of one HKDF output; the empty salt stands for 32 zero bytes. */
  function DeriveMessageKeys(key: Term): MessageKeys
  {
    var material := Hmac(key, MESSAGE_KEY_SEED);
    MessageKeys(Hkdf(Empty, material, WhisperMessageKeys, 0),
                Hkdf(Empty, material, WhisperMessageKeys, 1),
                Hkdf(Empty, material, WhisperMessageKeys, 2))
  }

  /** One Diffie-Hellman ratchet step. */
  function CreateChain(rootKey: Term, theirs: PublicKey, ours: KeyPair): RootAndChain
  {
    var secret := Agreed(CalculateAgreement(theirs, ours));
    RootAndChain(Hkdf(rootKey, secret, WhisperRatchet, 0),
                 ChainKey(Hkdf(rootKey, secret, WhisperRatchet, 1), 0))
  }

  function CalculateDerivedKeys(masterSecret: Term): RootAndChain
  {
    RootAndChain(Hkdf(Empty, masterSecret, WhisperText, 0),
                 ChainKey(Hkdf(Empty, masterSecret, WhisperText, 1), 0))
  }

  /** The chain key n steps after seed. */
  function Advance(seed: Term, n: nat): Term
  {
    if n == 0 then seed else NextKey(Advance(seed, n - 1))
  }

  /** How many Diffie-Hellman steps lie between the master secret and a root or chain seed. */
  function RatchetDepth(t: Term): nat
  {
    match t
    case Hkdf(salt, _, WhisperRatchet, _) => 1 + RatchetDepth(salt)
    case _ => 0
  }

  /** Equal message keys at the same position come from equal chain seeds. */
  lemma {:induction false} AdvanceInjective(a: Term, b: Term, n: nat)
    requires DeriveMessageKeys(Advance(a, n)).macKey == DeriveMessageKeys(Advance(b, n)).macKey
    ensures a == b
  {
    if n > 0 {
      assert Advance(a, n - 1) == Advance(b, n - 1);
      AdvanceInjective(a, b, n - 1);
    }
  }

  /** Both ends of a ratchet step compute the same root and chain. */
  lemma CreateChainAgrees(rootKey: Term, a: KeyPair, b: KeyPair)
    ensures CreateChain(rootKey, a.publicKey, b) == CreateChain(rootKey, b.publicKey, a)
  {
    AgreementCommutes(a, b);
  }

  // ----- which master secret a key grew from -----

  /** The master secret behind a root key, a chain key or a message key: every derivation, undone. */
  function MasterOf(t: Term): Term
  {
    match t
    case Hkdf(_, input, WhisperText, _) => input
    case Hkdf(salt, _, WhisperRatchet, _) => MasterOf(salt)
    case Hkdf(_, input, WhisperMessageKeys, _) => MasterOf(input)
    case Hmac(key, _) => MasterOf(key)
    case _ => t
  }

  lemma {:induction false} AdvanceKeepsMaster(seed: Term, n: nat)
    ensures MasterOf(Advance(seed, n)) == MasterOf(seed)
  {
    if n > 0 {
      AdvanceKeepsMaster(seed, n - 1);
    }
  }

  lemma {:induction false} DerivationsKeepMaster(rootKey: Term, theirs: PublicKey, ours: KeyPair, key: Term)
    ensures MasterOf(CreateChain(rootKey, theirs, ours).rootKey) == MasterOf(rootKey)
    ensures MasterOf(CreateChain(rootKey, theirs, ours).chainKey.key) == MasterOf(rootKey)
    ensures MasterOf(DeriveMessageKeys(key).macKey) == MasterOf(key)
  {
    assert MasterOf(Hmac(key, MESSAGE_KEY_SEED)) == MasterOf(key);
  }

  /** Does an agreement with this key go into the term? */
  predicate Mentions(t: Term, key: PublicKey)
  {
    match t
    case Agreed(secret) => key in secret.ends
    case Concat(parts) => exists k :: 0 <= k < |parts| && Mentions(parts[k], key)
    case Hkdf(salt, input, _, _) => Mentions(salt, key) || Mentions(input, key)
    case Hmac(inner, _) => Mentions(inner, key)
    case _ => false
  }
}
