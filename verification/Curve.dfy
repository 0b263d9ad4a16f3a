/**
 Curve25519 keys as symbolic values, and the byte order that elects a role in
 the symmetric key exchange (axolotl/ecc/curve.py, axolotl/ecc/djbec.py).

 A key pair is identified by its public half. Only Agreement and Sign use the
 private half, and both demand a KeyPair.
 */
module Curve {

  newtype byte = b: int | 0 <= b < 256

  datatype PublicKey = DjbECPublicKey(publicKey: seq<byte>)

  datatype KeyPair = KeyPair(publicKey: PublicKey)

  predicate Distinct(keys: seq<PublicKey>)
  {
    forall i, j :: 0 <= i < j < |keys| ==> keys[i] != keys[j]
  }

  /** The shared secret of two key pairs: the same for both ends by construction of the normal form. */
  datatype SharedSecret = SharedSecret(ends: set<PublicKey>)

  /** Signatures are unforgeable: only Sign produces a Signed value for a key pair's holder. */
  datatype Signature = Signed(signer: PublicKey, message: PublicKey) | Forged(id: nat)

  const DJB_TYPE: byte := 5

  function CalculateAgreement(theirs: PublicKey, ours: KeyPair): SharedSecret
  {
    SharedSecret({theirs, ours.publicKey})
  }

  lemma AgreementCommutes(a: KeyPair, b: KeyPair)
    ensures CalculateAgreement(a.publicKey, b) == CalculateAgreement(b.publicKey, a)
  {
    assert {a.publicKey, b.publicKey} == {b.publicKey, a.publicKey};
  }

  function CalculateSignature(ours: KeyPair, message: PublicKey): Signature
  {
    Signed(ours.publicKey, message)
  }

  predicate VerifySignature(signer: PublicKey, message: PublicKey, signature: Signature)
  {
    signature == Signed(signer, message)
  }

  // ----- the order on public keys -----

  /** Word i of `struct.unpack(">8i", bytes)`: big-endian, two's complement. */
  function SignedWord(bytes: seq<byte>, i: nat): int
    requires 4 * i + 4 <= |bytes|
  {
    var u := bytes[4 * i] as int * 0x100_0000 + bytes[4 * i + 1] as int * 0x1_0000
             + bytes[4 * i + 2] as int * 0x100 + bytes[4 * i + 3] as int;
    if u < 0x8000_0000 then u else u - 0x1_0000_0000
  }

  /** Python's tuple comparison, from word i on, of two unpacked keys. */
  predicate WordsLess(a: seq<byte>, b: seq<byte>, i: nat)
    requires |a| == |b| == 32 && i <= 8
    decreases 8 - i
  {
    i < 8 &&
    (SignedWord(a, i) < SignedWord(b, i) ||
     (SignedWord(a, i) == SignedWord(b, i) && WordsLess(a, b, i + 1)))
  }

  /** `struct.unpack` raises on anything but 32 bytes, hence the precondition. */
  predicate Less(a: PublicKey, b: PublicKey)
    requires |a.publicKey| == |b.publicKey| == 32
  {
    WordsLess(a.publicKey, b.publicKey, 0)
  }

  lemma WordDeterminesBytes(a: seq<byte>, b: seq<byte>, i: nat)
    requires |a| == |b| == 32 && i < 8
    requires SignedWord(a, i) == SignedWord(b, i)
    ensures a[4 * i..4 * i + 4] == b[4 * i..4 * i + 4]
  {
    var j := 4 * i;
    assert a[j] == b[j];
    assert a[j + 1] == b[j + 1];
    assert a[j + 2] == b[j + 2];
    assert a[j + 3] == b[j + 3];
  }

  lemma TailsDetermineWord(a: seq<byte>, b: seq<byte>, i: nat)
    requires |a| == |b| == 32 && i < 8
    requires a[4 * i..] == b[4 * i..]
    ensures SignedWord(a, i) == SignedWord(b, i) && a[4 * i + 4..] == b[4 * i + 4..]
  {
    var j := 4 * i;
    assert a[j] == a[j..][0] == b[j];
    assert a[j + 1] == a[j..][1] == b[j + 1];
    assert a[j + 2] == a[j..][2] == b[j + 2];
    assert a[j + 3] == a[j..][3] == b[j + 3];
    assert a[j + 4..] == a[j..][4..] == b[j + 4..];
  }

  lemma {:induction false} WordsTrichotomy(a: seq<byte>, b: seq<byte>, i: nat)
    requires |a| == |b| == 32 && i <= 8
    ensures WordsLess(a, b, i) ==> !WordsLess(b, a, i)
    ensures !WordsLess(a, b, i) && !WordsLess(b, a, i) <==> a[4 * i..] == b[4 * i..]
    decreases 8 - i
  {
    if i < 8 {
      var j := 4 * i;
      WordsTrichotomy(a, b, i + 1);
      assert a[j..] == a[j..j + 4] + a[j + 4..] && b[j..] == b[j..j + 4] + b[j + 4..];
      if SignedWord(a, i) == SignedWord(b, i) {
        WordDeterminesBytes(a, b, i);
      }
      if a[j..] == b[j..] {
        TailsDetermineWord(a, b, i);
      }
    }
  }

  lemma {:induction false} WordsTransitive(a: seq<byte>, b: seq<byte>, c: seq<byte>, i: nat)
    requires |a| == |b| == |c| == 32 && i <= 8
    requires WordsLess(a, b, i) && WordsLess(b, c, i)
    ensures WordsLess(a, c, i)
    decreases 8 - i
  {
    if SignedWord(a, i) == SignedWord(b, i) == SignedWord(c, i) {
      WordsTransitive(a, b, c, i + 1);
    }
  }

  /** The comparison is a strict total order on 32-byte keys. */
  lemma LessIsStrictTotalOrder(a: PublicKey, b: PublicKey, c: PublicKey)
    requires |a.publicKey| == |b.publicKey| == |c.publicKey| == 32
    ensures !(Less(a, b) && Less(b, a))
    ensures Less(a, b) || Less(b, a) <==> a != b
    ensures Less(a, b) && Less(b, c) ==> Less(a, c)
  {
    WordsTrichotomy(a.publicKey, b.publicKey, 0);
    assert a.publicKey[0..] == a.publicKey && b.publicKey[0..] == b.publicKey;
    if Less(a, b) && Less(b, c) {
      WordsTransitive(a.publicKey, b.publicKey, c.publicKey, 0);
    }
  }

  // ----- the same order, byte by byte -----

  /** Byte k as the comparison sees it: the first of every four is signed. */
  function Digit(bytes: seq<byte>, k: nat): int
    requires k < |bytes|
  {
    if k % 4 == 0 && bytes[k] >= 128 then bytes[k] as int - 256 else bytes[k] as int
  }

  lemma WordInDigits(bytes: seq<byte>, i: nat)
    requires 4 * i + 4 <= |bytes|
    ensures SignedWord(bytes, i) == Digit(bytes, 4 * i) * 0x100_0000 + Digit(bytes, 4 * i + 1) * 0x1_0000
                                    + Digit(bytes, 4 * i + 2) * 0x100 + Digit(bytes, 4 * i + 3)
  {
  }

  /** Within a word the first byte that differs decides. */
  lemma WordOrder(a: seq<byte>, b: seq<byte>, i: nat, k: nat)
    requires |a| == |b| == 32 && i < 8 && 4 * i <= k < 4 * i + 4
    requires (forall j :: 4 * i <= j < k ==> a[j] == b[j]) && a[k] != b[k]
    ensures SignedWord(a, i) < SignedWord(b, i) <==> Digit(a, k) < Digit(b, k)
    ensures SignedWord(a, i) != SignedWord(b, i)
  {
    WordInDigits(a, i);
    WordInDigits(b, i);
    hide SignedWord;
    forall j | 4 * i <= j < 4 * i + 4 ensures j > 4 * i ==> 0 <= Digit(a, j) < 256 && 0 <= Digit(b, j) < 256 {
    }
    assert k == 4 * i || k == 4 * i + 1 || k == 4 * i + 2 || k == 4 * i + 3;
    assert forall j :: 4 * i <= j < k ==> Digit(a, j) == Digit(b, j);
  }

  lemma {:induction false} WordsOrder(a: seq<byte>, b: seq<byte>, i: nat, k: nat)
    requires |a| == |b| == 32 && k < 32 && 4 * i <= k
    requires (forall j :: 0 <= j < k ==> a[j] == b[j]) && a[k] != b[k]
    ensures WordsLess(a, b, i) <==> Digit(a, k) < Digit(b, k)
    decreases k - 4 * i
  {
    if k < 4 * i + 4 {
      WordOrder(a, b, i, k);
    } else {
      assert SignedWord(a, i) == SignedWord(b, i);
      WordsOrder(a, b, i + 1, k);
    }
  }

  /** Which of two keys is the smaller one: the first byte that differs decides, every fourth one by its sign. */
  lemma FirstDifferenceDecides(a: PublicKey, b: PublicKey, k: nat)
    requires |a.publicKey| == |b.publicKey| == 32 && k < 32
    requires (forall j :: 0 <= j < k ==> a.publicKey[j] == b.publicKey[j]) && a.publicKey[k] != b.publicKey[k]
    ensures Less(a, b) <==> Digit(a.publicKey, k) < Digit(b.publicKey, k)
  {
    WordsOrder(a.publicKey, b.publicKey, 0, k);
  }
}
