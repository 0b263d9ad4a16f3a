/**
 HKDF, implemented twice (axolotl/kdf/hkdf.py, common/utils.py), against RFC 5869.

 HMAC-SHA256 is a parameter: any function of a key and a message with 32 bytes of output.
 */
module Hkdf {
  import opened Wrappers
  import opened Curve

  type Hmac = (seq<byte>, seq<byte>) -> seq<byte>

  const HASH_OUTPUT_SIZE: nat := 32

  ghost predicate HashSized(h: Hmac)
  {
    forall key, message :: |h(key, message)| == HASH_OUTPUT_SIZE
  }

  /** Section 2.3 of RFC 5869 writes the block number as a single octet. */
  function Octet(i: nat): seq<byte>
  {
    [(i % 256) as byte]
  }

  /** `chr(i % 256).encode()`: UTF-8, which takes two bytes from 128 on. */
  function Utf8(i: nat): seq<byte>
  {
    var c := i % 256;
    if c < 128 then [c as byte] else [(0xC0 + c / 64) as byte, (0x80 + c % 64) as byte]
  }

  /** Block k of an expansion: block 0 is empty, block 1 is numbered offset. */
  function Block(h: Hmac, prk: seq<byte>, info: seq<byte>, number: nat -> seq<byte>, offset: nat, k: nat): seq<byte>
  {
    if k == 0 then [] else h(prk, Block(h, prk, info, number, offset, k - 1) + info + number(offset + k - 1))
  }

  /** The first n blocks, one after the other. */
  function Blocks(h: Hmac, prk: seq<byte>, info: seq<byte>, number: nat -> seq<byte>, offset: nat, n: nat): seq<byte>
  {
    if n == 0 then [] else Blocks(h, prk, info, number, offset, n - 1) + Block(h, prk, info, number, offset, n)
  }

  function Iterations(size: nat): nat
  {
    (size + HASH_OUTPUT_SIZE - 1) / HASH_OUTPUT_SIZE
  }

  function Prefix(bytes: seq<byte>, size: nat): seq<byte>
  {
    if size <= |bytes| then bytes[..size] else bytes
  }

  /** HKDF-Expand of section 2.3 of RFC 5869. */
  function RfcExpand(h: Hmac, prk: seq<byte>, info: seq<byte>, size: nat): seq<byte>
  {
    Prefix(Blocks(h, prk, info, Octet, 1, Iterations(size)), size)
  }

  /** What the loop of the engine's own HKDF computes: version 3 starts at offset 1, version 2 at offset 0. */
  function Expansion(h: Hmac, prk: seq<byte>, info: seq<byte>, size: nat, offset: nat): seq<byte>
  {
    Prefix(Blocks(h, prk, info, Utf8, offset, Iterations(size)), size)
  }

  // ----- the two loops -----

  lemma {:induction false} BlocksLength(h: Hmac, prk: seq<byte>, info: seq<byte>, number: nat -> seq<byte>,
                                        offset: nat, n: nat)
    requires HashSized(h)
    ensures |Blocks(h, prk, info, number, offset, n)| == HASH_OUTPUT_SIZE * n
  {
    if n > 0 {
      BlocksLength(h, prk, info, number, offset, n - 1);
    }
  }

  function Min(a: nat, b: nat): nat
  {
    if a < b then a else b
  }

  /** Where either loop stands after k rounds. */
  ghost predicate Progress(h: Hmac, prk: seq<byte>, info: seq<byte>, number: nat -> seq<byte>, offset: nat, k: nat,
                           mixin: seq<byte>, results: seq<byte>, remaining: nat)
  {
    && mixin == Block(h, prk, info, number, offset, k)
    && results == Prefix(Blocks(h, prk, info, number, offset, k), |results| + remaining)
    && (remaining == 0 || |results| == HASH_OUTPUT_SIZE * k)
  }

  lemma NoProgress(h: Hmac, prk: seq<byte>, info: seq<byte>, number: nat -> seq<byte>, offset: nat, remaining: nat)
    ensures Progress(h, prk, info, number, offset, 0, [], [], remaining)
  {
  }

  /** One round: the bytes still wanted from the next block. */
  lemma NextRound(h: Hmac, prk: seq<byte>, info: seq<byte>, number: nat -> seq<byte>, offset: nat, k: nat,
                  mixin: seq<byte>, results: seq<byte>, remaining: nat)
    requires HashSized(h) && Progress(h, prk, info, number, offset, k, mixin, results, remaining)
    ensures var step := h(prk, mixin + info + number(offset + k));
            && |step| == HASH_OUTPUT_SIZE
            && var size := Min(remaining, |step|);
               Progress(h, prk, info, number, offset, k + 1, step, results + step[..size], remaining - size)
  {
    BlocksLength(h, prk, info, number, offset, k);
    var blocks, step := Blocks(h, prk, info, number, offset, k), Block(h, prk, info, number, offset, k + 1);
    if remaining > 0 {
      assert results == blocks;
    }
  }

  /** After as many rounds as the size takes blocks, nothing is wanting. */
  lemma {:induction false} AllRounds(h: Hmac, prk: seq<byte>, info: seq<byte>, number: nat -> seq<byte>, offset: nat,
                                     mixin: seq<byte>, results: seq<byte>, remaining: nat)
    requires Progress(h, prk, info, number, offset, Iterations(|results| + remaining), mixin, results, remaining)
    ensures remaining == 0
    ensures results == Prefix(Blocks(h, prk, info, number, offset, Iterations(|results|)), |results|)
  {
  }

  method Expand(h: Hmac, prk: seq<byte>, info: seq<byte>, outputSize: nat, offset: nat) returns (results: seq<byte>)
    requires HashSized(h)
    ensures |results| == outputSize
    ensures results == Expansion(h, prk, info, outputSize, offset)
  {
    hide Progress;
    var iterations := Iterations(outputSize);
    var mixin: seq<byte> := [];
    results := [];
    var remainingBytes := outputSize;
    NoProgress(h, prk, info, Utf8, offset, outputSize);
    for i := offset to offset + iterations
      invariant |results| + remainingBytes == outputSize
      invariant Progress(h, prk, info, Utf8, offset, i - offset, mixin, results, remainingBytes)
    {
      ghost var k := i - offset;
      assert i == offset + k;
      NextRound(h, prk, info, Utf8, offset, k, mixin, results, remainingBytes);
      var stepResult := h(prk, mixin + info + Utf8(i));
      var stepSize := Min(remainingBytes, |stepResult|);
      results := results + stepResult[..stepSize];
      mixin := stepResult;
      remainingBytes := remainingBytes - stepSize;
      assert i + 1 - offset == k + 1;
    }
    AllRounds(h, prk, info, Utf8, offset, mixin, results, remainingBytes);
  }

  /** `bytes([index])` raises from block 256 on, before anything is returned. */
  method UtilsExpand(h: Hmac, prk: seq<byte>, info: seq<byte>, outputSize: nat) returns (r: Option<seq<byte>>)
    requires HashSized(h)
    ensures r.None? <==> outputSize > 255 * HASH_OUTPUT_SIZE
    ensures r.Some? ==> |r.value| == outputSize && r.value == RfcExpand(h, prk, info, outputSize)
  {
    hide Progress;
    var iterations := Iterations(outputSize);
    var mixin: seq<byte> := [];
    var results: seq<byte> := [];
    var remaining := outputSize;
    NoProgress(h, prk, info, Octet, 1, outputSize);
    for index := 1 to iterations + 1
      invariant index <= 256
      invariant |results| + remaining == outputSize
      invariant Progress(h, prk, info, Octet, 1, index - 1, mixin, results, remaining)
    {
      if index > 255 {
        return None;
      }
      NextRound(h, prk, info, Octet, 1, index - 1, mixin, results, remaining);
      var stepResult := h(prk, mixin + info + [index as byte]);
      var stepSize := Min(remaining, |stepResult|);
      results := results + stepResult[..stepSize];
      mixin := stepResult;
      remaining := remaining - stepSize;
    }
    AllRounds(h, prk, info, Octet, 1, mixin, results, remaining);
    return Some(results);
  }

  // ----- agreement with the standard -----

  lemma {:induction false} EarlyBlocksAgree(h: Hmac, prk: seq<byte>, info: seq<byte>, n: nat)
    requires n <= 127
    ensures Block(h, prk, info, Utf8, 1, n) == Block(h, prk, info, Octet, 1, n)
    ensures Blocks(h, prk, info, Utf8, 1, n) == Blocks(h, prk, info, Octet, 1, n)
  {
    if n > 0 {
      EarlyBlocksAgree(h, prk, info, n - 1);
    }
  }

  /** Up to 127 blocks the engine's expansion is the standard's, for every HMAC. */
  lemma AgreesWithStandard(h: Hmac, prk: seq<byte>, info: seq<byte>, size: nat)
    requires size <= 127 * HASH_OUTPUT_SIZE
    ensures Expansion(h, prk, info, size, 1) == RfcExpand(h, prk, info, size)
  {
    EarlyBlocksAgree(h, prk, info, Iterations(size));
  }

  /** The blocks of a shorter expansion are the first blocks of a longer one. */
  lemma {:induction false} BlocksArePrefix(h: Hmac, prk: seq<byte>, info: seq<byte>, number: nat -> seq<byte>,
                                           offset: nat, m: nat, n: nat)
    requires m <= n
    ensures Blocks(h, prk, info, number, offset, m) <= Blocks(h, prk, info, number, offset, n)
    decreases n
  {
    if m < n {
      BlocksArePrefix(h, prk, info, number, offset, m, n - 1);
    }
  }

  /** A shorter output is a prefix of a longer one, for either version. */
  lemma ShorterIsPrefix(h: Hmac, prk: seq<byte>, info: seq<byte>, offset: nat, short: nat, long: nat)
    requires HashSized(h) && short <= long
    ensures |Expansion(h, prk, info, long, offset)| == long
    ensures Expansion(h, prk, info, long, offset)[..short] == Expansion(h, prk, info, short, offset)
  {
    var m, n := Iterations(short), Iterations(long);
    BlocksArePrefix(h, prk, info, Utf8, offset, m, n);
    BlocksLength(h, prk, info, Utf8, offset, m);
    BlocksLength(h, prk, info, Utf8, offset, n);
  }

  /** A hash that tells how long its message was. */
  function LengthHash(key: seq<byte>, message: seq<byte>): seq<byte>
  {
    seq(HASH_OUTPUT_SIZE, _ => (|message| % 256) as byte)
  }

  lemma {:induction false} FirstByteOfBlock(h: Hmac, prk: seq<byte>, info: seq<byte>, number: nat -> seq<byte>,
                                            offset: nat, k: nat, n: nat)
    requires HashSized(h) && k < n
    ensures |Blocks(h, prk, info, number, offset, n)| == HASH_OUTPUT_SIZE * n
    ensures Blocks(h, prk, info, number, offset, n)[HASH_OUTPUT_SIZE * k]
              == Block(h, prk, info, number, offset, k + 1)[0]
  {
    BlocksLength(h, prk, info, number, offset, k);
    BlocksLength(h, prk, info, number, offset, n);
    BlocksArePrefix(h, prk, info, number, offset, k + 1, n);
  }

  lemma {:induction false} CountersDiffer(prk: seq<byte>, info: seq<byte>)
    ensures Block(LengthHash, prk, info, Utf8, 1, 128)[0] != Block(LengthHash, prk, info, Octet, 1, 128)[0]
  {
    EarlyBlocksAgree(LengthHash, prk, info, 127);
    var before := Block(LengthHash, prk, info, Octet, 1, 127);
    assert Block(LengthHash, prk, info, Utf8, 1, 128) == LengthHash(prk, before + info + Utf8(128));
    assert Block(LengthHash, prk, info, Octet, 1, 128) == LengthHash(prk, before + info + Octet(128));
    hide Block;
    LengthsShow(prk, before + info + Octet(128), before + info + Utf8(128));
  }

  lemma LengthsShow(prk: seq<byte>, short: seq<byte>, long: seq<byte>)
    requires |long| == |short| + 1
    ensures LengthHash(prk, short)[0] != LengthHash(prk, long)[0]
  {
  }

  /** From block 128 on the counter takes two bytes and the output is another one. */
  lemma DiffersBeyond(prk: seq<byte>, info: seq<byte>, size: nat)
    requires 127 * HASH_OUTPUT_SIZE < size
    ensures HashSized(LengthHash)
    ensures Expansion(LengthHash, prk, info, size, 1) != RfcExpand(LengthHash, prk, info, size)
  {
    hide Block, Blocks;
    var h, n, at := LengthHash, Iterations(size), 127 * HASH_OUTPUT_SIZE;
    FirstByteOfBlock(h, prk, info, Utf8, 1, 127, n);
    FirstByteOfBlock(h, prk, info, Octet, 1, 127, n);
    CountersDiffer(prk, info);
    assert Expansion(h, prk, info, size, 1)[at] != RfcExpand(h, prk, info, size)[at];
  }

  /** The engine's expansion follows the standard, whatever the hash, exactly up to 127 blocks. */
  lemma FollowsStandardIff(size: nat)
    ensures (forall h: Hmac, prk, info :: HashSized(h) ==>
               Expansion(h, prk, info, size, 1) == RfcExpand(h, prk, info, size))
            <==> size <= 127 * 32
  {
    if size <= 127 * HASH_OUTPUT_SIZE {
      forall h: Hmac, prk, info ensures Expansion(h, prk, info, size, 1) == RfcExpand(h, prk, info, size) {
        AgreesWithStandard(h, prk, info, size);
      }
    } else {
      DiffersBeyond([], [], size);
    }
  }

  // ----- extract and expand -----

  const ZEROS: seq<byte> := seq(HASH_OUTPUT_SIZE, _ => 0)

  /** `deriveSecrets` of version 3: an empty salt counts as none. */
  function DeriveSecrets(h: Hmac, input: seq<byte>, info: seq<byte>, size: nat, salt: Option<seq<byte>>): seq<byte>
  {
    Expansion(h, h(if salt.Some? && salt.value != [] then salt.value else ZEROS, input), info, size, 1)
  }

  /** `extract_and_expand`, where only an absent salt is replaced. */
  function ExtractAndExpand(h: Hmac, input: seq<byte>, info: seq<byte>, size: nat, salt: Option<seq<byte>>): seq<byte>
  {
    RfcExpand(h, h(if salt.Some? then salt.value else ZEROS, input), info, size)
  }

  /** The two entry points agree up to 127 blocks, because HMAC pads a short key with zeros (RFC 2104). */
  lemma EntryPointsAgree(h: Hmac, input: seq<byte>, info: seq<byte>, size: nat, salt: Option<seq<byte>>)
    requires size <= 127 * HASH_OUTPUT_SIZE && h([], input) == h(ZEROS, input)
    ensures DeriveSecrets(h, input, info, size, salt) == ExtractAndExpand(h, input, info, size, salt)
  {
    AgreesWithStandard(h, h(if salt.Some? && salt.value != [] then salt.value else ZEROS, input), info, size);
  }
}
