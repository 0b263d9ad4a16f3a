/**
 What the MAC of a message binds (axolotl/protocol/whispermessage.py), stated on building and checking alone:
 for every HMAC at once, or by naming one that tells the difference.
 */
module MacBinding {
  import opened Curve
  import opened ByteUtil
  import opened Hkdf
  import opened Framing

  /** Everything in front of the trailer. */
  function Front(built: seq<byte>): seq<byte>
    requires |built| >= 8
  {
    built[..|built| - 8]
  }

  function Trailer(built: seq<byte>): seq<byte>
    requires |built| >= 8
  {
    built[|built| - 8..]
  }

  /** An HMAC that answers one key and input differently from all others. */
  function Spot(key: seq<byte>, message: seq<byte>): Hmac
  {
    (k, m) => if k == key && m == message then seq(HASH_OUTPUT_SIZE, _ => 1) else seq(HASH_OUTPUT_SIZE, _ => 0)
  }

  lemma SpotIsHashSized(key: seq<byte>, message: seq<byte>)
    ensures HashSized(Spot(key, message))
  {
  }

  /** The bytes of a message whose counters fit. */
  function Built(c: Codec<WhisperFields>, h: Hmac, m: WhisperMessage, key: seq<byte>, s: PublicKey,
                 r: PublicKey): seq<byte>
    requires m.counter < UINT32_LIMIT && m.previousCounter < UINT32_LIMIT
  {
    BuildWhisper(c, h, m, key, s, r).value
  }

  /** What building appends is what checking compares, and nothing else in the message depends on the HMAC. */
  lemma BuiltParts(c: Codec<WhisperFields>, h: Hmac, h0: Hmac, m: WhisperMessage, key: seq<byte>, s: PublicKey,
                   r: PublicKey)
    requires HashSized(h) && HashSized(h0) && m.counter < UINT32_LIMIT && m.previousCounter < UINT32_LIMIT
    ensures var built := Built(c, h, m, key, s, r);
            && |built| >= 8 && |Built(c, h0, m, key, s, r)| >= 8
            && Front(built) == Front(Built(c, h0, m, key, s, r))
            && Trailer(built) == GetMac(h, m.version, s, r, key, Front(built))
  {
  }

  lemma TrailerIsCompared(h: Hmac, version: nat, front: seq<byte>, mac: seq<byte>, key: seq<byte>, s: PublicKey,
                          r: PublicKey)
    requires |mac| == 8
    ensures VerifyMac(h, front + mac, version, s, r, key) <==> GetMac(h, version, s, r, key, front) == mac
  {
    hide GetMac, Slice;
    TrailerIsFound(front, mac);
  }

  /** Names of equal length in front make the covered inputs equal only if everything is. */
  lemma CoveredInputs(s: PublicKey, r: PublicKey, front: seq<byte>, s': PublicKey, r': PublicKey, front': seq<byte>)
    requires |s.publicKey| == |r.publicKey| == |s'.publicKey| == |r'.publicKey| == 32
    ensures SerializeKey(s) + SerializeKey(r) + front == SerializeKey(s') + SerializeKey(r') + front'
            <==> s == s' && r == r' && front == front'
  {
    var x, y := SerializeKey(s) + SerializeKey(r) + front, SerializeKey(s') + SerializeKey(r') + front';
    if x == y {
      assert s.publicKey == x[1..33] == y[1..33] == s'.publicKey;
      assert r.publicKey == x[34..66] == y[34..66] == r'.publicKey;
      assert front == x[66..] == y[66..] == front';
    }
  }

  lemma SpotTells(key: seq<byte>, s: PublicKey, r: PublicKey, front: seq<byte>, key': seq<byte>, s': PublicKey,
                  r': PublicKey, front': seq<byte>)
    requires |s.publicKey| == |r.publicKey| == |s'.publicKey| == |r'.publicKey| == 32
    ensures var h := Spot(key, SerializeKey(s) + SerializeKey(r) + front);
            GetMac(h, 3, s, r, key, front) == GetMac(h, 3, s', r', key', front')
            <==> s == s' && r == r' && front == front' && key == key'
  {
    CoveredInputs(s, r, front, s', r', front');
    var h := Spot(key, SerializeKey(s) + SerializeKey(r) + front);
    var mine, other := GetMac(h, 3, s, r, key, front), GetMac(h, 3, s', r', key', front');
    assert mine[0] == 1;
    var same := SerializeKey(s') + SerializeKey(r') + front' == SerializeKey(s) + SerializeKey(r) + front;
    assert other[0] == if key' == key && same then 1 else 0;
  }

  /**
   What version 3 binds. Put the trailer of a built message behind any front, and check it under any key and
   any two 32-byte identities: it passes under every HMAC if and only if front, key and both identities are
   those that the message was built with. So for the swapped pair, or another receiver, or one changed byte,
   some HMAC refuses it.
   */
  lemma MacBindsEverything(c: Codec<WhisperFields>, h0: Hmac, m: WhisperMessage, key: seq<byte>, s: PublicKey,
                           r: PublicKey, key': seq<byte>, s': PublicKey, r': PublicKey, front': seq<byte>)
    requires HashSized(h0) && m.version == 3 && m.counter < UINT32_LIMIT && m.previousCounter < UINT32_LIMIT
    requires |s.publicKey| == |r.publicKey| == |s'.publicKey| == |r'.publicKey| == 32
    ensures |Built(c, h0, m, key, s, r)| >= 8
    ensures forall h: Hmac :: HashSized(h) ==> |Built(c, h, m, key, s, r)| >= 8
    ensures (forall h: Hmac :: HashSized(h) ==>
               VerifyMac(h, front' + Trailer(Built(c, h, m, key, s, r)), 3, s', r', key'))
            <==> (front' == Front(Built(c, h0, m, key, s, r)) && key' == key && s' == s && r' == r)
  {
    hide VerifyMac, GetMac, Built, HashSized;
    BuiltParts(c, h0, h0, m, key, s, r);
    forall h: Hmac | HashSized(h)
      ensures var built := Built(c, h, m, key, s, r);
              && |built| >= 8 && Front(built) == Front(Built(c, h0, m, key, s, r))
              && (VerifyMac(h, front' + Trailer(built), 3, s', r', key')
                  <==> GetMac(h, 3, s', r', key', front') == GetMac(h, 3, s, r, key, Front(built)))
    {
      BuiltParts(c, h, h0, m, key, s, r);
      TrailerIsCompared(h, 3, front', Trailer(Built(c, h, m, key, s, r)), key', s', r');
    }
    var front := Front(Built(c, h0, m, key, s, r));
    var spot := Spot(key, SerializeKey(s) + SerializeKey(r) + front);
    SpotIsHashSized(key, SerializeKey(s) + SerializeKey(r) + front);
    SpotTells(key, s, r, front, key', s', r', front');
    assert HashSized(spot);
  }

  /** Older versions bind no identities: building and checking are the same for all of them, under every HMAC. */
  lemma OldMacsBindNoIdentities(c: Codec<WhisperFields>, h: Hmac, m: WhisperMessage, key: seq<byte>, s: PublicKey,
                                r: PublicKey, s': PublicKey, r': PublicKey, bytes: seq<byte>)
    requires m.version < 3
    ensures BuildWhisper(c, h, m, key, s, r) == BuildWhisper(c, h, m, key, s', r')
    ensures VerifyMac(h, bytes, m.version, s, r, key) == VerifyMac(h, bytes, m.version, s', r', key)
  {
  }

  /** But they bind key and front: version 2 passes under every HMAC only with both unchanged. */
  lemma OldMacsBindTheRest(c: Codec<WhisperFields>, h0: Hmac, m: WhisperMessage, key: seq<byte>, s: PublicKey,
                           r: PublicKey, key': seq<byte>, front': seq<byte>)
    requires HashSized(h0) && m.version < 3 && m.counter < UINT32_LIMIT && m.previousCounter < UINT32_LIMIT
    ensures |Built(c, h0, m, key, s, r)| >= 8
    ensures forall h: Hmac :: HashSized(h) ==> |Built(c, h, m, key, s, r)| >= 8
    ensures (forall h: Hmac :: HashSized(h) ==>
               VerifyMac(h, front' + Trailer(Built(c, h, m, key, s, r)), m.version, s, r, key'))
            <==> (front' == Front(Built(c, h0, m, key, s, r)) && key' == key)
  {
    hide VerifyMac, Built, HashSized;
    BuiltParts(c, h0, h0, m, key, s, r);
    forall h: Hmac | HashSized(h)
      ensures var built := Built(c, h, m, key, s, r);
              && |built| >= 8 && Front(built) == Front(Built(c, h0, m, key, s, r))
              && (VerifyMac(h, front' + Trailer(built), m.version, s, r, key')
                  <==> GetMac(h, m.version, s, r, key', front') == GetMac(h, m.version, s, r, key, Front(built)))
    {
      BuiltParts(c, h, h0, m, key, s, r);
      TrailerIsCompared(h, m.version, front', Trailer(Built(c, h, m, key, s, r)), key', s, r);
    }
    var front := Front(Built(c, h0, m, key, s, r));
    SpotIsHashSized(key, front);
    var spot := Spot(key, front);
    assert HashSized(spot);
    assert [] + front == front && [] + front' == front';
    var mine, other := GetMac(spot, m.version, s, r, key, front), GetMac(spot, m.version, s, r, key', front');
    assert mine[0] == 1;
    assert other[0] == if key' == key && front' == front then 1 else 0;
  }
}
