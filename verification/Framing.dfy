/**
 Messages as bytes: a version byte, a protobuf body and, for two of the four kinds, a trailer
 (axolotl/protocol/). The protobuf codec, HMAC and the signature function are parameters.
 */
module Framing {
  import opened Wrappers
  import opened Curve
  import opened ByteUtil
  import opened Hkdf
  import Messages

  const UNSUPPORTED_VERSION: nat := 1
  const MAC_LENGTH: nat := 8
  const SIGNATURE_LENGTH: nat := 64
  const UINT32_LIMIT: nat := 0x1_0000_0000

  newtype uint32 = i: int | 0 <= i < 0x1_0000_0000

  datatype ParseFailure =
    | LegacyMessage
    | InvalidVersion
    | InvalidMessage
    | Uncaught       // a Python or protobuf error that the constructor lets through

  /** A generated protobuf class: serialising never fails, parsing may. */
  datatype Codec<!F> = Codec(encode: F -> seq<byte>, decode: seq<byte> -> Option<F>)

  ghost predicate RoundTrips<F(!new)>(c: Codec<F>)
  {
    forall f: F :: c.decode(c.encode(f)) == Some(f)
  }

  // ----- keys -----

  function SerializeKey(k: PublicKey): (r: seq<byte>)
    ensures r != []
  {
    [DJB_TYPE] + k.publicKey
  }

  /** At most 32 bytes are read; every constructor turns the unknown key type into an invalid message. */
  function DecodePoint(bytes: seq<byte>): Result<PublicKey, ParseFailure>
  {
    if bytes == [] then Err(Uncaught)
    else if bytes[0] != DJB_TYPE then Err(InvalidMessage)
    else Ok(DjbECPublicKey(Slice(Slice(bytes, 1, |bytes|), 0, 32)))
  }

  predicate Readable(k: PublicKey)
  {
    |k.publicKey| <= 32
  }

  lemma KeyRoundTrip(k: PublicKey)
    ensures DecodePoint(SerializeKey(k)).Ok?
    ensures DecodePoint(SerializeKey(k)) == Ok(k) <==> Readable(k)
  {
    assert Slice(SerializeKey(k), 1, |SerializeKey(k)|) == k.publicKey;
    if Readable(k) {
      assert Slice(k.publicKey, 0, 32) == k.publicKey;
    }
  }

  /** Which bytes decode: a key of the one known type; 32 bytes of it at most are read. */
  lemma PointsThatDecode(bytes: seq<byte>)
    ensures DecodePoint(bytes).Ok? <==> bytes != [] && bytes[0] == 5
    ensures DecodePoint(bytes).Ok? ==> DecodePoint(bytes).value.publicKey == Slice(bytes, 1, 33)
  {
    if DecodePoint(bytes).Ok? {
      var rest := Slice(bytes, 1, |bytes|);
      assert rest == bytes[1..];
      assert Slice(rest, 0, 32) == Slice(bytes, 1, 33);
    }
  }

  /** A trailer of known length is found again at the end. */
  lemma TrailerIsFound(front: seq<byte>, trailer: seq<byte>)
    ensures var s := front + trailer;
            Slice(s, 0, |s| - |trailer|) == front && Slice(s, |s| - |trailer|, |s|) == trailer
  {
  }

  // ----- whisper messages -----

  datatype WhisperFields = WhisperFields(ratchetKey: seq<byte>, counter: uint32, previousCounter: uint32,
                                         ciphertext: seq<byte>)

  datatype WhisperMessage = WhisperMessage(version: nat, ratchetKey: PublicKey, counter: nat, previousCounter: nat,
                                           ciphertext: seq<byte>)

  /** The first eight bytes of the MAC; version 3 and later also authenticate both identities. */
  function GetMac(h: Hmac, version: nat, sender: PublicKey, receiver: PublicKey, macKey: seq<byte>,
                  serialized: seq<byte>): seq<byte>
  {
    var identities := if version >= 3 then SerializeKey(sender) + SerializeKey(receiver) else [];
    Slice(h(macKey, identities + serialized), 0, MAC_LENGTH)
  }

  /** Setting a 32-bit protobuf field to a larger value raises. */
  function BuildWhisper(c: Codec<WhisperFields>, h: Hmac, m: WhisperMessage, macKey: seq<byte>, sender: PublicKey,
                        receiver: PublicKey)
    : Result<seq<byte>, ParseFailure>
  {
    if m.counter >= UINT32_LIMIT || m.previousCounter >= UINT32_LIMIT then Err(Uncaught)
    else
      var body := c.encode(WhisperFields(SerializeKey(m.ratchetKey), m.counter as uint32, m.previousCounter as uint32,
                                         m.ciphertext));
      var front := [IntsToByteHighAndLow(m.version, Messages.CURRENT_VERSION)] + body;
      Ok(front + GetMac(h, m.version, sender, receiver, macKey, front))
  }

  /**
   The trailer is cut off unread; the body's own errors are let through. No bytes at all select the
   building branch, which fails.
   */
  function ParseWhisper(c: Codec<WhisperFields>, s: seq<byte>): Result<WhisperMessage, ParseFailure>
  {
    if s == [] then Err(Uncaught)
    else
      var version := HighBitsToInt(s[0]);
      if version <= UNSUPPORTED_VERSION then Err(LegacyMessage)
      else if version > Messages.CURRENT_VERSION then Err(InvalidMessage)
      else match c.decode(Slice(s, 1, |s| - MAC_LENGTH))
           case None => Err(Uncaught)
           case Some(f) =>
             if f.ciphertext == [] || f.ratchetKey == [] then Err(InvalidMessage)
             else match DecodePoint(f.ratchetKey)
                  case Err(e) => Err(e)
                  case Ok(k) => Ok(WhisperMessage(version, k, f.counter as nat, f.previousCounter as nat, f.ciphertext))
  }

  /** `verifyMac` on the bytes as received, with Python's slices. */
  predicate VerifyMac(h: Hmac, s: seq<byte>, version: nat, sender: PublicKey, receiver: PublicKey, macKey: seq<byte>)
  {
    var first := |s| - MAC_LENGTH;
    GetMac(h, version, sender, receiver, macKey, Slice(s, 0, first)) == Slice(s, first, first + MAC_LENGTH)
  }

  method Serialize(c: Codec<WhisperFields>, h: Hmac, m: WhisperMessage, macKey: seq<byte>, sender: PublicKey,
                   receiver: PublicKey)
    returns (r: Result<seq<byte>, ParseFailure>)
    ensures r == BuildWhisper(c, h, m, macKey, sender, receiver)
  {
    var version := IntsToByteHighAndLow(m.version, Messages.CURRENT_VERSION);
    if m.counter >= UINT32_LIMIT || m.previousCounter >= UINT32_LIMIT {
      return Err(Uncaught);
    }
    var message := c.encode(WhisperFields(SerializeKey(m.ratchetKey), m.counter as uint32, m.previousCounter as uint32,
                                          m.ciphertext));
    var front := Combine([Octet(version), Octets(message)]);
    var mac := GetMac(h, m.version, sender, receiver, macKey, front);
    var serialized := Combine([Octet(version), Octets(message), Octets(mac)]);
    JoinedParts(Octet(version), Octets(message), Octets(mac));
    return Ok(serialized);
  }

  method CheckMac(h: Hmac, s: seq<byte>, version: nat, sender: PublicKey, receiver: PublicKey, macKey: seq<byte>)
    returns (r: bool)
    ensures r == VerifyMac(h, s, version, sender, receiver, macKey)
  {
    var parts := Split(s, |s| - MAC_LENGTH, MAC_LENGTH, None);
    var ourMac := GetMac(h, version, sender, receiver, macKey, parts[0]);
    return ourMac == parts[1];
  }

  lemma AcceptedEndsInMac(h: Hmac, s: seq<byte>, version: nat, sender: PublicKey, receiver: PublicKey,
                          macKey: seq<byte>)
    requires HashSized(h) && VerifyMac(h, s, version, sender, receiver, macKey)
    ensures |s| >= MAC_LENGTH
    ensures var front := s[..|s| - MAC_LENGTH]; s == front + GetMac(h, version, sender, receiver, macKey, front)
  {
    var first := |s| - MAC_LENGTH;
    var mac := GetMac(h, version, sender, receiver, macKey, Slice(s, 0, first));
    assert |mac| == MAC_LENGTH;
    assert mac == Slice(s, first, first + MAC_LENGTH);
    hide GetMac, VerifyMac;
    assert Slice(s, 0, first) == s[..first] && mac == s[first..];
  }

  lemma EndsInMacIsAccepted(h: Hmac, front: seq<byte>, version: nat, sender: PublicKey, receiver: PublicKey,
                            macKey: seq<byte>)
    requires HashSized(h)
    ensures VerifyMac(h, front + GetMac(h, version, sender, receiver, macKey, front), version, sender, receiver, macKey)
  {
    var mac := GetMac(h, version, sender, receiver, macKey, front);
    assert |mac| == MAC_LENGTH;
    hide GetMac, Slice;
    TrailerIsFound(front, mac);
  }

  /**
   What the check accepts: the MAC of everything before it, in full. Shorter inputs, where slices wrap
   around, never pass.
   */
  lemma VerifyMacMeaning(h: Hmac, s: seq<byte>, version: nat, sender: PublicKey, receiver: PublicKey, macKey: seq<byte>)
    requires HashSized(h)
    ensures VerifyMac(h, s, version, sender, receiver, macKey)
            <==> exists front :: s == front + GetMac(h, version, sender, receiver, macKey, front)
  {
    hide VerifyMac, GetMac;
    if VerifyMac(h, s, version, sender, receiver, macKey) {
      AcceptedEndsInMac(h, s, version, sender, receiver, macKey);
    }
    if exists front :: s == front + GetMac(h, version, sender, receiver, macKey, front) {
      var front :| s == front + GetMac(h, version, sender, receiver, macKey, front);
      EndsInMacIsAccepted(h, front, version, sender, receiver, macKey);
    }
  }

  /**
   A built message passes the receiver's check under the same key and the same two identities, and
   parses back to the fields it was built from exactly for versions 2 and 3, a non-empty ciphertext
   and a ratchet key of at most 32 bytes.
   */
  lemma WhisperRoundTrip(c: Codec<WhisperFields>, h: Hmac, m: WhisperMessage, macKey: seq<byte>, sender: PublicKey,
                         receiver: PublicKey)
    requires RoundTrips(c) && HashSized(h)
    ensures var built := BuildWhisper(c, h, m, macKey, sender, receiver);
            built.Ok? <==> m.counter < UINT32_LIMIT && m.previousCounter < UINT32_LIMIT
    ensures var built := BuildWhisper(c, h, m, macKey, sender, receiver);
            built.Ok? ==>
              && VerifyMac(h, built.value, m.version, sender, receiver, macKey)
              && var kept := m.version in {2, 3} && m.ciphertext != [] && Readable(m.ratchetKey);
                 (ParseWhisper(c, built.value) == Ok(m) <==> kept)
  {
    var built := BuildWhisper(c, h, m, macKey, sender, receiver);
    if built.Ok? {
      var f := WhisperFields(SerializeKey(m.ratchetKey), m.counter as uint32, m.previousCounter as uint32,
                             m.ciphertext);
      var front := [IntsToByteHighAndLow(m.version, Messages.CURRENT_VERSION)] + c.encode(f);
      EndsInMacIsAccepted(h, front, m.version, sender, receiver, macKey);
      assert Slice(built.value, 1, |built.value| - MAC_LENGTH) == c.encode(f);
      assert c.decode(c.encode(f)) == Some(f);
      NibblesRoundTrip(m.version, Messages.CURRENT_VERSION);
      KeyRoundTrip(m.ratchetKey);
    }
  }

  // ----- prekey messages -----

  /** An absent prekey id reads as 0 in the generated class. */
  datatype PreKeyFields = PreKeyFields(registrationId: uint32, preKeyId: Option<uint32>, signedPreKeyId: uint32,
                                       baseKey: seq<byte>, identityKey: seq<byte>, message: seq<byte>)

  datatype PreKeyMessage = PreKeyMessage(version: nat, registrationId: uint32, preKeyId: Option<uint32>,
                                         signedPreKeyId: uint32,
                                         baseKey: PublicKey, identityKey: PublicKey, message: seq<byte>)

  function BuildPreKey(c: Codec<PreKeyFields>, m: PreKeyMessage): seq<byte>
  {
    [IntsToByteHighAndLow(m.version, Messages.CURRENT_VERSION)]
    + c.encode(PreKeyFields(m.registrationId, m.preKeyId, m.signedPreKeyId, SerializeKey(m.baseKey),
                            SerializeKey(m.identityKey), m.message))
  }

  /** Every failure below the version check, the inner message's included, is an invalid message. */
  function ParsePreKey(c: Codec<PreKeyFields>, inner: Codec<WhisperFields>,
                       s: seq<byte>): Result<PreKeyMessage, ParseFailure>
  {
    if s == [] then Err(Uncaught)
    else
      var version := HighBitsToInt(s[0]);
      if version > Messages.CURRENT_VERSION then Err(InvalidVersion)
      else if version < Messages.CURRENT_VERSION then Err(InvalidMessage)
      else match c.decode(Slice(s, 1, |s|))
           case None => Err(InvalidMessage)
           case Some(f) =>
             if f.baseKey == [] || f.identityKey == [] || f.message == [] then Err(InvalidMessage)
             else if DecodePoint(f.baseKey).Err? || DecodePoint(f.identityKey).Err? then Err(InvalidMessage)
             else if ParseWhisper(inner, f.message).Err? then Err(InvalidMessage)
             else Ok(PreKeyMessage(version, f.registrationId,
                                   Some(if f.preKeyId.Some? then f.preKeyId.value else 0), f.signedPreKeyId,
                                   DecodePoint(f.baseKey).value, DecodePoint(f.identityKey).value, f.message))
  }

  /** The round trip keeps everything except that "no prekey" comes back as prekey 0. */
  lemma PreKeyRoundTrip(c: Codec<PreKeyFields>, inner: Codec<WhisperFields>, m: PreKeyMessage)
    requires RoundTrips(c)
    ensures ParsePreKey(c, inner, BuildPreKey(c, m))
              == Ok(m.(preKeyId := Some(if m.preKeyId.Some? then m.preKeyId.value else 0)))
            <==> m.version == 3 && Readable(m.baseKey) && Readable(m.identityKey) && ParseWhisper(inner, m.message).Ok?
  {
    var f := PreKeyFields(m.registrationId, m.preKeyId, m.signedPreKeyId, SerializeKey(m.baseKey),
                          SerializeKey(m.identityKey), m.message);
    var s := BuildPreKey(c, m);
    assert Slice(s, 1, |s|) == c.encode(f);
    assert c.decode(c.encode(f)) == Some(f);
    NibblesRoundTrip(m.version, Messages.CURRENT_VERSION);
    KeyRoundTrip(m.baseKey);
    KeyRoundTrip(m.identityKey);
  }

  // ----- key exchange messages -----

  datatype ExchangeFields = ExchangeFields(id: Option<uint32>, baseKey: Option<seq<byte>>,
                                           ratchetKey: Option<seq<byte>>,
                                           identityKey: Option<seq<byte>>, baseKeySignature: Option<seq<byte>>)

  datatype ExchangeMessage = ExchangeMessage(version: nat, sequence: nat, flags: nat, baseKey: PublicKey,
                                             ratchetKey: PublicKey,
                                             identityKey: PublicKey, baseKeySignature: seq<byte>)

  function PackId(sequence: nat, flags: nat): nat
  {
    Or(32 * sequence, flags)
  }

  function UnpackId(id: nat): (nat, nat)
  {
    (id / 32, id % 32)
  }

  lemma PackedWord(high: nat, low: nat)
    requires low < 32
    ensures UnpackId(32 * high + low) == (high, low)
    ensures 32 * high + low < UINT32_LIMIT <==> high < 0x800_0000
  {
  }

  /** The packed word holds a sequence and flags if and only if the flags fit into five bits. */
  lemma IdRoundTrip(sequence: nat, flags: nat)
    ensures UnpackId(PackId(sequence, flags)) == (sequence, flags) <==> flags < 32
    ensures flags < 32 ==> (PackId(sequence, flags) < UINT32_LIMIT <==> sequence < 0x800_0000)
  {
    hide Or, UnpackId;
    OrTimes32(sequence, flags);
    OrZero(sequence);
    PackedWord(Or(sequence, flags / 32), flags % 32);
  }

  function BuildExchange(c: Codec<ExchangeFields>, m: ExchangeMessage): Result<seq<byte>, ParseFailure>
  {
    var id := PackId(m.sequence, m.flags);
    if id >= UINT32_LIMIT then Err(Uncaught)
    else Ok([IntsToByteHighAndLow(m.version, Messages.CURRENT_VERSION)]
            + c.encode(ExchangeFields(Some(id as uint32), Some(SerializeKey(m.baseKey)),
                                      Some(SerializeKey(m.ratchetKey)),
                                      Some(SerializeKey(m.identityKey)),
                                      if m.version >= 3 then Some(m.baseKeySignature) else None)))
  }

  function DecodePoints(a: seq<byte>, b: seq<byte>,
                        c: seq<byte>): Result<(PublicKey, PublicKey, PublicKey), ParseFailure>
  {
    match (DecodePoint(a), DecodePoint(b), DecodePoint(c))
    case (Ok(x), Ok(y), Ok(z)) => Ok((x, y, z))
    case (Ok(_), Ok(_), Err(e)) => Err(e)
    case (Ok(_), Err(e), _) => Err(e)
    case (Err(e), _, _) => Err(e)
  }

  function ParseExchange(c: Codec<ExchangeFields>, s: seq<byte>): Result<ExchangeMessage, ParseFailure>
  {
    if s == [] then Err(Uncaught)
    else
      var version := HighBitsToInt(s[0]);
      if version < Messages.CURRENT_VERSION then Err(LegacyMessage)
      else if version > Messages.CURRENT_VERSION then Err(InvalidVersion)
      else match c.decode(Slice(s, 1, |s|))
           case None => Err(Uncaught)
           case Some(f) =>
             if f.id.None? || f.baseKey.None? || f.ratchetKey.None? || f.identityKey.None? || f.baseKeySignature.None?
             then Err(InvalidMessage)
             else
               var (sequence, flags) := UnpackId(f.id.value as nat);
               match DecodePoints(f.baseKey.value, f.ratchetKey.value, f.identityKey.value)
               case Err(e) => Err(e)
               case Ok((base, ratchet, identity)) =>
                 Ok(ExchangeMessage(version, sequence, flags, base, ratchet, identity, f.baseKeySignature.value))
  }

  /** A key exchange message comes back as it was built exactly for version 3, five-bit flags and readable keys. */
  lemma ExchangeRoundTrip(c: Codec<ExchangeFields>, m: ExchangeMessage)
    requires RoundTrips(c)
    ensures m.flags < 32 ==> (BuildExchange(c, m).Ok? <==> m.sequence < 0x800_0000)
    ensures BuildExchange(c, m).Ok? ==>
              (ParseExchange(c, BuildExchange(c, m).value) == Ok(m)
               <==> (&& m.version == 3 && m.flags < 32
                     && Readable(m.baseKey) && Readable(m.ratchetKey) && Readable(m.identityKey)))
  {
    IdRoundTrip(m.sequence, m.flags);
    if BuildExchange(c, m).Ok? {
      var f := ExchangeFields(Some(PackId(m.sequence, m.flags) as uint32), Some(SerializeKey(m.baseKey)),
                              Some(SerializeKey(m.ratchetKey)),
                              Some(SerializeKey(m.identityKey)),
                              if m.version >= 3 then Some(m.baseKeySignature) else None);
      var s := BuildExchange(c, m).value;
      assert Slice(s, 1, |s|) == c.encode(f);
      assert c.decode(c.encode(f)) == Some(f);
      NibblesRoundTrip(m.version, Messages.CURRENT_VERSION);
      KeyRoundTrip(m.baseKey);
      KeyRoundTrip(m.ratchetKey);
      KeyRoundTrip(m.identityKey);
    }
  }

  // ----- group messages -----

  datatype GroupFields = GroupFields(id: uint32, iteration: uint32, ciphertext: seq<byte>)

  function GroupFront(c: Codec<GroupFields>, f: GroupFields): seq<byte>
  {
    [IntsToByteHighAndLow(Messages.CURRENT_VERSION, Messages.CURRENT_VERSION)] + c.encode(f)
  }

  function BuildGroup(c: Codec<GroupFields>, sign: seq<byte> -> seq<byte>, f: GroupFields): seq<byte>
  {
    GroupFront(c, f) + sign(GroupFront(c, f))
  }

  /** Whatever goes wrong while parsing, short inputs included, is an invalid message. */
  function ParseGroup(c: Codec<GroupFields>, s: seq<byte>): Result<GroupFields, ParseFailure>
  {
    if s == [] || HighBitsToInt(s[0]) != Messages.CURRENT_VERSION || c.decode(Slice(s, 1, |s| - SIGNATURE_LENGTH)).None?
    then Err(InvalidMessage)
    else Ok(c.decode(Slice(s, 1, |s| - SIGNATURE_LENGTH)).value)
  }

  /** What `verifySignature` hands to the curve: the signed bytes and the trailer. */
  function SignatureParts(s: seq<byte>): (seq<byte>, seq<byte>)
  {
    var first := |s| - SIGNATURE_LENGTH;
    (Slice(s, 0, first), Slice(s, first, first + SIGNATURE_LENGTH))
  }

  /** A group message always comes back, and the verifier is given exactly what was signed and its signature. */
  lemma GroupRoundTrip(c: Codec<GroupFields>, sign: seq<byte> -> seq<byte>, f: GroupFields)
    requires RoundTrips(c) && |sign(GroupFront(c, f))| == 64
    ensures ParseGroup(c, BuildGroup(c, sign, f)) == Ok(f)
    ensures SignatureParts(BuildGroup(c, sign, f)) == (GroupFront(c, f), sign(GroupFront(c, f)))
  {
    var s := BuildGroup(c, sign, f);
    assert Slice(s, 1, |s| - SIGNATURE_LENGTH) == c.encode(f);
    assert c.decode(c.encode(f)) == Some(f);
    NibblesRoundTrip(Messages.CURRENT_VERSION, Messages.CURRENT_VERSION);
    TrailerIsFound(GroupFront(c, f), sign(GroupFront(c, f)));
  }

  // ----- versions -----

  /** Which versions the four parsers take, by the high nibble of the first byte, and what they say to others. */
  lemma OtherVersionsAreRefused(w: Codec<WhisperFields>, p: Codec<PreKeyFields>, x: Codec<ExchangeFields>,
                                g: Codec<GroupFields>, s: seq<byte>)
    requires s != []
    ensures var version := s[0] as nat / 16;
            && (version < 2 ==> ParseWhisper(w, s) == Err(LegacyMessage))
            && (version > 3 ==> ParseWhisper(w, s) == Err(InvalidMessage))
            && (version < 3 ==> ParsePreKey(p, w, s) == Err(InvalidMessage))
            && (version < 3 ==> ParseExchange(x, s) == Err(LegacyMessage))
            && (version > 3 ==> ParsePreKey(p, w, s) == Err(InvalidVersion))
            && (version > 3 ==> ParseExchange(x, s) == Err(InvalidVersion))
            && (version != 3 ==> ParseGroup(g, s) == Err(InvalidMessage))
  {
  }
}
