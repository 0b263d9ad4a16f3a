/**
 Messages as the ciphers see them, after parsing (axolotl/protocol/whispermessage.py,
 axolotl/protocol/prekeywhispermessage.py), and the ways an operation can fail.
 */
module Messages {
  import opened Wrappers
  import opened Curve
  import opened Ratchet

  datatype Failure =
    | InvalidMessage     // InvalidMessageException
    | DuplicateMessage   // DuplicateMessageException
    | NoSession          // NoSessionException
    | UntrustedIdentity  // UntrustedIdentityException
    | InvalidKey         // InvalidKeyException
    | InvalidKeyId       // InvalidKeyIdException
    | StaleKeyExchange   // StaleKeyExchangeException
    | Uncaught           // a Python error that no handler in the engine expects

  const CURRENT_VERSION: nat := 3

  /** AES output: what Encrypted(k, iv, p) hides can be read with exactly that key and iv. */
  datatype Body = Encrypted(cipherKey: Term, iv: Term, plaintext: seq<byte>) | Garbage(id: nat)

  datatype Mac = Mac(macKey: Term, identities: Option<(PublicKey, PublicKey)>, signed: Header) | ForgedMac(id: nat)

  /** Everything in front of the MAC. */
  datatype Header = Header(version: nat, ratchetKey: PublicKey, counter: nat, previousCounter: nat, body: Body)

  datatype WhisperMessage = WhisperMessage(header: Header, mac: Mac)

  datatype PreKeyWhisperMessage = PreKeyWhisperMessage(
    version: nat, registrationId: nat, preKeyId: Option<nat>, signedPreKeyId: nat,
    baseKey: PublicKey, identityKey: PublicKey, message: WhisperMessage)

  datatype CiphertextMessage = Whisper(whisper: WhisperMessage) | PreKey(preKey: PreKeyWhisperMessage)

  /** Version 3 messages authenticate both identities, older ones neither. */
  function GetMac(senderIdentity: PublicKey, receiverIdentity: PublicKey, macKey: Term, header: Header): Mac
  {
    Mac(macKey, if header.version >= 3 then Some((senderIdentity, receiverIdentity)) else None, header)
  }

  function NewWhisperMessage(version: nat, keys: MessageKeys, ratchetKey: PublicKey, counter: nat, previousCounter: nat,
                             plaintext: seq<byte>, senderIdentity: PublicKey, receiverIdentity: PublicKey)
    : WhisperMessage
  {
    var header := Header(version, ratchetKey, counter, previousCounter, Encrypted(keys.cipherKey, keys.iv, plaintext));
    WhisperMessage(header, GetMac(senderIdentity, receiverIdentity, keys.macKey, header))
  }

  predicate VerifyMac(m: WhisperMessage, senderIdentity: PublicKey, receiverIdentity: PublicKey, macKey: Term)
  {
    m.mac == GetMac(senderIdentity, receiverIdentity, macKey, m.header)
  }

  /** One MAC fits one key, and from version 3 on one sender and receiver; before that any two. */
  lemma MacNamesIdentities(m: WhisperMessage, s: PublicKey, r: PublicKey, key: Term, s': PublicKey, r': PublicKey,
                           key': Term)
    requires VerifyMac(m, s, r, key)
    ensures m.header.version >= 3 ==> (VerifyMac(m, s', r', key') <==> s' == s && r' == r && key' == key)
    ensures m.header.version < 3 ==> (VerifyMac(m, s', r', key') <==> key' == key)
  {
  }

  /** None is the padding error of a wrong key, which the engine does not catch. */
  function GetPlaintext(body: Body, keys: MessageKeys): Option<seq<byte>>
  {
    if body.Encrypted? && body.cipherKey == keys.cipherKey && body.iv == keys.iv then Some(body.plaintext) else None
  }

  /** What the peer parses: an absent prekey id reads as the field's default, 0. */
  function Parsed(m: PreKeyWhisperMessage): PreKeyWhisperMessage
  {
    m.(preKeyId := Some(if m.preKeyId.Some? then m.preKeyId.value else 0))
  }
}
