/**
 The manager in front of the engine: padding, the cache of session ciphers, and encryption and
 decryption for a jid (yowsup/axolotl/manager.py).
 */
module Managers {
  import opened Wrappers
  import opened Curve
  import opened ByteUtil
  import opened Decimals
  import opened Jids
  import opened Ratchet
  import opened Messages
  import opened SessionStates
  import opened SessionProtocol
  import opened SessionRecords
  import opened AxolotlStores
  import opened SessionCiphers
  import opened Conversation
  import Groups

  // ----- padding -----

  /** `bytes([num] * num)` behind the message; num is drawn from 1 to 255. */
  function Pad(message: seq<byte>, num: byte): seq<byte>
  {
    message + seq(num as nat, _ => num)
  }

  /** `data[:-padding]`; no data at all is an IndexError. */
  function Unpad(data: seq<byte>): Option<seq<byte>>
  {
    if data == [] then None else Some(Slice(data, 0, -(data[|data| - 1] as int)))
  }

  /** Unpadding undoes padding, whatever the message and the length drawn. */
  lemma UnpadUndoesPad(message: seq<byte>, num: byte)
    requires 1 <= num <= 255
    ensures Unpad(Pad(message, num)) == Some(message)
  {
    var data := Pad(message, num);
    assert data[|data| - 1] == num;
  }

  /** Only the last byte is read: what remains is a prefix, and nothing when it is zero or too large. */
  lemma UnpadMeaning(data: seq<byte>)
    requires data != []
    ensures var last := data[|data| - 1] as nat;
            Unpad(data) == Some(if 0 < last <= |data| then data[..|data| - last] else [])
  {
  }

  // ----- the key of the cipher cache -----

  /** `"%s-%d" % (username, deviceid)` */
  function CacheKey(a: Address): string
  {
    a.recipientId + "-" + Print(a.deviceId)
  }

  /** Everything in front of the last dash. */
  function BeforeLastDash(s: string): string
  {
    if s == "" then "" else if s[|s| - 1] == '-' then s[..|s| - 1] else BeforeLastDash(s[..|s| - 1])
  }

  lemma {:induction false} LastDash(s: string, tail: string)
    requires '-' !in tail
    ensures BeforeLastDash(s + "-" + tail) == s
  {
    var whole := s + "-" + tail;
    if tail == "" {
      assert whole[..|whole| - 1] == s;
    } else {
      assert whole[|whole| - 1] == tail[|tail| - 1];
      assert whole[..|whole| - 1] == s + "-" + tail[..|tail| - 1];
      LastDash(s, tail[..|tail| - 1]);
    }
  }

  lemma DashlessTails(s: string, x: string, t: string, y: string)
    requires s + "-" + x == t + "-" + y && '-' !in x && '-' !in y
    ensures s == t && x == y
  {
    LastDash(s, x);
    LastDash(t, y);
    assert x == (s + "-" + x)[|s| + 1..];
    assert y == (t + "-" + y)[|t| + 1..];
  }

  lemma {:induction false} PrintNatIsInjective(m: nat, n: nat)
    requires PrintNat(m) == PrintNat(n)
    ensures m == n
  {
    ReadNatUndoesPrint(m);
    ReadNatUndoesPrint(n);
  }

  /** The address with a device that is not negative and the same key. */
  function Unsigned(a: Address): Address
  {
    if a.deviceId < 0 then Address(a.recipientId + "-", -a.deviceId) else a
  }

  lemma UnsignedKey(a: Address)
    ensures CacheKey(a) == Unsigned(a).recipientId + "-" + PrintNat(Unsigned(a).deviceId)
  {
    if a.deviceId < 0 {
      assert a.recipientId + "-" + ("-" + PrintNat(-a.deviceId)) == a.recipientId + "-" + "-" + PrintNat(-a.deviceId);
    }
  }

  /**
   Two addresses share a key only if they are equal, or one has a negative device and the other that
   device without its sign and a dash more in its name.
   */
  lemma CacheKeyCollisions(a: Address, b: Address)
    ensures CacheKey(a) == CacheKey(b) <==> Unsigned(a) == Unsigned(b)
    ensures a.deviceId >= 0 && b.deviceId >= 0 ==> (CacheKey(a) == CacheKey(b) <==> a == b)
  {
    UnsignedKey(a);
    UnsignedKey(b);
    if CacheKey(a) == CacheKey(b) {
      var m, n := Unsigned(a).deviceId, Unsigned(b).deviceId;
      PrintNatIsDigits(m);
      PrintNatIsDigits(n);
      DashlessTails(Unsigned(a).recipientId, PrintNat(m), Unsigned(b).recipientId, PrintNat(n));
      PrintNatIsInjective(m, n);
    }
  }

  /** With a negative device the key does collide. */
  lemma NegativeDevicesCollide()
    ensures CacheKey(Address("a-", 1)) == CacheKey(Address("a", -1))
  {
    CacheKeyCollisions(Address("a-", 1), Address("a", -1));
  }

  // ----- the manager -----

  /** What decryption hands on: unpadding happens after the session was stored. */
  function Unpadded(answer: Result<seq<byte>, Failure>, unpad: bool): Result<seq<byte>, Failure>
  {
    match answer
    case Err(e) => Err(e)
    case Ok(plaintext) =>
      if !unpad then answer
      else match Unpad(plaintext)
           case None => Err(Uncaught)
           case Some(message) => Ok(message)
  }

  /** Without unpadding the plaintext is handed on as it is; with it, no data at all is an error, and errors stay. */
  lemma UnpaddedMeans(answer: Result<seq<byte>, Failure>)
    ensures Unpadded(answer, false) == answer
    ensures answer.Err? ==> Unpadded(answer, true) == answer
    ensures answer.Ok? && answer.value == [] ==> Unpadded(answer, true) == Err(Uncaught)
    ensures answer.Ok? && answer.value != [] ==>
              var last := answer.value[|answer.value| - 1] as nat;
              Unpadded(answer, true)
                == Ok(if 0 < last <= |answer.value| then answer.value[..|answer.value| - last] else [])
  {
    if answer.Ok? && answer.value != [] {
      UnpadMeaning(answer.value);
    }
  }

  /** Everything `encrypt` does to the stores, for one address. */
  function AfterEncrypt(st: Stores, a: Address, plaintext: seq<byte>): (Result<CiphertextMessage, Failure>, Stores)
  {
    var record := LoadRecord(st, a);
    match Encrypt(record.current, plaintext)
    case Err(e) => (Err(e), st)
    case Ok((m, state)) => (Ok(m), st.(sessions := st.sessions[a := record.(current := state)]))
  }

  class AxolotlManager {
    const store: AxolotlStore
    var sessionCiphers: map<string, SessionCipher>

    /** Every cipher sits under the key of its own address. */
    ghost predicate Valid()
      reads this
    {
      forall key :: key in sessionCiphers ==>
        var c := sessionCiphers[key]; c.Valid() && c.store == store && CacheKey(c.address) == key
    }

    /** No cipher was ever asked for with a negative device. */
    ghost predicate Unambiguous()
      reads this
    {
      forall key :: key in sessionCiphers ==> sessionCiphers[key].address.deviceId >= 0
    }

    constructor (store: AxolotlStore)
      ensures Valid() && Unambiguous() && this.store == store
    {
      this.store := store;
      this.sessionCiphers := map[];
    }

    /** The cipher is one for the requested address, as long as no negative device comes into play. */
    method GetSessionCipher(username: string, deviceId: int) returns (cipher: SessionCipher)
      requires Valid()
      modifies this`sessionCiphers
      ensures Valid() && cipher.Valid() && cipher.store == store
      ensures Unsigned(cipher.address) == Unsigned(Address(username, deviceId))
      ensures old(Unambiguous()) && deviceId >= 0 ==> Unambiguous() && cipher.address == Address(username, deviceId)
      ensures sessionCiphers == old(sessionCiphers)[CacheKey(Address(username, deviceId)) := cipher]
      ensures CacheKey(Address(username, deviceId)) in old(sessionCiphers) ==> sessionCiphers == old(sessionCiphers)
    {
      var address := Address(username, deviceId);
      var key := CacheKey(address);
      if key in sessionCiphers {
        cipher := sessionCiphers[key];
        CacheKeyCollisions(cipher.address, address);
      } else {
        cipher := new SessionCipher(store, address);
        sessionCiphers := sessionCiphers[key := cipher];
      }
    }

    /** Nothing happens for a jid that cannot be decoded. */
    method EncryptFor(jid: string, message: seq<byte>, num: byte, read: string -> Option<int>)
      returns (r: Result<CiphertextMessage, Failure>, ghost used: Address)
      requires Valid()
      modifies this`sessionCiphers, store`sessions, store`trace
      ensures Valid()
      ensures match JidDecode(jid, read)
              case None => r == Err(Uncaught) && store.View() == old(store.View())
              case Some(d) =>
                && Unsigned(used) == Unsigned(Address(d.recipientId, d.deviceId))
                && (r, store.View()) == AfterEncrypt(old(store.View()), used, Pad(message, num))
                && (old(Unambiguous()) && d.deviceId >= 0 ==>
                      Unambiguous() && used == Address(d.recipientId, d.deviceId))
    {
      used := Address("", 0);
      var decoded := JidDecode(jid, read);
      if decoded.None? {
        return Err(Uncaught), used;
      }
      var cipher := GetSessionCipher(decoded.value.recipientId, decoded.value.deviceId);
      used := cipher.address;
      r := cipher.EncryptMessage(Pad(message, num));
    }

    method DecryptMsg(senderId: string, m: WhisperMessage, unpad: bool, read: string -> Option<int>,
                      ourNew: nat -> KeyPair)
      returns (r: Result<seq<byte>, Failure>, ghost used: Address)
      requires Valid()
      modifies this`sessionCiphers, store`sessions, store`trace
      ensures Valid()
      ensures match JidDecode(senderId, read)
              case None => r == Err(Uncaught) && store.View() == old(store.View())
              case Some(d) =>
                var (answer, stores) := AfterMessage(old(store.View()), used, m, ourNew);
                && Unsigned(used) == Unsigned(Address(d.recipientId, d.deviceId))
                && r == Unpadded(answer, unpad) && store.View() == stores
                && (old(Unambiguous()) && d.deviceId >= 0 ==>
                      Unambiguous() && used == Address(d.recipientId, d.deviceId))
    {
      used := Address("", 0);
      var decoded := JidDecode(senderId, read);
      if decoded.None? {
        return Err(Uncaught), used;
      }
      var cipher := GetSessionCipher(decoded.value.recipientId, decoded.value.deviceId);
      used := cipher.address;
      var answer := cipher.DecryptMsg(m, ourNew);
      r := Unpadded(answer, unpad);
    }

    method DecryptPkmsg(senderId: string, m: PreKeyWhisperMessage, unpad: bool, read: string -> Option<int>,
                        ourNew: nat -> KeyPair)
      returns (r: Result<seq<byte>, Failure>, ghost used: Address)
      requires Valid()
      modifies this`sessionCiphers, store`sessions, store`identities, store`preKeys, store`trace
      ensures Valid()
      ensures match JidDecode(senderId, read)
              case None => r == Err(Uncaught) && store.View() == old(store.View())
              case Some(d) =>
                var effect := AfterPreKeyMessage(old(store.View()), used, m, ourNew);
                && Unsigned(used) == Unsigned(Address(d.recipientId, d.deviceId))
                && r == Unpadded(effect.answer, unpad) && store.View() == effect.stores
                && store.trace == old(store.trace) + effect.writes
                && (old(Unambiguous()) && d.deviceId >= 0 ==>
                      Unambiguous() && used == Address(d.recipientId, d.deviceId))
    {
      used := Address("", 0);
      var decoded := JidDecode(senderId, read);
      if decoded.None? {
        return Err(Uncaught), used;
      }
      var cipher := GetSessionCipher(decoded.value.recipientId, decoded.value.deviceId);
      used := cipher.address;
      var answer := cipher.DecryptPkmsg(m, ourNew);
      r := Unpadded(answer, unpad);
    }
  }

  // ----- end to end -----

  /** `decrypt_msg` or `decrypt_pkmsg`, by the kind of message, in front of the unpadding. */
  function Opened(st: Stores, a: Address, cipher: CiphertextMessage,
                  ourNew: nat -> KeyPair): (Result<seq<byte>, Failure>, Stores)
  {
    match cipher
    case Whisper(m) => AfterMessage(st, a, m, ourNew)
    case PreKey(m) =>
      var effect := AfterPreKeyMessage(st, a, Parsed(m), ourNew);
      (effect.answer, effect.stores)
  }

  /** The record has this current session, and archives only sessions of other master secrets. */
  predicate Serves(st: Stores, a: Address, s: SessionStructure, master: Term)
  {
    && a in st.sessions && st.sessions[a].current == s
    && |st.sessions[a].previous| <= ARCHIVED_STATES_MAX_LENGTH
    && forall k :: 0 <= k < |st.sessions[a].previous| ==> Foreign(st.sessions[a].previous[k], master)
  }

  /** No archived session holds a chain for the ratchet key. */
  predicate Exclusive(st: Stores, a: Address, key: PublicKey)
  {
    forall s :: s in LoadRecord(st, a).previous ==> !HasChain(s, key)
  }

  /** A prekey message finds its session, and the identity that came with it is trusted. */
  predicate Welcome(st: Stores, a: Address, cipher: CiphertextMessage)
  {
    cipher.PreKey? ==>
      && IsTrustedIdentity(st, a, cipher.preKey.identityKey)
      && HoldsSession(LoadRecord(st, a), cipher.preKey.version, cipher.preKey.baseKey)
  }

  /** What the caller gets for a message of the other peer. */
  function Expected(verdict: Result<seq<byte>, Failure>, message: seq<byte>): Result<seq<byte>, Failure>
  {
    if verdict.Ok? then Ok(message) else verdict
  }

  /** Archived sessions of other master secrets never read the message, so the current session decides. */
  lemma ForeignArchiveIsSilent(r: Record, m: WhisperMessage, ourNew: nat -> KeyPair, master: Term)
    requires |r.previous| <= ARCHIVED_STATES_MAX_LENGTH && MadeUnder(m, master)
    requires forall k :: 0 <= k < |r.previous| ==> Foreign(r.previous[k], master)
    ensures var attempt, found := Decrypt(r.current, m, ourNew(0)), DecryptRecord(r, m, ourNew);
            && found.record == r.(current := Receive(r.current, m, ourNew(0)))
            && (if attempt.answer.Ok? then found.answer == attempt.answer else found.answer.Err?)
            && ((forall s :: s in r.previous ==> !HasChain(s, m.header.ratchetKey)) ==>
                  found.answer == attempt.answer)
  {
    hide Decrypt, Foreign, MadeUnder, DecryptRecord, HasChain;
    forall k | 0 < k < |States(r)|
      ensures !AttemptAt(r, k, m, ourNew).answer.Ok?
      ensures !HasChain(States(r)[k], m.header.ratchetKey) ==>
                AttemptAt(r, k, m, ourNew).answer == Err(InvalidMessage)
    {
      ForeignSessionsRefuse(States(r)[k], m, ourNew(k), master);
    }
    ActsAsCurrentReader(r, m, ourNew);
    if forall s :: s in r.previous ==> !HasChain(s, m.header.ratchetKey) {
      ActsAsCurrentSession(r, m, ourNew);
    }
  }

  /** A record that serves a session answers for it, and goes on to serve what the session becomes. */
  lemma ServedMessage(st: Stores, a: Address, s: SessionStructure, m: WhisperMessage, ourNew: nat -> KeyPair,
                      master: Term)
    requires Serves(st, a, s, master) && MadeUnder(m, master)
    ensures var (answer, after) := AfterMessage(st, a, m, ourNew);
            var attempt := Decrypt(s, m, ourNew(0));
            && Serves(after, a, Receive(s, m, ourNew(0)), master)
            && LoadRecord(after, a).previous == LoadRecord(st, a).previous
            && after == st.(sessions := after.sessions)
            && (if attempt.answer.Ok? then answer == attempt.answer else answer.Err?)
            && (Exclusive(st, a, m.header.ratchetKey) ==> answer == attempt.answer)
  {
    hide Decrypt, Foreign, MadeUnder, DecryptRecord, HasChain;
    ForeignArchiveIsSilent(LoadRecord(st, a), m, ourNew, master);
  }

  lemma ServedCipher(st: Stores, a: Address, s: SessionStructure, cipher: CiphertextMessage, ourNew: nat -> KeyPair,
                     master: Term)
    requires Serves(st, a, s, master) && MadeUnder(Inner(cipher), master) && Welcome(st, a, cipher)
    ensures var m := Inner(cipher);
            var (answer, after) := Opened(st, a, cipher, ourNew);
            var attempt := Decrypt(s, m, ourNew(0));
            && Serves(after, a, Receive(s, m, ourNew(0)), master)
            && LoadRecord(after, a).previous == LoadRecord(st, a).previous
            && after == st.(sessions := after.sessions, identities := after.identities)
            && after.identities
                 == (if cipher.PreKey? then st.identities[a := cipher.preKey.identityKey] else st.identities)
            && (if attempt.answer.Ok? then answer == attempt.answer else answer.Err?)
            && (Exclusive(st, a, m.header.ratchetKey) ==> answer == attempt.answer)
  {
    hide Decrypt, Foreign, MadeUnder, AfterMessage, AfterPreKeyMessage, HasChain;
    ServedMessage(st, a, s, Inner(cipher), ourNew, master);
    if cipher.PreKey? {
      HeldPreKeyMessage(st, a, Parsed(cipher.preKey), ourNew);
    }
  }

  /** One delivery between two peers, through the record of the receiver. */
  lemma DeliveredUnpadded(keys: seq<PublicKey>, master: Term, p: Peer, q: Peer, i: nat, message: seq<byte>, num: byte,
                          st: Stores, a: Address, cipher: CiphertextMessage, ourNew: nat -> KeyPair)
    requires PairInv(master, keys, p, q) && i < |q.sent| && num > 0
    requires Inner(cipher) == q.sent[i].message && q.sent[i].plaintext == Pad(message, num)
    requires Serves(st, a, p.session, master) && Welcome(st, a, cipher)
    ensures var x := q.sent[i];
            var (answer, after) := Opened(st, a, cipher, ourNew);
            && (Verdict(p, x).Ok? <==> answer.Ok?)
            && (Verdict(p, x).Ok? || Exclusive(st, a, x.message.header.ratchetKey) ==>
                  Unpadded(answer, true) == Expected(Verdict(p, x), message))
            && (x.message.header.counter in On(p.delivered, x.message.header.ratchetKey) ==> answer.Err?)
            && Serves(after, a, Receive(p.session, x.message, ourNew(0)), master)
            && LoadRecord(after, a).previous == LoadRecord(st, a).previous
  {
    hide Serves, Welcome, Opened, Decrypt, PeerInv;
    var x := q.sent[i];
    VerdictIsGiven(master, keys, p, q, i, ourNew(0));
    PeerSent(master, keys, q, i);
    ServedCipher(st, a, p.session, cipher, ourNew, master);
    UnpadUndoesPad(message, num);
  }

  lemma PeerSent(master: Term, keys: seq<PublicKey>, p: Peer, i: nat)
    requires PeerInv(master, keys, p) && i < |p.sent|
    ensures MadeUnder(p.sent[i].message, master)
  {
    SentIsMade(master, keys, p.epoch, p.sent[i], p.session.localIdentity, p.session.remoteIdentity);
  }

  /**
   End to end, in every reachable state of two peers, for plain and for prekey messages: what the
   sender's manager encrypted, the receiver's manager either returns byte for byte or refuses, for every
   message, every padding from 1 to 255 and any order of deliveries. Which of the two is what history
   determines, and so is the error if no archived session shares the ratchet key. The record keeps the
   session that Conversation says it has, whatever sessions of other master secrets it archives.
   */
  lemma {:induction false} MessagesArriveUnpadded(start: System, master: Term, steps: seq<Step>, who: Role, i: nat,
                                                  message: seq<byte>, num: byte, st: Stores, a: Address,
                                                  cipher: CiphertextMessage, ourNew: nat -> KeyPair)
    requires Start(start, master) && AllowedRun(start, steps) && num > 0
    requires i < |At(Run(start, steps), Other(who)).sent|
    requires At(Run(start, steps), Other(who)).sent[i].message == Inner(cipher)
    requires At(Run(start, steps), Other(who)).sent[i].plaintext == Pad(message, num)
    requires Serves(st, a, At(Run(start, steps), who).session, master) && Welcome(st, a, cipher)
    ensures var p, x := At(Run(start, steps), who), At(Run(start, steps), Other(who)).sent[i];
            var (answer, after) := Opened(st, a, cipher, ourNew);
            && (Verdict(p, x).Ok? <==> answer.Ok?)
            && (Verdict(p, x).Ok? || Exclusive(st, a, x.message.header.ratchetKey) ==>
                  Unpadded(answer, true) == Expected(Verdict(p, x), message))
            && (x.message.header.counter in On(p.delivered, x.message.header.ratchetKey) ==> answer.Err?)
            && Serves(after, a, Receive(p.session, x.message, ourNew(0)), master)
            && LoadRecord(after, a).previous == LoadRecord(st, a).previous
  {
    hide Serves, Welcome, Opened, PairInv, Start, Run, AllowedRun, Verdict, Receive, Unpadded, Expected, Exclusive;
    hide LoadRecord, Pad;
    Reachable(start, master, steps, who);
    var sys := Run(start, steps);
    DeliveredUnpadded(sys.keys, master, At(sys, who), At(sys, Other(who)), i, message, num, st, a, cipher, ourNew);
  }

  function GroupAnswer(r: Groups.SenderKeys, m: Groups.SenderKeyMessage): Result<seq<byte>, Failure>
  {
    match Groups.GroupDecrypt(r, m)
    case Err(e) => Err(e)
    case Ok((plaintext, _)) => Ok(plaintext)
  }

  /** The same for a group, in every reachable state of a sender and one of its members. */
  lemma {:induction false} GroupMessagesArriveUnpadded(g: Groups.Group, keyId: nat, seed: Term, signing: KeyPair,
                                                       steps: seq<Groups.Step>, i: nat, message: seq<byte>, num: byte)
    requires Groups.Start(g, keyId, seed, signing) && Groups.UnforgeableRun(g, steps) && num > 0
    requires i < |Groups.Run(g, steps).sent| && i < |Groups.Run(g, steps).plaintexts|
    requires Groups.Run(g, steps).plaintexts[i] == Pad(message, num)
    ensures var now := Groups.Run(g, steps);
            Unpadded(GroupAnswer(now.member, now.sent[i]), true)
            == if Groups.Verdict(now, i).Ok? then Ok(message) else Groups.Verdict(now, i)
  {
    Groups.EveryMessageOnce(g, keyId, seed, signing, steps, i);
    UnpadUndoesPad(message, num);
  }
}
