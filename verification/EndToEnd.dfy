/**
 Two managers and their stores, from a published bundle on: what one of them encrypts for the other, and
 what the other makes of it when the network loses, reorders and repeats messages
 (yowsup/axolotl/manager.py, axolotl/sessioncipher.py, axolotl/sessionbuilder.py).

 The stores are what the program has; the two peers of Conversation beside them are history.
 */
module EndToEnd {
  import opened Wrappers
  import opened Curve
  import opened Ratchet
  import opened Messages
  import opened SessionStates
  import opened SessionProtocol
  import opened SessionRecords
  import opened AxolotlStores
  import opened RatchetingSession
  import opened SessionBuilders
  import opened SessionCiphers
  import opened Establishment
  import opened Managers
  import C = Conversation
  import RecordRuns

  /** Alice's and Bob's stores, the addresses they have for each other, and the keys Alice generates for the bundle. */
  datatype Setup = Setup(alice: Stores, bob: Stores, ofBob: Address, ofAlice: Address, bundle: PreKeyBundle,
                         ourBase: KeyPair, sending: KeyPair)

  /** A text, the length of its padding, and what was sent for it. */
  datatype Mail = Mail(message: seq<byte>, num: byte, cipher: CiphertextMessage)

  datatype World = World(alice: Stores, bob: Stores, fromAlice: seq<Mail>, fromBob: seq<Mail>, history: C.System)

  /** Someone encrypts a text for the other one, or opens message number i of the other one, which stays around. */
  datatype Move =
    | Write(who: C.Role, message: seq<byte>, num: byte)
    | Read(who: C.Role, i: nat, ourNew: nat -> KeyPair)

  function StoresOf(w: World, who: C.Role): Stores
  {
    if who == C.Alice then w.alice else w.bob
  }

  /** The address under which a peer keeps the other one. */
  function AddressFor(u: Setup, who: C.Role): Address
  {
    if who == C.Alice then u.ofBob else u.ofAlice
  }

  /** The messages that a peer may open. */
  function MailFor(w: World, who: C.Role): seq<Mail>
  {
    if who == C.Alice then w.fromBob else w.fromAlice
  }

  function Apply(u: Setup, w: World, move: Move): World
  {
    match move
    case Write(who, message, num) =>
      (match AfterEncrypt(StoresOf(w, who), AddressFor(u, who), Pad(message, num))
       case (Err(_), _) => w
       case (Ok(cipher), stores) =>
         var history := C.Apply(w.history, C.Send(who, Pad(message, num)));
         if who == C.Alice then
           w.(alice := stores, fromAlice := w.fromAlice + [Mail(message, num, cipher)], history := history)
         else
           w.(bob := stores, fromBob := w.fromBob + [Mail(message, num, cipher)], history := history))
    case Read(who, i, ourNew) =>
      if i >= |MailFor(w, who)| then w
      else
        var cipher := MailFor(w, who)[i].cipher;
        var stores := Opened(StoresOf(w, who), AddressFor(u, who), cipher, ourNew).1;
        var history := C.Apply(w.history, C.Deliver(who, Inner(cipher), ourNew(0)));
        if who == C.Alice then w.(alice := stores, history := history) else w.(bob := stores, history := history)
  }

  /** The session of this bundle is in the peer's record. Alice's has been from the start. */
  predicate Joined(u: Setup, w: World, who: C.Role)
  {
    who == C.Alice || HoldsSession(LoadRecord(w.bob, u.ofAlice), CURRENT_VERSION, u.ourBase.publicKey)
  }

  /** Padding is never empty, Bob answers once he has the session, and generated ratchet keys are new. */
  predicate Permitted(u: Setup, w: World, move: Move)
  {
    match move
    case Write(who, _, num) => num > 0 && Joined(u, w, who)
    case Read(who, i, ourNew) => i < |MailFor(w, who)| && ourNew(0).publicKey !in w.history.keys
  }

  function Run(u: Setup, w: World, moves: seq<Move>): World
    decreases |moves|
  {
    if moves == [] then w else Run(u, Apply(u, w, moves[0]), moves[1..])
  }

  predicate PermittedRun(u: Setup, w: World, moves: seq<Move>)
    decreases |moves|
  {
    moves == [] || (Permitted(u, w, moves[0]) && PermittedRun(u, Apply(u, w, moves[0]), moves[1..]))
  }

  // ----- the beginning -----

  /** A bundle that both sides trust, with a one-time prekey that Bob can tell from none. */
  predicate Offered(u: Setup)
  {
    && Publishes(u.bob, u.bundle) && (u.bundle.preKey.None? || u.bundle.preKeyId != 0)
    && IsTrustedIdentity(u.alice, u.ofBob, u.bundle.identityKey)
    && IsTrustedIdentity(u.bob, u.ofAlice, u.alice.identityKeyPair.publicKey)
    && u.sending.publicKey != u.bundle.signedPreKey.value
  }

  function Secret(u: Setup): Term
    requires Offered(u)
  {
    AliceSecret(BundleParameters(u.alice, u.bundle, u.ourBase))
  }

  predicate Apart(r: Record, master: Term)
  {
    |r.previous| <= ARCHIVED_STATES_MAX_LENGTH && ForeignRecord(r, master)
  }

  /** The two records may hold any other sessions. */
  predicate Ready(u: Setup)
  {
    && Offered(u)
    && Apart(LoadRecord(u.alice, u.ofBob), Secret(u)) && Apart(LoadRecord(u.bob, u.ofAlice), Secret(u))
    && !HoldsSession(LoadRecord(u.bob, u.ofAlice), CURRENT_VERSION, u.ourBase.publicKey)
  }

  /** It is enough that the base key is new to both records, whatever built them. */
  lemma NewBaseKeyIsReady(u: Setup)
    requires Offered(u)
    requires RecordRuns.BuiltWithout(LoadRecord(u.alice, u.ofBob), u.ourBase.publicKey)
    requires RecordRuns.BuiltWithout(LoadRecord(u.bob, u.ofAlice), u.ourBase.publicKey)
    ensures Ready(u)
  {
    RecordRuns.AliceMentions(BundleParameters(u.alice, u.bundle, u.ourBase), u.ourBase.publicKey);
    RecordRuns.RecordsStayForeign(LoadRecord(u.alice, u.ofBob), u.ourBase.publicKey, CURRENT_VERSION, Secret(u));
    RecordRuns.RecordsStayForeign(LoadRecord(u.bob, u.ofAlice), u.ourBase.publicKey, CURRENT_VERSION, Secret(u));
  }

  /** Alice has processed the bundle; Bob knows nothing of it yet. */
  function Begin(u: Setup): World
    requires Offered(u)
  {
    World(ProcessPreKeyBundle(u.alice, u.ofBob, u.bundle, u.ourBase, u.sending).value, u.bob, [], [],
          FreshConversation(AliceSession(u.alice, EMPTY_STRUCTURE, u.bundle, u.ourBase, u.sending),
                            Answering(u.alice, u.bob, u.bundle, u.ourBase)))
  }

  // ----- the invariant -----

  /** History has the texts that were sent, padded. */
  predicate Recorded(mails: seq<Mail>, sent: seq<C.Sent>)
  {
    && |mails| == |sent|
    && forall i :: 0 <= i < |mails| ==>
         && Inner(mails[i].cipher) == sent[i].message
         && mails[i].num > 0 && sent[i].plaintext == Pad(mails[i].message, mails[i].num)
  }

  function Pending(u: Setup): PendingPreKey
  {
    PendingPreKey(if u.bundle.preKey.Some? then Some(u.bundle.preKeyId) else None, u.bundle.signedPreKeyId,
                  u.ourBase.publicKey)
  }

  /** A prekey message that Bob parses as one for the bundle. */
  predicate IsLetter(u: Setup, cipher: CiphertextMessage)
  {
    cipher.PreKey? ==> Parsed(cipher.preKey) == Letter(u.alice, u.bundle, u.ourBase, cipher.preKey.message)
  }

  predicate AliceSends(u: Setup, s: SessionStructure)
  {
    && s.sessionVersion == CURRENT_VERSION
    && s.localRegistrationId == u.alice.registrationId && s.localIdentity == u.alice.identityKeyPair.publicKey
    && (s.pendingPreKey.Some? ==> s.pendingPreKey.value == Pending(u))
  }

  predicate AliceInv(u: Setup, w: World)
    requires Offered(u)
  {
    && Serves(w.alice, u.ofBob, w.history.alice.session, Secret(u))
    && AliceSends(u, w.history.alice.session)
    && Recorded(w.fromAlice, w.history.alice.sent)
    && forall i :: 0 <= i < |w.fromAlice| ==> IsLetter(u, w.fromAlice[i].cipher)
  }

  predicate BobSends(u: Setup, s: SessionStructure)
  {
    s.sessionVersion == CURRENT_VERSION && s.pendingPreKey.None? && s.aliceBaseKey == Some(u.ourBase.publicKey)
  }

  /** Bob has the session. */
  predicate BobJoined(u: Setup, w: World)
    requires Offered(u)
  {
    && Serves(w.bob, u.ofAlice, w.history.bob.session, Secret(u))
    && BobSends(u, w.history.bob.session)
  }

  /** Alice still sends her first chain, prekey message after prekey message. */
  predicate StillFirst(w: World)
  {
    var alice := w.history.alice;
    && alice.epoch == 1 && alice.session.pendingPreKey.Some?
    && alice.session.senderChain.Some? && alice.session.senderChain.value.chainKey.index == |alice.sent|
    && forall i :: 0 <= i < |alice.sent| ==> alice.sent[i].epoch == 1 && alice.sent[i].message.header.counter == i
  }

  /** Nothing of Alice's has reached Bob, or he refused it. */
  predicate BobWaits(u: Setup, w: World)
    requires Offered(u)
  {
    && w.bob == u.bob.(identities := w.bob.identities)
    && w.history.bob == C.Peer(Answering(u.alice, u.bob, u.bundle, u.ourBase), [], map[], 0)
    && StillFirst(w)
    && forall i :: 0 <= i < |w.fromAlice| ==> w.fromAlice[i].cipher.PreKey?
  }

  ghost predicate Inv(u: Setup, w: World)
    requires Offered(u)
  {
    && C.Inv(w.history, Secret(u))
    && AliceInv(u, w)
    && IsTrustedIdentity(w.bob, u.ofAlice, u.alice.identityKeyPair.publicKey)
    && Recorded(w.fromBob, w.history.bob.sent)
    && (forall i :: 0 <= i < |w.fromBob| ==> w.fromBob[i].cipher.Whisper?)
    && (BobJoined(u, w) || BobWaits(u, w))
  }

  lemma InvParts(u: Setup, w: World)
    requires Ready(u) && Inv(u, w)
    ensures C.Inv(w.history, Secret(u))
    ensures w.history.alice.session.senderChain.Some? && w.history.bob.session.senderChain.Some?
    ensures AliceSends(u, w.history.alice.session) && BobSends(u, w.history.bob.session)
    ensures |w.fromAlice| == |w.history.alice.sent| && |w.fromBob| == |w.history.bob.sent|
    ensures BobJoined(u, w) || BobWaits(u, w)
  {
    hide Serves, IsLetter, StillFirst;
  }

  lemma BundleIsStored(u: Setup)
    requires Ready(u)
    ensures Serves(Begin(u).alice, u.ofBob, Begin(u).history.alice.session, Secret(u))
  {
    hide InitializeAsAlice, AliceSecret, Foreign;
    StartOverIsForeign(LoadRecord(u.alice, u.ofBob), Secret(u));
  }

  lemma BeginInv(u: Setup)
    requires Ready(u)
    ensures Inv(u, Begin(u))
  {
    hide C.Inv, Serves;
    BundleEstablishes(u.alice, u.bob, u.bundle, u.ourBase, u.sending);
    C.StartInv(Begin(u).history, Secret(u));
    BundleIsStored(u);
  }

  /** Bob has the session exactly when his record holds one of its name. */
  lemma JoinedMeans(u: Setup, w: World)
    requires Ready(u) && Inv(u, w)
    ensures Joined(u, w, C.Bob) <==> BobJoined(u, w)
  {
    hide Serves, AliceInv, StillFirst, C.Inv;
    if BobJoined(u, w) {
      ServedIsHeld(u, w.bob, w.history.bob.session);
    }
  }

  lemma ServedIsHeld(u: Setup, st: Stores, s: SessionStructure)
    requires Offered(u) && Serves(st, u.ofAlice, s, Secret(u)) && BobSends(u, s)
    ensures HoldsSession(LoadRecord(st, u.ofAlice), CURRENT_VERSION, u.ourBase.publicKey)
  {
    assert LoadRecord(st, u.ofAlice).current == s;
    assert s in States(LoadRecord(st, u.ofAlice)) && Matches(s, CURRENT_VERSION, u.ourBase.publicKey);
  }

  // ----- writing -----

  lemma ServedEncrypt(st: Stores, a: Address, s: SessionStructure, plaintext: seq<byte>, master: Term)
    requires Serves(st, a, s, master) && Encrypt(s, plaintext).Ok?
    ensures var (cipher, state) := Encrypt(s, plaintext).value;
            var (r, after) := AfterEncrypt(st, a, plaintext);
            && r == Ok(cipher) && Serves(after, a, state, master)
            && after == st.(sessions := after.sessions)
  {
    hide Encrypt, Foreign;
  }

  /** What encryption leaves alone, and what it sends. */
  lemma EncryptedState(s: SessionStructure, plaintext: seq<byte>)
    requires s.senderChain.Some?
    ensures Encrypt(s, plaintext).Ok?
    ensures var (cipher, state) := Encrypt(s, plaintext).value;
            && state == s.(senderChain := state.senderChain) && state.senderChain.Some?
            && state.senderChain.value.chainKey.index == s.senderChain.value.chainKey.index + 1
            && Inner(cipher).header.counter == s.senderChain.value.chainKey.index
            && (cipher.PreKey? <==> s.pendingPreKey.Some?)
  {
  }

  lemma LettersAreSent(u: Setup, s: SessionStructure, plaintext: seq<byte>)
    requires AliceSends(u, s) && Encrypt(s, plaintext).Ok?
    ensures IsLetter(u, Encrypt(s, plaintext).value.0)
  {
  }

  lemma AliceServes(u: Setup, w: World)
    requires Ready(u) && Inv(u, w)
    ensures Serves(w.alice, u.ofBob, w.history.alice.session, Secret(u))
  {
  }

  /** One more message of Alice's, with what history records of it. */
  lemma AliceWritesOn(u: Setup, w: World, after: World, mail: Mail)
    requires Ready(u) && Inv(u, w) && mail.num > 0 && IsLetter(u, mail.cipher)
    requires after == w.(alice := after.alice, fromAlice := w.fromAlice + [mail],
                         history := w.history.(alice := after.history.alice))
    requires C.Inv(after.history, Secret(u))
    requires var old_, now := w.history.alice, after.history.alice;
             && now == old_.(session := now.session,
                             sent := old_.sent + [C.Sent(old_.epoch, Inner(mail.cipher), Pad(mail.message, mail.num))])
             && Serves(after.alice, u.ofBob, now.session, Secret(u))
             && old_.session.senderChain.Some? && now.session.senderChain.Some?
             && now.session == old_.session.(senderChain := now.session.senderChain)
             && now.session.senderChain.value.chainKey.index == old_.session.senderChain.value.chainKey.index + 1
             && Inner(mail.cipher).header.counter == old_.session.senderChain.value.chainKey.index
             && (mail.cipher.PreKey? <==> old_.session.pendingPreKey.Some?)
    ensures Inv(u, after)
  {
    hide C.Inv, Serves, IsLetter, Pad, Answering, Apart;
    assert BobJoined(u, w) ==> BobJoined(u, after);
    assert BobWaits(u, w) ==> BobWaits(u, after);
  }

  lemma AliceWrites(u: Setup, w: World, message: seq<byte>, num: byte)
    requires Ready(u) && Inv(u, w) && num > 0
    ensures Inv(u, Apply(u, w, Write(C.Alice, message, num)))
  {
    hide C.Inv, Inv, Offered, Apart, Encrypt, Serves, AfterEncrypt, Pad, AliceSends, IsLetter;
    var s, plaintext := w.history.alice.session, Pad(message, num);
    InvParts(u, w);
    C.StepKeepsInv(w.history, Secret(u), C.Send(C.Alice, plaintext));
    EncryptedState(s, plaintext);
    LettersAreSent(u, s, plaintext);
    AliceServes(u, w);
    ServedEncrypt(w.alice, u.ofBob, s, plaintext, Secret(u));
    var after := Apply(u, w, Write(C.Alice, message, num));
    AliceWritesOn(u, w, after, Mail(message, num, Encrypt(s, plaintext).value.0));
  }

  lemma BobIsSender(u: Setup, s: SessionStructure)
    requires BobSends(u, s)
    ensures s.pendingPreKey.None?
    ensures forall chain :: BobSends(u, s.(senderChain := chain))
  {
  }

  lemma BobWritesOn(u: Setup, w: World, after: World, mail: Mail)
    requires Ready(u) && Inv(u, w) && mail.num > 0 && mail.cipher.Whisper?
    requires after == w.(bob := after.bob, fromBob := w.fromBob + [mail],
                         history := w.history.(bob := after.history.bob))
    requires C.Inv(after.history, Secret(u))
    requires var old_, now := w.history.bob, after.history.bob;
             && now == old_.(session := now.session,
                             sent := old_.sent + [C.Sent(old_.epoch, Inner(mail.cipher), Pad(mail.message, mail.num))])
             && Serves(after.bob, u.ofAlice, now.session, Secret(u)) && BobSends(u, now.session)
             && after.bob.identities == w.bob.identities
    ensures Inv(u, after)
  {
    hide C.Inv, Serves, BobSends, BobWaits, Pad, Apart;
  }

  lemma BobWrites(u: Setup, w: World, message: seq<byte>, num: byte)
    requires Ready(u) && Inv(u, w) && num > 0 && Joined(u, w, C.Bob)
    ensures Inv(u, Apply(u, w, Write(C.Bob, message, num)))
  {
    hide C.Inv, Inv, Offered, Apart, Encrypt, Serves, AfterEncrypt, Pad, BobSends, HoldsSession;
    var s, plaintext := w.history.bob.session, Pad(message, num);
    InvParts(u, w);
    JoinedMeans(u, w);
    C.StepKeepsInv(w.history, Secret(u), C.Send(C.Bob, plaintext));
    EncryptedState(s, plaintext);
    BobIsSender(u, s);
    ServedEncrypt(w.bob, u.ofAlice, s, plaintext, Secret(u));
    var after := Apply(u, w, Write(C.Bob, message, num));
    BobWritesOn(u, w, after, Mail(message, num, Encrypt(s, plaintext).value.0));
  }

  // ----- reading -----

  /** What reading leaves alone in a session. */
  lemma ReceivedFields(s: SessionStructure, m: WhisperMessage, ourNew: KeyPair)
    ensures var after := Receive(s, m, ourNew);
            && after.sessionVersion == s.sessionVersion && after.aliceBaseKey == s.aliceBaseKey
            && after.localRegistrationId == s.localRegistrationId && after.localIdentity == s.localIdentity
            && (after.pendingPreKey.Some? ==> after.pendingPreKey == s.pendingPreKey)
  {
    hide VerifyMac, CreateChain, AddChain;
  }

  /** Among it is all that sending needs. */
  lemma ReceivedState(u: Setup, s: SessionStructure, m: WhisperMessage, ourNew: KeyPair)
    ensures AliceSends(u, s) ==> AliceSends(u, Receive(s, m, ourNew))
    ensures BobSends(u, s) ==> BobSends(u, Receive(s, m, ourNew))
  {
    hide Receive;
    ReceivedFields(s, m, ourNew);
  }

  /** The states in a peer's record other than the session of the bundle. */
  function Others(u: Setup, w: World, who: C.Role): seq<SessionStructure>
  {
    var r := LoadRecord(StoresOf(w, who), AddressFor(u, who));
    if Joined(u, w, who) then r.previous else States(r)
  }

  /** None of them holds a chain for the ratchet key. */
  predicate Alone(u: Setup, w: World, who: C.Role, key: PublicKey)
  {
    forall s :: s in Others(u, w, who) ==> !HasChain(s, key)
  }

  /** The answer that history determines, and the session that the record comes to have. */
  ghost predicate Answered(u: Setup, w: World, who: C.Role, i: nat, ourNew: nat -> KeyPair)
    requires Offered(u)
    requires i < |MailFor(w, who)| && i < |C.At(w.history, C.Other(who)).sent|
  {
    var p, x := C.At(w.history, who), C.At(w.history, C.Other(who)).sent[i];
    var mail := MailFor(w, who)[i];
    var (answer, after) := Opened(StoresOf(w, who), AddressFor(u, who), mail.cipher, ourNew);
    && (answer.Ok? <==> C.Verdict(p, x).Ok?)
    && (answer.Ok? || Alone(u, w, who, x.message.header.ratchetKey) ==>
          Unpadded(answer, true) == Expected(C.Verdict(p, x), mail.message))
    && (answer.Ok? || Joined(u, w, who) ==>
          Serves(after, AddressFor(u, who), Receive(p.session, x.message, ourNew(0)), Secret(u)))
  }

  lemma BothSides(u: Setup, w: World, who: C.Role)
    requires Ready(u) && Inv(u, w)
    ensures C.PairInv(Secret(u), w.history.keys, C.At(w.history, who), C.At(w.history, C.Other(who)))
  {
    C.PairInvIsSymmetric(Secret(u), w.history.keys, w.history.alice, w.history.bob);
  }

  /** What a peer that has the session finds when it opens a message. */
  lemma JoinedMail(u: Setup, w: World, who: C.Role, i: nat)
    requires Ready(u) && Inv(u, w) && Joined(u, w, who) && i < |MailFor(w, who)|
    ensures var st, mail, sent := StoresOf(w, who), MailFor(w, who)[i], C.At(w.history, C.Other(who)).sent;
            && i < |sent| && Inner(mail.cipher) == sent[i].message
            && mail.num > 0 && sent[i].plaintext == Pad(mail.message, mail.num)
            && Serves(st, AddressFor(u, who), C.At(w.history, who).session, Secret(u))
            && Welcome(st, AddressFor(u, who), mail.cipher)
            && IsLetter(u, mail.cipher)
  {
    hide C.Inv, Serves, HoldsSession, StillFirst;
    JoinedMeans(u, w);
    if who == C.Bob {
      assert IsLetter(u, w.fromAlice[i].cipher);
    }
  }

  /** A peer that has the session. */
  lemma JoinedReads(u: Setup, w: World, who: C.Role, i: nat, ourNew: nat -> KeyPair)
    requires Ready(u) && Inv(u, w) && Joined(u, w, who) && i < |MailFor(w, who)|
    ensures i < |C.At(w.history, C.Other(who)).sent| && Answered(u, w, who, i, ourNew)
    ensures var st, a := StoresOf(w, who), AddressFor(u, who);
            LoadRecord(Opened(st, a, MailFor(w, who)[i].cipher, ourNew).1, a).previous == LoadRecord(st, a).previous
  {
    hide Inv, Offered, Apart, Serves, Opened, Welcome, Joined, Receive, Unpadded, Expected, Pad, Inner, C.Verdict;
    hide C.PairInv, Secret, IsLetter;
    var p, q := C.At(w.history, who), C.At(w.history, C.Other(who));
    var st, a, mail := StoresOf(w, who), AddressFor(u, who), MailFor(w, who)[i];
    BothSides(u, w, who);
    JoinedMail(u, w, who, i);
    DeliveredUnpadded(w.history.keys, Secret(u), p, q, i, mail.message, mail.num, st, a, mail.cipher, ourNew);
  }

  /** History takes note of a delivery. */
  lemma HistoryReads(history: C.System, master: Term, who: C.Role, i: nat, ourNew: KeyPair)
    requires C.Inv(history, master) && i < |C.At(history, C.Other(who)).sent| && ourNew.publicKey !in history.keys
    ensures var p, m := C.At(history, who), C.At(history, C.Other(who)).sent[i].message;
            var after := C.Apply(history, C.Deliver(who, m, ourNew));
            && C.Inv(after, master)
            && C.At(after, C.Other(who)) == C.At(history, C.Other(who))
            && C.At(after, who).session == Receive(p.session, m, ourNew) && C.At(after, who).sent == p.sent
            && (Decrypt(p.session, m, ourNew).answer.Err? ==> after == history)
  {
    var p, q := C.At(history, who), C.At(history, C.Other(who));
    var step := C.Deliver(who, q.sent[i].message, ourNew);
    C.StepKeepsInv(history, master, step);
    hide C.Inv, Decrypt;
    C.DeliverStepMeans(history, step, p, q);
  }

  lemma TrustStays(u: Setup, w: World, i: nat, ourNew: nat -> KeyPair)
    requires Ready(u) && Inv(u, w) && Joined(u, w, C.Bob) && i < |w.fromAlice|
    ensures var after := Opened(w.bob, u.ofAlice, w.fromAlice[i].cipher, ourNew).1;
            IsTrustedIdentity(after, u.ofAlice, u.alice.identityKeyPair.publicKey)
  {
    JoinedMail(u, w, C.Bob, i);
    var cipher := w.fromAlice[i].cipher;
    assert IsTrustedIdentity(w.bob, u.ofAlice, u.alice.identityKeyPair.publicKey);
    hide Inv, HoldsSession, DecryptRecord, Prepare, Serves, AfterPreKeyMessage;
    if cipher.PreKey? {
      assert cipher.preKey.identityKey == u.alice.identityKeyPair.publicKey;
      HeldPreKeyMessage(w.bob, u.ofAlice, Parsed(cipher.preKey), ourNew);
    }
  }

  /** Whatever Alice opens comes from a Bob who has the session. */
  lemma AliceReadsFrom(u: Setup, w: World, after: World)
    requires Ready(u) && Inv(u, w) && w.fromBob != []
    requires after == w.(alice := after.alice,
                         history := w.history.(alice := after.history.alice, keys := after.history.keys))
    requires C.Inv(after.history, Secret(u)) && after.history.alice.sent == w.history.alice.sent
    requires Serves(after.alice, u.ofBob, after.history.alice.session, Secret(u))
    requires AliceSends(u, after.history.alice.session)
    ensures Inv(u, after)
  {
    hide C.Inv, Serves, AliceSends, StillFirst, Answering;
  }

  lemma AliceReads(u: Setup, w: World, i: nat, ourNew: nat -> KeyPair)
    requires Ready(u) && Inv(u, w) && i < |w.fromBob| && ourNew(0).publicKey !in w.history.keys
    ensures Inv(u, Apply(u, w, Read(C.Alice, i, ourNew)))
  {
    hide C.Inv, C.Apply, Inv, Serves, Opened, Receive, C.Verdict, Offered, Apart, AliceSends, Unpadded, Expected, Alone;
    InvParts(u, w);
    JoinedMail(u, w, C.Alice, i);
    JoinedReads(u, w, C.Alice, i, ourNew);
    HistoryReads(w.history, Secret(u), C.Alice, i, ourNew(0));
    ReceivedState(u, w.history.alice.session, Inner(w.fromBob[i].cipher), ourNew(0));
    AliceReadsFrom(u, w, Apply(u, w, Read(C.Alice, i, ourNew)));
  }

  /** Bob's record serves the session, from now on or still. */
  lemma BobReadsInto(u: Setup, w: World, after: World)
    requires Ready(u) && Inv(u, w)
    requires after == w.(bob := after.bob, history := w.history.(bob := after.history.bob, keys := after.history.keys))
    requires C.Inv(after.history, Secret(u)) && after.history.bob.sent == w.history.bob.sent
    requires Serves(after.bob, u.ofAlice, after.history.bob.session, Secret(u))
    requires BobSends(u, after.history.bob.session)
    requires IsTrustedIdentity(after.bob, u.ofAlice, u.alice.identityKeyPair.publicKey)
    ensures Inv(u, after)
  {
    hide C.Inv, Serves, BobSends, StillFirst, Answering, IsTrustedIdentity;
  }

  lemma BobReads(u: Setup, w: World, i: nat, ourNew: nat -> KeyPair)
    requires Ready(u) && Inv(u, w) && Joined(u, w, C.Bob)
    requires i < |w.fromAlice| && ourNew(0).publicKey !in w.history.keys
    ensures Inv(u, Apply(u, w, Read(C.Bob, i, ourNew)))
  {
    hide C.Inv, C.Apply, Inv, Serves, Opened, Receive, C.Verdict, Offered, Apart, BobSends, Unpadded, Expected;
    hide Alone, HoldsSession;
    InvParts(u, w);
    JoinedMeans(u, w);
    JoinedMail(u, w, C.Bob, i);
    JoinedReads(u, w, C.Bob, i, ourNew);
    HistoryReads(w.history, Secret(u), C.Bob, i, ourNew(0));
    TrustStays(u, w, i, ourNew);
    ReceivedState(u, w.history.bob.session, Inner(w.fromAlice[i].cipher), ourNew(0));
    BobReadsInto(u, w, Apply(u, w, Read(C.Bob, i, ourNew)));
  }

  // ----- the first message to arrive -----

  /** What a letter makes of the record of a Bob who does not hold the session. */
  lemma LetterOpened(u: Setup, st: Stores, cipher: CiphertextMessage, ourNew: nat -> KeyPair)
    requires Ready(u) && st == u.bob.(identities := st.identities)
    requires IsTrustedIdentity(st, u.ofAlice, u.alice.identityKeyPair.publicKey)
    requires cipher.PreKey? && IsLetter(u, cipher) && MadeUnder(Inner(cipher), Secret(u))
    ensures var (answer, after) := Opened(st, u.ofAlice, cipher, ourNew);
            var bob, m := Answering(u.alice, u.bob, u.bundle, u.ourBase), Inner(cipher);
            var attempt := Decrypt(bob, m, ourNew(0));
            && (if attempt.answer.Ok? then answer == attempt.answer else answer.Err?)
            && ((forall s :: s in States(LoadRecord(st, u.ofAlice)) ==> !HasChain(s, m.header.ratchetKey)) ==>
                  answer == attempt.answer)
            && (answer.Ok? ==> Serves(after, u.ofAlice, Receive(bob, m, ourNew(0)), Secret(u)))
            && (forall s :: s in LoadRecord(after, u.ofAlice).previous ==> s in States(LoadRecord(st, u.ofAlice)))
            && after.identities == st.identities[u.ofAlice := u.alice.identityKeyPair.publicKey]
            && (answer.Err? ==> after == st.(identities := after.identities))
  {
    hide InitializeAsBob, AliceSecret, Decrypt, MadeUnder, Foreign, HasChain, HoldsSession;
    var m, before := Parsed(cipher.preKey), LoadRecord(st, u.ofAlice);
    BobSide(u.alice, st, u.ofAlice, u.bundle, u.ourBase, Inner(cipher));
    var record := Prepare(st, u.ofAlice, m).value.0;
    StartOverIsForeign(before, Secret(u));
    ForeignArchiveIsSilent(record, Inner(cipher), ourNew, Secret(u));
    hide DecryptRecord, Prepare;
  }

  /** Whichever of Alice's messages is opened first: it is read unless more than 2000 messages lie in front of it. */
  lemma WaitingVerdict(u: Setup, w: World, i: nat)
    requires Ready(u) && Inv(u, w) && !Joined(u, w, C.Bob) && i < |w.fromAlice|
    ensures i < |w.history.alice.sent|
    ensures var x := w.history.alice.sent[i];
            && C.Verdict(w.history.bob, x) == (if i <= MAX_AHEAD then Ok(x.plaintext) else Err(InvalidMessage))
            && x.message.header.counter == i
  {
    JoinedMeans(u, w);
    hide C.Inv, Serves;
    assert w.history.bob.session.receiverChains == [];
  }

  lemma WaitingReads(u: Setup, w: World, i: nat, ourNew: nat -> KeyPair)
    requires Ready(u) && Inv(u, w) && !Joined(u, w, C.Bob) && i < |w.fromAlice|
    ensures i < |w.history.alice.sent| && Answered(u, w, C.Bob, i, ourNew)
    ensures var (answer, after) := Opened(w.bob, u.ofAlice, w.fromAlice[i].cipher, ourNew);
            && Inner(w.fromAlice[i].cipher) == w.history.alice.sent[i].message
            && (if i <= MAX_AHEAD then answer.Ok? else answer.Err?)
            && (answer.Ok? <==> Decrypt(w.history.bob.session, w.history.alice.sent[i].message, ourNew(0)).answer.Ok?)
            && IsTrustedIdentity(after, u.ofAlice, u.alice.identityKeyPair.publicKey)
            && (forall s :: s in LoadRecord(after, u.ofAlice).previous ==> s in States(LoadRecord(w.bob, u.ofAlice)))
            && (answer.Err? ==> after == w.bob.(identities := after.identities))
  {
    JoinedMeans(u, w);
    WaitingVerdict(u, w, i);
    BothSides(u, w, C.Bob);
    var p, q := w.history.bob, w.history.alice;
    var mail := w.fromAlice[i];
    C.VerdictIsGiven(Secret(u), w.history.keys, p, q, i, ourNew(0));
    PeerSent(Secret(u), w.history.keys, q, i);
    UnpadUndoesPad(mail.message, mail.num);
    assert IsLetter(u, mail.cipher);
    LetterOpened(u, w.bob, mail.cipher, ourNew);
  }

  /** A refusal changes Bob's stores only by an identity that he trusts anyway. */
  lemma BobRefuses(u: Setup, w: World, after: World)
    requires Ready(u) && Inv(u, w) && BobWaits(u, w)
    requires after == w.(bob := w.bob.(identities := after.bob.identities))
    requires IsTrustedIdentity(after.bob, u.ofAlice, u.alice.identityKeyPair.publicKey)
    ensures Inv(u, after)
  {
    hide C.Inv, Serves, IsTrustedIdentity, AliceSends, Recorded, BobJoined;
  }

  lemma BobReadsFirst(u: Setup, w: World, i: nat, ourNew: nat -> KeyPair)
    requires Ready(u) && Inv(u, w) && !Joined(u, w, C.Bob)
    requires i < |w.fromAlice| && ourNew(0).publicKey !in w.history.keys
    ensures Inv(u, Apply(u, w, Read(C.Bob, i, ourNew)))
  {
    hide C.Inv, C.Apply, Inv, Serves, Opened, Receive, C.Verdict, Offered, Apart, BobSends, Unpadded, Expected;
    hide Alone, HoldsSession;
    InvParts(u, w);
    JoinedMeans(u, w);
    WaitingReads(u, w, i, ourNew);
    HistoryReads(w.history, Secret(u), C.Bob, i, ourNew(0));
    ReceivedState(u, w.history.bob.session, Inner(w.fromAlice[i].cipher), ourNew(0));
    var after := Apply(u, w, Read(C.Bob, i, ourNew));
    if Opened(w.bob, u.ofAlice, w.fromAlice[i].cipher, ourNew).0.Ok? {
      BobReadsInto(u, w, after);
    } else {
      BobRefuses(u, w, after);
    }
  }

  /** Bob holds the session from the first message on that he reads. */
  lemma ReadIsJoined(u: Setup, w: World, i: nat, ourNew: nat -> KeyPair)
    requires Ready(u) && Inv(u, w) && i < |w.fromAlice|
    ensures var (answer, after) := Opened(w.bob, u.ofAlice, w.fromAlice[i].cipher, ourNew);
            Joined(u, w, C.Bob) || answer.Ok? ==>
              HoldsSession(LoadRecord(after, u.ofAlice), CURRENT_VERSION, u.ourBase.publicKey)
  {
    hide Inv, C.Apply, Offered, Apart, HoldsSession, Opened, Receive, BobSends, Serves, Unpadded, Expected, C.Verdict;
    InvParts(u, w);
    var s, m := w.history.bob.session, w.history.alice.sent[i].message;
    ReceivedState(u, s, m, ourNew(0));
    var (answer, after) := Opened(w.bob, u.ofAlice, w.fromAlice[i].cipher, ourNew);
    if Joined(u, w, C.Bob) {
      JoinedReads(u, w, C.Bob, i, ourNew);
    } else {
      WaitingReads(u, w, i, ourNew);
    }
    if Joined(u, w, C.Bob) || answer.Ok? {
      ServedIsHeld(u, after, Receive(s, m, ourNew(0)));
    }
  }

  // ----- whole runs -----

  lemma MoveKeepsInv(u: Setup, w: World, move: Move)
    requires Ready(u) && Inv(u, w) && Permitted(u, w, move)
    ensures Inv(u, Apply(u, w, move))
  {
    hide Inv, Apply, Offered, Apart;
    match move
    case Write(who, message, num) =>
      if who == C.Alice {
        AliceWrites(u, w, message, num);
      } else {
        BobWrites(u, w, message, num);
      }
    case Read(who, i, ourNew) =>
      if who == C.Alice {
        AliceReads(u, w, i, ourNew);
      } else if Joined(u, w, C.Bob) {
        BobReads(u, w, i, ourNew);
      } else {
        BobReadsFirst(u, w, i, ourNew);
      }
  }

  lemma {:induction false} RunKeepsInv(u: Setup, w: World, moves: seq<Move>)
    requires Ready(u) && Inv(u, w) && PermittedRun(u, w, moves)
    ensures Inv(u, Run(u, w, moves))
    decreases |moves|
  {
    hide Inv, Apply, Offered, Apart, Permitted;
    if moves != [] {
      MoveKeepsInv(u, w, moves[0]);
      RunKeepsInv(u, Apply(u, w, moves[0]), moves[1..]);
    }
  }

  /**
   From the bundle to the bytes, over every run. Whatever message of the other one a peer opens, plain or
   prekey, and in whatever order, the answer is the text byte for byte or a refusal, and history says
   which: a text exactly when history's verdict is one, the very error of the verdict if no other session
   in the record shares the ratchet key. What is read, the record serves from then on.
   */
  lemma {:induction false} EveryMailIsExact(u: Setup, moves: seq<Move>, who: C.Role, i: nat, ourNew: nat -> KeyPair)
    requires Ready(u) && PermittedRun(u, Begin(u), moves)
    requires i < |MailFor(Run(u, Begin(u), moves), who)|
    ensures var w := Run(u, Begin(u), moves);
            && C.Inv(w.history, Secret(u))
            && i < |C.At(w.history, C.Other(who)).sent|
            && Answered(u, w, who, i, ourNew)
  {
    hide Inv, Answered, Offered, Apart, Begin;
    BeginInv(u);
    RunKeepsInv(u, Begin(u), moves);
    var w := Run(u, Begin(u), moves);
    InvParts(u, w);
    if Joined(u, w, who) {
      JoinedReads(u, w, who, i, ourNew);
    } else {
      WaitingReads(u, w, i, ourNew);
    }
  }

  /**
   The first message to arrive, over every run that leaves Bob without the session: of all that Alice has
   sent, he reads number i exactly when it is at most 2000, and then his record serves the session.
   */
  lemma {:induction false} AnyMailMayComeFirst(u: Setup, moves: seq<Move>, i: nat, ourNew: nat -> KeyPair)
    requires Ready(u) && PermittedRun(u, Begin(u), moves)
    requires !Joined(u, Run(u, Begin(u), moves), C.Bob)
    requires i < |Run(u, Begin(u), moves).fromAlice|
    ensures var w := Run(u, Begin(u), moves);
            var mail := w.fromAlice[i];
            var (answer, after) := Opened(w.bob, u.ofAlice, mail.cipher, ourNew);
            && mail.cipher.PreKey?
            && (if i <= 2000 then
                  && Unpadded(answer, true) == Ok(mail.message)
                  && HoldsSession(LoadRecord(after, u.ofAlice), CURRENT_VERSION, u.ourBase.publicKey)
                  && LoadRecord(after, u.ofAlice).current
                       == Receive(Answering(u.alice, u.bob, u.bundle, u.ourBase), Inner(mail.cipher), ourNew(0))
                else
                  && answer.Err? && after.sessions == w.bob.sessions && after.preKeys == w.bob.preKeys)
  {
    hide Inv, Offered, Apart, Begin, Opened, HoldsSession, C.Inv, Receive, Answering, StillFirst;
    BeginInv(u);
    RunKeepsInv(u, Begin(u), moves);
    var w := Run(u, Begin(u), moves);
    InvParts(u, w);
    JoinedMeans(u, w);
    WaitingVerdict(u, w, i);
    WaitingReads(u, w, i, ourNew);
    ReadIsJoined(u, w, i, ourNew);
  }

  // ----- the other sessions of a record -----

  /** A move brings no other session into a record. */
  predicate NoMore(u: Setup, w: World, after: World, who: C.Role)
  {
    forall s :: s in Others(u, after, who) ==> s in Others(u, w, who)
  }

  lemma BobWritesNoMore(u: Setup, w: World, message: seq<byte>, num: byte)
    requires Ready(u) && Inv(u, w) && Joined(u, w, C.Bob) && num > 0
    ensures NoMore(u, w, Apply(u, w, Write(C.Bob, message, num)), C.Bob)
  {
    hide Inv, C.Apply, Offered, Apart, Pad, HoldsSession, Encrypt;
    var r, after := LoadRecord(w.bob, u.ofAlice), Apply(u, w, Write(C.Bob, message, num));
    if Encrypt(r.current, Pad(message, num)).Ok? {
      EncryptKeepsName(r.current, Pad(message, num));
      RecordRuns.UpdatingKeepsSessions(r, LoadRecord(after.bob, u.ofAlice), CURRENT_VERSION, u.ourBase.publicKey);
    }
  }

  lemma EncryptKeepsName(s: SessionStructure, plaintext: seq<byte>)
    requires Encrypt(s, plaintext).Ok?
    ensures var state := Encrypt(s, plaintext).value.1;
            state.aliceBaseKey == s.aliceBaseKey && Version(state) == Version(s)
  {
  }

  lemma AliceKeepsHers(u: Setup, w: World, move: Move)
    requires Ready(u) && Inv(u, w) && Permitted(u, w, move)
    ensures NoMore(u, w, Apply(u, w, move), C.Alice)
  {
    hide Inv, C.Apply, Offered, Apart, Pad, HoldsSession, Encrypt, Opened, Answered;
    if move.Read? && move.who == C.Alice {
      JoinedReads(u, w, C.Alice, move.i, move.ourNew);
    }
  }

  lemma BobReadsNoMore(u: Setup, w: World, i: nat, ourNew: nat -> KeyPair)
    requires Ready(u) && Inv(u, w) && i < |w.fromAlice|
    ensures NoMore(u, w, Apply(u, w, Read(C.Bob, i, ourNew)), C.Bob)
  {
    hide Inv, C.Apply, Offered, Apart, HoldsSession, Opened, Receive, BobSends, Serves, Unpadded, Expected, C.Verdict;
    hide Answered;
    ReadIsJoined(u, w, i, ourNew);
    if Joined(u, w, C.Bob) {
      JoinedReads(u, w, C.Bob, i, ourNew);
    } else {
      WaitingReads(u, w, i, ourNew);
    }
  }

  lemma MoveBringsNoMore(u: Setup, w: World, move: Move, who: C.Role)
    requires Ready(u) && Inv(u, w) && Permitted(u, w, move)
    ensures NoMore(u, w, Apply(u, w, move), who)
  {
    hide Inv, Offered, Apart, C.Apply, AfterEncrypt, Opened, HoldsSession, Pad;
    if who == C.Alice {
      AliceKeepsHers(u, w, move);
    } else if move.who == C.Bob {
      match move
      case Write(_, message, num) => BobWritesNoMore(u, w, message, num);
      case Read(_, i, ourNew) => BobReadsNoMore(u, w, i, ourNew);
    }
  }

  lemma {:induction false} RunBringsNoMore(u: Setup, w: World, moves: seq<Move>, who: C.Role)
    requires Ready(u) && Inv(u, w) && PermittedRun(u, w, moves)
    ensures NoMore(u, w, Run(u, w, moves), who)
    decreases |moves|
  {
    hide Inv, Apply, Offered, Apart, Permitted, Others;
    if moves != [] {
      MoveKeepsInv(u, w, moves[0]);
      MoveBringsNoMore(u, w, moves[0], who);
      RunBringsNoMore(u, Apply(u, w, moves[0]), moves[1..], who);
    }
  }

  lemma BeginHasNoMore(u: Setup, who: C.Role)
    requires Ready(u)
    ensures forall s :: s in Others(u, Begin(u), who) ==>
              s in States(if who == C.Alice then LoadRecord(u.alice, u.ofBob) else LoadRecord(u.bob, u.ofAlice))
  {
    hide InitializeAsAlice, InitializeAsBob, AliceSecret, Foreign;
    StartOverIsForeign(LoadRecord(u.alice, u.ofBob), Secret(u));
  }

  /**
   A ratchet key for which a record held no chain when the bundle came is never shared with another
   session, so for messages under it every refusal is the one of the verdict, over every run.
   */
  lemma {:induction false} NewRatchetKeysStayAlone(u: Setup, moves: seq<Move>, who: C.Role, key: PublicKey)
    requires Ready(u) && PermittedRun(u, Begin(u), moves)
    requires var before := if who == C.Alice then LoadRecord(u.alice, u.ofBob) else LoadRecord(u.bob, u.ofAlice);
             forall s :: s in States(before) ==> !HasChain(s, key)
    ensures Alone(u, Run(u, Begin(u), moves), who, key)
  {
    hide Inv, Offered, Apart, Begin, Others;
    BeginInv(u);
    BeginHasNoMore(u, who);
    RunBringsNoMore(u, Begin(u), moves, who);
  }

  // ----- at most once -----

  /** What was sent stays, and what was delivered stays delivered. */
  ghost predicate Extends(w: World, after: World, who: C.Role)
  {
    && |MailFor(w, who)| <= |MailFor(after, who)|
    && (forall i :: 0 <= i < |MailFor(w, who)| ==> MailFor(after, who)[i] == MailFor(w, who)[i])
    && forall key :: C.On(C.At(w.history, who).delivered, key) <= C.On(C.At(after.history, who).delivered, key)
  }

  lemma MoveExtends(u: Setup, w: World, move: Move, who: C.Role)
    ensures Extends(w, Apply(u, w, move), who)
  {
    hide AfterEncrypt, Opened, Decrypt, Encrypt, Pad;
  }

  lemma {:induction false} RunExtends(u: Setup, w: World, moves: seq<Move>, who: C.Role)
    ensures Extends(w, Run(u, w, moves), who)
    decreases |moves|
  {
    hide Apply;
    if moves != [] {
      MoveExtends(u, w, moves[0], who);
      RunExtends(u, Apply(u, w, moves[0]), moves[1..], who);
    }
  }

  lemma MailIsSent(u: Setup, w: World, who: C.Role, i: nat)
    requires Ready(u) && Inv(u, w) && i < |MailFor(w, who)|
    ensures i < |C.At(w.history, C.Other(who)).sent|
    ensures Inner(MailFor(w, who)[i].cipher) == C.At(w.history, C.Other(who)).sent[i].message
  {
  }

  /** Reading is decided by the peer's session in history. */
  lemma ReadIsDecided(u: Setup, w: World, who: C.Role, i: nat, ourNew: nat -> KeyPair)
    requires Ready(u) && Inv(u, w) && i < |MailFor(w, who)|
    ensures i < |C.At(w.history, C.Other(who)).sent|
    ensures var answer := Opened(StoresOf(w, who), AddressFor(u, who), MailFor(w, who)[i].cipher, ourNew).0;
            var p, x := C.At(w.history, who), C.At(w.history, C.Other(who)).sent[i];
            && answer.Ok? == C.Verdict(p, x).Ok? == Decrypt(p.session, x.message, ourNew(0)).answer.Ok?
            && (x.message.header.counter in C.On(p.delivered, x.message.header.ratchetKey) ==> !answer.Ok?)
  {
    hide Inv, Opened, Offered, Apart, Serves, Joined, Alone, Unpadded, Expected, Receive, C.Verdict, C.PairInv, Decrypt;
    MailIsSent(u, w, who, i);
    BothSides(u, w, who);
    C.VerdictIsGiven(Secret(u), w.history.keys, C.At(w.history, who), C.At(w.history, C.Other(who)), i, ourNew(0));
    if Joined(u, w, who) {
      JoinedReads(u, w, who, i, ourNew);
    } else {
      NotJoinedIsBob(u, w, who);
      WaitingReads(u, w, i, ourNew);
    }
  }

  lemma NotJoinedIsBob(u: Setup, w: World, who: C.Role)
    requires !Joined(u, w, who)
    ensures who == C.Bob
  {
  }

  lemma DeliveryIsNoted(history: C.System, who: C.Role, m: WhisperMessage, ourNew: KeyPair)
    requires Decrypt(C.At(history, who).session, m, ourNew).answer.Ok?
    ensures var after := C.Apply(history, C.Deliver(who, m, ourNew));
            m.header.counter in C.On(C.At(after, who).delivered, m.header.ratchetKey)
  {
    hide Decrypt;
  }

  /** What was read is noted as delivered. */
  lemma ReadIsNoted(u: Setup, w: World, who: C.Role, i: nat, ourNew: nat -> KeyPair)
    requires Ready(u) && Inv(u, w) && i < |MailFor(w, who)|
    requires Opened(StoresOf(w, who), AddressFor(u, who), MailFor(w, who)[i].cipher, ourNew).0.Ok?
    ensures var h := Inner(MailFor(w, who)[i].cipher).header;
            h.counter in C.On(C.At(Apply(u, w, Read(who, i, ourNew)).history, who).delivered, h.ratchetKey)
  {
    hide Inv, Opened, Offered, Apart, Decrypt, C.Verdict, C.Apply;
    MailIsSent(u, w, who, i);
    ReadIsDecided(u, w, who, i, ourNew);
    DeliveryIsNoted(w.history, who, Inner(MailFor(w, who)[i].cipher), ourNew(0));
  }

  /** A message that was read is not read again, whatever the two do in between. */
  lemma {:induction false} ReadAtMostOnce(u: Setup, moves: seq<Move>, who: C.Role, i: nat, ourNew: nat -> KeyPair,
                                          more: seq<Move>, ourNext: nat -> KeyPair)
    requires Ready(u) && PermittedRun(u, Begin(u), moves)
    requires Permitted(u, Run(u, Begin(u), moves), Read(who, i, ourNew))
    requires PermittedRun(u, Apply(u, Run(u, Begin(u), moves), Read(who, i, ourNew)), more)
    requires var w := Run(u, Begin(u), moves);
             Opened(StoresOf(w, who), AddressFor(u, who), MailFor(w, who)[i].cipher, ourNew).0.Ok?
    ensures var w := Run(u, Apply(u, Run(u, Begin(u), moves), Read(who, i, ourNew)), more);
            && i < |MailFor(w, who)|
            && !Opened(StoresOf(w, who), AddressFor(u, who), MailFor(w, who)[i].cipher, ourNext).0.Ok?
  {
    hide Inv, Offered, Apart, Begin, Opened, Apply;
    var w := Run(u, Begin(u), moves);
    var read := Apply(u, w, Read(who, i, ourNew));
    BeginInv(u);
    RunKeepsInv(u, Begin(u), moves);
    ReadIsNoted(u, w, who, i, ourNew);
    MoveKeepsInv(u, w, Read(who, i, ourNew));
    MoveExtends(u, w, Read(who, i, ourNew), who);
    RunKeepsInv(u, read, more);
    RunExtends(u, read, more, who);
    MailIsSent(u, Run(u, read, more), who, i);
    ReadIsDecided(u, Run(u, read, more), who, i, ourNext);
  }
}
