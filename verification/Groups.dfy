/**
 The group sender chain: one sender, many members (axolotl/groups/groupcipher.py,
 axolotl/groups/groupsessionbuilder.py, axolotl/groups/state/senderkeystate.py,
 axolotl/groups/state/senderkeyrecord.py, axolotl/groups/ratchet/).
 */
module Groups {
  import opened Wrappers
  import opened Curve
  import opened Ratchet
  import opened SkippedKeys
  import opened Messages

  datatype SenderKeyStructure = SenderKeyStructure(
    keyId: nat, chain: Chain<Term>, signingPublic: PublicKey, signingPrivate: Option<KeyPair>)

  /** The states of a record, oldest first. */
  type SenderKeys = seq<SenderKeyStructure>

  datatype GroupSignature = SignedBy(signer: PublicKey, keyId: nat, iteration: nat,
                                     body: Body) | ForgedSignature(id: nat)

  datatype SenderKeyMessage = SenderKeyMessage(keyId: nat, iteration: nat, body: Body, signature: GroupSignature)

  datatype DistributionMessage = DistributionMessage(keyId: nat, iteration: nat, chainKey: Term, signingKey: PublicKey)

  function MessageSeed(chainKey: Term): Term
  {
    Hmac(chainKey, MESSAGE_KEY_SEED)
  }

  function GroupBody(seed: Term, plaintext: seq<byte>): Body
  {
    Encrypted(Hkdf(Empty, seed, WhisperGroup, 1), Hkdf(Empty, seed, WhisperGroup, 0), plaintext)
  }

  function OpenBody(seed: Term, body: Body): Option<seq<byte>>
  {
    if body.Encrypted? && body == GroupBody(seed, body.plaintext) then Some(body.plaintext) else None
  }

  // ----- the builder and the cipher as functions -----

  /** Take the state of a record, creating one only in an empty record. */
  function Create(r: SenderKeys, keyId: nat, chainKey: Term, signing: KeyPair): (SenderKeys, DistributionMessage)
  {
    var new_ := SenderKeyStructure(keyId, Chain(ChainKey(chainKey, 0), []), signing.publicKey, Some(signing));
    var after := if r == [] then [new_] else r;
    (after, DistributionMessage(after[0].keyId, after[0].chain.chainKey.index, after[0].chain.chainKey.key,
                                after[0].signingPublic))
  }

  function ProcessDistribution(r: SenderKeys, d: DistributionMessage): SenderKeys
  {
    r + [SenderKeyStructure(d.keyId, Chain(ChainKey(d.chainKey, d.iteration), []), d.signingKey, None)]
  }

  function FindState(r: SenderKeys, keyId: nat): (i: Option<nat>)
    ensures i.Some? ==> i.value < |r| && r[i.value].keyId == keyId
    ensures i.Some? ==> forall k :: 0 <= k < i.value ==> r[k].keyId != keyId
    ensures i.None? ==> forall k :: 0 <= k < |r| ==> r[k].keyId != keyId
  {
    if r == [] then None
    else if r[0].keyId == keyId then Some(0)
    else assert forall k :: 1 <= k < |r| ==> r[k] == r[1..][k - 1];
         match FindState(r[1..], keyId)
         case None => None
         case Some(i) => Some(i + 1)
  }

  /** The guard against distant messages subtracts the message's iteration from the chain's. */
  function GetSenderKey(c: Chain<Term>, iteration: nat): Outcome<Term>
  {
    if c.chainKey.index > iteration then
      match Find(c.stored, iteration)
      case None => AlreadyTaken
      case Some(k) => Taken(c.stored[k].keys, Chain(c.chainKey, c.stored[..k] + c.stored[k + 1..]))
    else if c.chainKey.index - iteration > 2000 then TooFarAhead
    else
      var s := SkipTo(c, iteration, MessageSeed);
      Taken(MessageSeed(s.chainKey.key), Chain(NextChainKey(s.chainKey), s.stored))
  }

  function GroupEncrypt(r: SenderKeys, plaintext: seq<byte>): Result<(SenderKeyMessage, SenderKeys), Failure>
  {
    if r == [] then Err(NoSession)
    else if r[0].signingPrivate.None? then Err(Uncaught)
    else
      var s := r[0];
      var body := GroupBody(MessageSeed(s.chain.chainKey.key), plaintext);
      var iteration := s.chain.chainKey.index;
      Ok((SenderKeyMessage(s.keyId, iteration, body,
                           SignedBy(s.signingPrivate.value.publicKey, s.keyId, iteration, body)),
          r[0 := s.(chain := s.chain.(chainKey := NextChainKey(s.chain.chainKey)))]))
  }

  predicate SignatureFits(m: SenderKeyMessage, signer: PublicKey)
  {
    m.signature == SignedBy(signer, m.keyId, m.iteration, m.body)
  }

  /** The plaintext of a message, and the chain that is left. */
  function Open(s: SenderKeyStructure, m: SenderKeyMessage): Result<(seq<byte>, Chain<Term>), Failure>
  {
    if !SignatureFits(m, s.signingPublic) then Err(InvalidMessage)
    else match GetSenderKey(s.chain, m.iteration)
         case AlreadyTaken => Err(DuplicateMessage)
         case TooFarAhead => Err(InvalidMessage)
         case Taken(seed, chain) =>
           match OpenBody(seed, m.body)
           case None => Err(InvalidMessage)
           case Some(plaintext) => Ok((plaintext, chain))
  }

  /** The answer, and the record that is stored on success. */
  function GroupDecrypt(r: SenderKeys, m: SenderKeyMessage): Result<(seq<byte>, SenderKeys), Failure>
  {
    if r == [] then Err(NoSession)
    else match FindState(r, m.keyId)
         case None => Err(InvalidMessage)
         case Some(i) =>
           match Open(r[i], m)
           case Err(e) => Err(e)
           case Ok((plaintext, chain)) => Ok((plaintext, r[i := r[i].(chain := chain)]))
  }

  /**
   What a member reads is signed, and made with its chain: the state with the message's key id has the
   signer's key, the signature covers key id, iteration and body, and only that state's chain changes.
   */
  lemma {:induction false} OnlySignedIsRead(r: SenderKeys, m: SenderKeyMessage)
    requires GroupDecrypt(r, m).Ok?
    ensures FindState(r, m.keyId).Some?
    ensures var i := FindState(r, m.keyId).value;
            var (plaintext, after) := GroupDecrypt(r, m).value;
            && m.signature == SignedBy(r[i].signingPublic, m.keyId, m.iteration, m.body)
            && (exists seed :: m.body == GroupBody(seed, plaintext))
            && |after| == |r| && after[i] == r[i].(chain := after[i].chain)
            && forall k :: 0 <= k < |r| && k != i ==> after[k] == r[k]
  {
  }

  /** Who cannot write or read: an empty record has no session, and a member cannot write for the sender. */
  lemma GroupRefusals(r: SenderKeys, plaintext: seq<byte>, m: SenderKeyMessage)
    ensures GroupEncrypt(r, plaintext) == Err(NoSession) <==> r == []
    ensures GroupDecrypt(r, m) == Err(NoSession) <==> r == []
    ensures r != [] ==> (GroupEncrypt(r, plaintext).Ok? <==> r[0].signingPrivate.Some?)
    ensures r != [] && (forall k :: 0 <= k < |r| ==> r[k].keyId != m.keyId) ==>
              GroupDecrypt(r, m) == Err(InvalidMessage)
  {
  }

  // ----- the guard that cannot fire -----

  /** The group chain is a skipped-key chain without a limit: its guard against distant messages never fires. */
  lemma GroupChainHasNoLimit(c: Chain<Term>, iteration: nat)
    ensures GetSenderKey(c, iteration) == Take(c, iteration, None, MessageSeed)
    ensures !GetSenderKey(c, iteration).TooFarAhead?
    ensures iteration >= c.chainKey.index ==> GetSenderKey(c, iteration).Taken?
  {
  }

  lemma {:induction false} SkipToStores<K>(c: Chain<K>, index: nat, derive: Term -> K)
    requires c.chainKey.index <= index
    ensures |SkipTo(c, index, derive).stored| == |c.stored| + (index - c.chainKey.index)
    decreases index - c.chainKey.index
  {
    if c.chainKey.index < index {
      SkipToStores(Chain(NextChainKey(c.chainKey), c.stored + [Stored(c.chainKey.index, derive(c.chainKey.key))]),
                   index, derive);
    }
  }

  /** However far ahead a message lies, it is accepted, at the price of one stored key per message skipped. */
  lemma AnyJumpIsAccepted(c: Chain<Term>, jump: nat)
    ensures var r := GetSenderKey(c, c.chainKey.index + jump);
            r.Taken? && |r.chain.stored| == |c.stored| + jump && r.chain.chainKey.index == c.chainKey.index + jump + 1
  {
    SkipToStores(c, c.chainKey.index + jump, MessageSeed);
  }

  lemma {:induction false} AdvanceAdds(seed: Term, m: nat, n: nat)
    ensures Advance(Advance(seed, m), n) == Advance(seed, m + n)
  {
    if n > 0 {
      AdvanceAdds(seed, m, n - 1);
    }
  }

  // ----- one sender and one of its members, over whole runs -----

  /**
   History: the plaintexts sent and the distribution messages made, the iteration at which the member's
   key starts, and the iterations it decrypted.
   */
  datatype Group = Group(
    sender: SenderKeys, sent: seq<SenderKeyMessage>, plaintexts: seq<seq<byte>>, announced: seq<DistributionMessage>,
    member: SenderKeys, joined: Option<nat>, delivered: set<nat>)

  /** A distribution message may arrive late, out of order, twice or never, like any other message. */
  datatype Step =
    | Send(plaintext: seq<byte>)
    | Announce
    | Join(distribution: DistributionMessage)
    | Deliver(message: SenderKeyMessage)

  /** Joining again later appends a second state, which the first one hides. */
  function Apply(g: Group, step: Step): Group
  {
    match step
    case Send(plaintext) =>
      (match GroupEncrypt(g.sender, plaintext)
       case Err(_) => g
       case Ok((m, r)) => g.(sender := r, sent := g.sent + [m], plaintexts := g.plaintexts + [plaintext]))
    case Announce =>
      if g.sender == [] then g
      else g.(announced := g.announced + [Create(g.sender, 0, Empty, KeyPair(g.sender[0].signingPublic)).1])
    case Join(d) =>
      g.(member := ProcessDistribution(g.member, d), joined := if g.joined.Some? then g.joined else Some(d.iteration))
    case Deliver(m) =>
      match GroupDecrypt(g.member, m)
      case Err(_) => g
      case Ok((_, r)) => g.(member := r, delivered := g.delivered + {m.iteration})
  }

  function Run(g: Group, steps: seq<Step>): Group
    decreases |steps|
  {
    if steps == [] then g else Run(Apply(g, steps[0]), steps[1..])
  }

  /**
   Only the sender signs: whatever carries its signature was sent. Distribution messages reach members
   over their pairwise sessions, so they are the sender's too.
   */
  ghost predicate Unforgeable(g: Group, step: Step)
  {
    match step
    case Deliver(m) => g.sender != [] && SignatureFits(m, g.sender[0].signingPublic) ==> m in g.sent
    case Join(d) => d in g.announced
    case _ => true
  }

  ghost predicate UnforgeableRun(g: Group, steps: seq<Step>)
    decreases |steps|
  {
    steps == [] || (Unforgeable(g, steps[0]) && UnforgeableRun(Apply(g, steps[0]), steps[1..]))
  }

  ghost predicate Start(g: Group, keyId: nat, seed: Term, signing: KeyPair)
  {
    g == Group(Create([], keyId, seed, signing).0, [], [], [], [], None, {})
  }

  function SentMessage(keyId: nat, seed: Term, signing: KeyPair, iteration: nat, plaintext: seq<byte>): SenderKeyMessage
  {
    var body := GroupBody(MessageSeed(Advance(seed, iteration)), plaintext);
    SenderKeyMessage(keyId, iteration, body, SignedBy(signing.publicKey, keyId, iteration, body))
  }

  function Announcement(keyId: nat, seed: Term, signing: KeyPair, iteration: nat): DistributionMessage
  {
    DistributionMessage(keyId, iteration, Advance(seed, iteration), signing.publicKey)
  }

  /** Every state of a member is one of this sender's, and the first one is the one that is used. */
  ghost predicate MemberInv(g: Group, keyId: nat, seed: Term, signing: KeyPair)
  {
    && (forall k :: 0 <= k < |g.member| ==> g.member[k].keyId == keyId)
    && match g.joined
       case None => g.member == [] && g.delivered == {}
       case Some(start) =>
         && g.member != [] && g.member[0].signingPublic == signing.publicKey
         && Tracks(g.member[0].chain, Advance(seed, start), start, g.delivered, MessageSeed)
  }

  ghost predicate Inv(g: Group, keyId: nat, seed: Term, signing: KeyPair)
  {
    && |g.sent| == |g.plaintexts|
    && g.sender == [SenderKeyStructure(keyId, Chain(ChainKey(Advance(seed, |g.sent|), |g.sent|), []), signing.publicKey,
                                       Some(signing))]
    && (forall i :: 0 <= i < |g.sent| ==> g.sent[i] == SentMessage(keyId, seed, signing, i, g.plaintexts[i]))
    && (forall i :: 0 <= i < |g.announced| ==>
          && g.announced[i].iteration <= |g.sent|
          && g.announced[i] == Announcement(keyId, seed, signing, g.announced[i].iteration))
    && MemberInv(g, keyId, seed, signing)
  }

  /** What a member answers to message i of the sender. */
  function Verdict(g: Group, i: nat): Result<seq<byte>, Failure>
    requires i < |g.plaintexts|
  {
    if g.joined.None? then Err(NoSession)
    else if i < g.joined.value || i in g.delivered then Err(DuplicateMessage)
    else Ok(g.plaintexts[i])
  }

  lemma {:induction false} MemberAnswers(g: Group, keyId: nat, seed: Term, signing: KeyPair, i: nat)
    requires Inv(g, keyId, seed, signing) && i < |g.sent|
    ensures match GroupDecrypt(g.member, g.sent[i])
            case Err(e) => Verdict(g, i) == Err(e)
            case Ok((plaintext, r)) =>
              && Verdict(g, i) == Ok(plaintext)
              && r == g.member[0 := g.member[0].(chain := r[0].chain)]
              && Tracks(r[0].chain, Advance(seed, g.joined.value), g.joined.value, g.delivered + {i}, MessageSeed)
  {
    if g.joined.Some? {
      var start := g.joined.value;
      assert FindState(g.member, keyId) == Some(0);
      GroupChainHasNoLimit(g.member[0].chain, i);
      TakeIsExact(g.member[0].chain, Advance(seed, start), start, g.delivered, i, None, MessageSeed);
      if i >= start {
        AdvanceAdds(seed, start, i - start);
      }
    }
  }

  lemma SendKeepsInv(g: Group, keyId: nat, seed: Term, signing: KeyPair, plaintext: seq<byte>)
    requires Inv(g, keyId, seed, signing)
    ensures Inv(Apply(g, Send(plaintext)), keyId, seed, signing)
  {
    hide Create, Announcement, Tracks;
    var after := Apply(g, Send(plaintext));
    assert after.member == g.member && after.delivered == g.delivered && after.joined == g.joined;
    var n := |g.sent|;
    assert |after.sent| == n + 1 && after.sent[n] == SentMessage(keyId, seed, signing, n, plaintext);
    hide GroupEncrypt;
  }

  lemma AnnounceKeepsInv(g: Group, keyId: nat, seed: Term, signing: KeyPair)
    requires Inv(g, keyId, seed, signing)
    ensures Inv(Apply(g, Announce), keyId, seed, signing)
  {
  }

  lemma JoinKeepsInv(g: Group, keyId: nat, seed: Term, signing: KeyPair, d: DistributionMessage)
    requires Inv(g, keyId, seed, signing) && d in g.announced
    ensures Inv(Apply(g, Join(d)), keyId, seed, signing)
  {
    FreshChainTracks(Advance(seed, d.iteration), d.iteration, MessageSeed);
  }

  lemma DeliverKeepsInv(g: Group, keyId: nat, seed: Term, signing: KeyPair, m: SenderKeyMessage)
    requires Inv(g, keyId, seed, signing) && Unforgeable(g, Deliver(m))
    ensures Inv(Apply(g, Deliver(m)), keyId, seed, signing)
  {
    if GroupDecrypt(g.member, m).Ok? {
      assert FindState(g.member, m.keyId) == Some(0);
      var i :| 0 <= i < |g.sent| && g.sent[i] == m;
      MemberAnswers(g, keyId, seed, signing, i);
    }
  }

  lemma StepKeepsInv(g: Group, keyId: nat, seed: Term, signing: KeyPair, step: Step)
    requires Inv(g, keyId, seed, signing) && Unforgeable(g, step)
    ensures Inv(Apply(g, step), keyId, seed, signing)
  {
    match step
    case Send(plaintext) => SendKeepsInv(g, keyId, seed, signing, plaintext);
    case Announce => AnnounceKeepsInv(g, keyId, seed, signing);
    case Join(d) => JoinKeepsInv(g, keyId, seed, signing, d);
    case Deliver(m) => DeliverKeepsInv(g, keyId, seed, signing, m);
  }

  lemma {:induction false} RunKeepsInv(g: Group, keyId: nat, seed: Term, signing: KeyPair, steps: seq<Step>)
    requires Inv(g, keyId, seed, signing) && UnforgeableRun(g, steps)
    ensures Inv(Run(g, steps), keyId, seed, signing)
    decreases |steps|
  {
    if steps != [] {
      StepKeepsInv(g, keyId, seed, signing, steps[0]);
      RunKeepsInv(Apply(g, steps[0]), keyId, seed, signing, steps[1..]);
    }
  }

  /**
   Group chain agreement, in every reachable state: a member answers message i of the sender with exactly
   its plaintext if the first distribution message that reached it was taken at or before i and it has not
   decrypted it yet, and refuses it otherwise.
   */
  lemma {:induction false} EveryMessageOnce(g: Group, keyId: nat, seed: Term, signing: KeyPair, steps: seq<Step>,
                                            i: nat)
    requires Start(g, keyId, seed, signing) && UnforgeableRun(g, steps)
    requires i < |Run(g, steps).sent|
    ensures var now := Run(g, steps);
            && i < |now.plaintexts|
            && match GroupDecrypt(now.member, now.sent[i])
               case Err(e) => Verdict(now, i) == Err(e)
               case Ok((plaintext, _)) => Verdict(now, i) == Ok(plaintext)
  {
    RunKeepsInv(g, keyId, seed, signing, steps);
    MemberAnswers(Run(g, steps), keyId, seed, signing, i);
  }

  /** A later state with a known key id changes no answer: the older state hides it. */
  lemma {:induction false} LaterStateIsHidden(r: SenderKeys, d: DistributionMessage, m: SenderKeyMessage)
    requires FindState(r, m.keyId).Some?
    ensures match GroupDecrypt(r, m)
            case Err(e) => GroupDecrypt(ProcessDistribution(r, d), m) == Err(e)
            case Ok((plaintext, after)) =>
              GroupDecrypt(ProcessDistribution(r, d), m) == Ok((plaintext, ProcessDistribution(after, d)))
  {
    var longer := ProcessDistribution(r, d);
    var i := FindState(r, m.keyId).value;
    assert longer[i] == r[i] && forall k :: 0 <= k < i ==> longer[k] == r[k];
    assert FindState(longer, m.keyId) == Some(i);
    if Open(r[i], m).Ok? {
      var state := r[i].(chain := Open(r[i], m).value.1);
      assert longer[i := state] == ProcessDistribution(r[i := state], d);
    }
  }
}
