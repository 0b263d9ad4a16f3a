/**
 A symmetric ratchet that keeps the keys of messages it skipped. The session
 receiver chain (axolotl/sessioncipher.py) and the group sender chain
 (axolotl/groups/groupcipher.py) are both instances.
 */
module SkippedKeys {
  import opened Wrappers
  import opened Ratchet

  datatype Stored<K> = Stored(index: nat, keys: K)

  datatype Chain<K> = Chain(chainKey: ChainKey, stored: seq<Stored<K>>)

  datatype Outcome<K> =
    | Taken(keys: K, chain: Chain<K>)
    | AlreadyTaken
    | TooFarAhead

  /** The position of the first stored key with the given index. */
  function Find<K>(stored: seq<Stored<K>>, index: nat): (r: Option<nat>)
    ensures r.Some? ==> r.value < |stored| && stored[r.value].index == index
    ensures r.None? ==> forall k :: 0 <= k < |stored| ==> stored[k].index != index
  {
    if stored == [] then None
    else if stored[0].index == index then Some(0)
    else match Find(stored[1..], index)
         case None =>
           assert forall k :: 1 <= k < |stored| ==> stored[k] == stored[1..][k - 1];
           None
         case Some(k) => Some(k + 1)
  }

  lemma {:induction false} FindIsFirst<K>(stored: seq<Stored<K>>, index: nat, i: nat)
    requires i < |stored| && stored[i].index == index
    requires forall k :: 0 <= k < i ==> stored[k].index != index
    ensures Find(stored, index) == Some(i)
  {
    if i > 0 {
      FindIsFirst(stored[1..], index, i - 1);
    }
  }

  /** Store the keys of every message before index and move the chain key there. */
  function SkipTo<K>(c: Chain<K>, index: nat, derive: Term -> K): (r: Chain<K>)
    ensures r.chainKey.index == if index < c.chainKey.index then c.chainKey.index else index
    decreases index - c.chainKey.index
  {
    if c.chainKey.index < index then
      SkipTo(Chain(NextChainKey(c.chainKey), c.stored + [Stored(c.chainKey.index, derive(c.chainKey.key))]), index,
             derive)
    else c
  }

  /** Hand out the keys of message index, once. Without a limit any jump ahead is accepted. */
  function Take<K>(c: Chain<K>, index: nat, limit: Option<nat>, derive: Term -> K): Outcome<K>
  {
    if index < c.chainKey.index then
      match Find(c.stored, index)
      case None => AlreadyTaken
      case Some(k) => Taken(c.stored[k].keys, Chain(c.chainKey, c.stored[..k] + c.stored[k + 1..]))
    else if limit.Some? && index - c.chainKey.index > limit.value then TooFarAhead
    else
      var s := SkipTo(c, index, derive);
      Taken(derive(s.chainKey.key), Chain(NextChainKey(s.chainKey), s.stored))
  }

  /** The keys of message index on the chain that started from seed at position start. */
  function KeysAt<K>(seed: Term, start: nat, index: nat, derive: Term -> K): K
    requires start <= index
  {
    derive(Advance(seed, index - start))
  }

  ghost predicate Holds<K>(stored: seq<Stored<K>>, index: nat)
  {
    exists k :: 0 <= k < |stored| && stored[k].index == index
  }

  /**
   What a chain knows after the keys of exactly the messages in taken were handed out: it sits at
   Advance(seed), its stored indices are distinct, each stored key is the right one, and stored and
   taken partition the messages before its index.
   */
  ghost predicate Tracks<K>(c: Chain<K>, seed: Term, start: nat, taken: set<nat>, derive: Term -> K)
  {
    && start <= c.chainKey.index
    && c.chainKey.key == Advance(seed, c.chainKey.index - start)
    && (forall j, k :: 0 <= j < k < |c.stored| ==> c.stored[j].index != c.stored[k].index)
    && (forall k :: 0 <= k < |c.stored| ==>
          && start <= c.stored[k].index < c.chainKey.index
          && c.stored[k].keys == KeysAt(seed, start, c.stored[k].index, derive))
    && (forall i :: i in taken ==> start <= i < c.chainKey.index)
    && (forall i :: start <= i < c.chainKey.index ==> (i in taken <==> !Holds(c.stored, i)))
  }

  lemma FreshChainTracks<K>(seed: Term, start: nat, derive: Term -> K)
    ensures Tracks(Chain(ChainKey(seed, start), []), seed, start, {}, derive)
  {
  }

  /** Storing the keys at the position of the chain and moving one step on. */
  lemma StoringTracks<K>(c: Chain<K>, seed: Term, start: nat, taken: set<nat>, derive: Term -> K)
    requires Tracks(c, seed, start, taken, derive)
    ensures Tracks(Chain(NextChainKey(c.chainKey), c.stored + [Stored(c.chainKey.index, derive(c.chainKey.key))]),
                   seed, start, taken, derive)
  {
    hide Holds;
    var s := Stored(c.chainKey.index, derive(c.chainKey.key));
    forall i: nat | start <= i <= c.chainKey.index
      ensures i in taken <==> !Holds(c.stored + [s], i)
    {
      HoldsWith(c.stored, s, i);
      NotTakenAhead(c, seed, start, taken, c.chainKey.index, derive);
    }
  }

  lemma HoldsWith<K>(stored: seq<Stored<K>>, s: Stored<K>, i: nat)
    ensures Holds(stored + [s], i) <==> Holds(stored, i) || i == s.index
  {
    if Holds(stored, i) {
      var k :| 0 <= k < |stored| && stored[k].index == i;
      assert (stored + [s])[k].index == i;
    }
    assert (stored + [s])[|stored|] == s;
  }

  lemma {:induction false} SkipToTracks<K>(c: Chain<K>, seed: Term, start: nat, taken: set<nat>, index: nat,
                                           derive: Term -> K)
    requires Tracks(c, seed, start, taken, derive)
    ensures Tracks(SkipTo(c, index, derive), seed, start, taken, derive)
    decreases index - c.chainKey.index
  {
    hide Tracks;
    if c.chainKey.index < index {
      StoringTracks(c, seed, start, taken, derive);
      var s := Stored(c.chainKey.index, derive(c.chainKey.key));
      SkipToTracks(Chain(NextChainKey(c.chainKey), c.stored + [s]), seed, start, taken, index, derive);
    }
  }

  /** Without entry k, exactly its index is no longer held. */
  lemma HoldsWithout<K>(stored: seq<Stored<K>>, k: nat, i: nat)
    requires k < |stored| && forall a, b :: 0 <= a < b < |stored| ==> stored[a].index != stored[b].index
    ensures Holds(stored[..k] + stored[k + 1..], i) <==> Holds(stored, i) && i != stored[k].index
  {
    var rest := stored[..k] + stored[k + 1..];
    if Holds(rest, i) {
      var j :| 0 <= j < |rest| && rest[j].index == i;
      assert stored[if j < k then j else j + 1] == rest[j];
    }
    if Holds(stored, i) && i != stored[k].index {
      var j :| 0 <= j < |stored| && stored[j].index == i;
      assert rest[if j < k then j else j - 1] == stored[j];
    }
  }

  lemma TakeStoredTracks<K>(c: Chain<K>, seed: Term, start: nat, taken: set<nat>, k: nat, derive: Term -> K)
    requires Tracks(c, seed, start, taken, derive) && k < |c.stored|
    ensures Tracks(Chain(c.chainKey, c.stored[..k] + c.stored[k + 1..]), seed, start, taken + {c.stored[k].index},
                   derive)
  {
    hide Holds, KeysAt, Advance;
    var index := c.stored[k].index;
    var rest := c.stored[..k] + c.stored[k + 1..];
    forall i: nat | start <= i < c.chainKey.index
      ensures i in taken + {index} <==> !Holds(rest, i)
    {
      HoldsWithout(c.stored, k, i);
    }
  }

  lemma {:induction false} FoundIsUntaken<K>(c: Chain<K>, seed: Term, start: nat, taken: set<nat>, index: nat,
                                             derive: Term -> K)
    requires Tracks(c, seed, start, taken, derive) && index < c.chainKey.index
    ensures Find(c.stored, index).None? <==> index < start || index in taken
    ensures Find(c.stored, index).Some? ==>
              c.stored[Find(c.stored, index).value].keys == KeysAt(seed, start, index, derive)
  {
    match Find(c.stored, index)
    case None => assert !Holds(c.stored, index);
    case Some(k) => assert Holds(c.stored, index);
  }

  lemma NextTracks<K>(c: Chain<K>, seed: Term, start: nat, taken: set<nat>, derive: Term -> K)
    requires Tracks(c, seed, start, taken, derive)
    ensures start <= c.chainKey.index && c.chainKey.index !in taken
    ensures derive(c.chainKey.key) == KeysAt(seed, start, c.chainKey.index, derive)
    ensures Tracks(Chain(NextChainKey(c.chainKey), c.stored), seed, start, taken + {c.chainKey.index}, derive)
  {
    assert !Holds(c.stored, c.chainKey.index);
  }

  /**
   Which messages a chain accepts depends only on its position and on what it handed out before,
   and an accepted message always gets the key of its own position.
   */
  lemma TakeIsExact<K>(c: Chain<K>, seed: Term, start: nat, taken: set<nat>, index: nat, limit: Option<nat>,
                       derive: Term -> K)
    requires Tracks(c, seed, start, taken, derive)
    ensures Take(c, index, limit, derive).AlreadyTaken? <==> index < start || index in taken
    ensures Take(c, index, limit, derive).TooFarAhead? <==> limit.Some? && index > c.chainKey.index + limit.value
    ensures Take(c, index, limit, derive).Taken? ==>
              var r := Take(c, index, limit, derive);
              && start <= index
              && r.keys == KeysAt(seed, start, index, derive)
              && Tracks(r.chain, seed, start, taken + {index}, derive)
  {
    hide KeysAt, Tracks;
    if index < c.chainKey.index {
      FoundIsUntaken(c, seed, start, taken, index, derive);
      if Find(c.stored, index).Some? {
        TakeStoredTracks(c, seed, start, taken, Find(c.stored, index).value, derive);
        StoredIsLater(c, seed, start, taken, Find(c.stored, index).value, derive);
      }
    } else {
      NextTracks(c, seed, start, taken, derive);
      NotTakenAhead(c, seed, start, taken, index, derive);
      SkipToTracks(c, seed, start, taken, index, derive);
      NextTracks(SkipTo(c, index, derive), seed, start, taken, derive);
    }
  }

  lemma StoredIsLater<K>(c: Chain<K>, seed: Term, start: nat, taken: set<nat>, k: nat, derive: Term -> K)
    requires Tracks(c, seed, start, taken, derive) && k < |c.stored|
    ensures start <= c.stored[k].index < c.chainKey.index
  {
  }

  lemma NotTakenAhead<K>(c: Chain<K>, seed: Term, start: nat, taken: set<nat>, index: nat, derive: Term -> K)
    requires Tracks(c, seed, start, taken, derive) && c.chainKey.index <= index
    ensures start <= index && index !in taken
  {
  }

  /** Stored indices are distinct and lie behind the position of the chain. */
  predicate Tidy<K>(c: Chain<K>)
  {
    && (forall j, k :: 0 <= j < k < |c.stored| ==> c.stored[j].index != c.stored[k].index)
    && (forall k :: 0 <= k < |c.stored| ==> c.stored[k].index < c.chainKey.index)
  }

  lemma {:induction false} SkipToIsTidy<K>(c: Chain<K>, index: nat, derive: Term -> K)
    requires Tidy(c)
    ensures Tidy(SkipTo(c, index, derive))
    decreases index - c.chainKey.index
  {
    if c.chainKey.index < index {
      var s := Stored(c.chainKey.index, derive(c.chainKey.key));
      SkipToIsTidy(Chain(NextChainKey(c.chainKey), c.stored + [s]), index, derive);
    }
  }

  lemma WithoutEntryIsTidy<K>(c: Chain<K>, k: nat)
    requires Tidy(c) && k < |c.stored|
    ensures var rest := Chain(c.chainKey, c.stored[..k] + c.stored[k + 1..]);
            Tidy(rest) && Find(rest.stored, c.stored[k].index).None?
  {
  }

  lemma NextIsTidy<K>(c: Chain<K>)
    requires Tidy(c)
    ensures Tidy(Chain(NextChainKey(c.chainKey), c.stored)) && Find(c.stored, c.chainKey.index).None?
  {
  }

  /** A granted request leaves a tidy chain, which refuses the same index from then on. */
  lemma TakeIsTidy<K>(c: Chain<K>, index: nat, limit: Option<nat>, derive: Term -> K)
    requires Tidy(c) && Take(c, index, limit, derive).Taken?
    ensures Tidy(Take(c, index, limit, derive).chain)
    ensures Take(Take(c, index, limit, derive).chain, index, limit, derive).AlreadyTaken?
  {
    if index < c.chainKey.index {
      WithoutEntryIsTidy(c, Find(c.stored, index).value);
    } else {
      SkipToIsTidy(c, index, derive);
      NextIsTidy(SkipTo(c, index, derive));
    }
    hide Tidy, SkipTo;
  }

  // ----- whole runs -----

  /** The chain after a sequence of requests; refused requests leave it as it was. */
  function Run<K>(c: Chain<K>, requests: seq<nat>, limit: Option<nat>, derive: Term -> K): Chain<K>
  {
    if requests == [] then c
    else
      var before := Run(c, requests[..|requests| - 1], limit, derive);
      match Take(before, requests[|requests| - 1], limit, derive)
      case Taken(_, after) => after
      case _ => before
  }

  /** The answer to request number i. */
  function Answer<K>(c: Chain<K>, requests: seq<nat>, i: nat, limit: Option<nat>, derive: Term -> K): Outcome<K>
    requires i < |requests|
  {
    Take(Run(c, requests[..i], limit, derive), requests[i], limit, derive)
  }

  /** The indices handed out over a run. */
  function HandedOut<K>(c: Chain<K>, requests: seq<nat>, limit: Option<nat>, derive: Term -> K): set<nat>
  {
    if requests == [] then {}
    else
      var n := |requests| - 1;
      HandedOut(c, requests[..n], limit, derive)
      + if Answer(c, requests, n, limit, derive).Taken? then {requests[n]} else {}
  }

  ghost predicate HandedBefore<K>(c: Chain<K>, requests: seq<nat>, n: nat, index: nat, limit: Option<nat>,
                                  derive: Term -> K)
    requires n <= |requests|
  {
    exists j :: 0 <= j < n && requests[j] == index && Answer(c, requests, j, limit, derive).Taken?
  }

  lemma {:induction false} HandedOutIsHistory<K>(c: Chain<K>, requests: seq<nat>, n: nat, index: nat,
                                                 limit: Option<nat>, derive: Term -> K)
    requires n <= |requests|
    ensures index in HandedOut(c, requests[..n], limit, derive) <==> HandedBefore(c, requests, n, index, limit, derive)
  {
    if n > 0 {
      HandedOutIsHistory(c, requests, n - 1, index, limit, derive);
      assert requests[..n][..n - 1] == requests[..n - 1];
    }
  }

  /** Skipped-key exactness, over every run: the chain knows precisely what it handed out. */
  lemma {:induction false} RunTracks<K>(seed: Term, start: nat, requests: seq<nat>, limit: Option<nat>,
                                        derive: Term -> K)
    ensures var c := Chain(ChainKey(seed, start), []);
            Tracks(Run(c, requests, limit, derive), seed, start, HandedOut(c, requests, limit, derive), derive)
  {
    var c := Chain<K>.Chain(ChainKey(seed, start), []);
    if requests == [] {
      FreshChainTracks(seed, start, derive);
    } else {
      var n := |requests| - 1;
      var earlier := requests[..n];
      RunTracks(seed, start, earlier, limit, derive);
      TakeIsExact(Run(c, earlier, limit, derive), seed, start, HandedOut(c, earlier, limit, derive), requests[n],
                  limit, derive);
    }
  }

  /**
   Over any run from a new chain: a request is refused as a duplicate exactly when its index was
   handed out before or lies below the start, and every key handed out is the one of its own index,
   which was not handed out before.
   */
  lemma EachKeyOnce<K>(seed: Term, start: nat, requests: seq<nat>, i: nat, limit: Option<nat>, derive: Term -> K)
    requires i < |requests|
    ensures var c := Chain(ChainKey(seed, start), []);
            var answer := Answer(c, requests, i, limit, derive);
            var before := HandedBefore(c, requests, i, requests[i], limit, derive);
            && (answer.AlreadyTaken? <==> requests[i] < start || before)
            && (answer.Taken? ==>
                  start <= requests[i] && !before && answer.keys == KeysAt(seed, start, requests[i], derive))
  {
    var c := Chain<K>.Chain(ChainKey(seed, start), []);
    RunTracks(seed, start, requests[..i], limit, derive);
    HandedOutIsHistory(c, requests, i, requests[i], limit, derive);
    TakeIsExact(Run(c, requests[..i], limit, derive), seed, start, HandedOut(c, requests[..i], limit, derive),
                requests[i], limit, derive);
  }
}
