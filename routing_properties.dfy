/**
 * What the replication-factor response handler guarantees, proved about its
 * specification `Handle` (which `RoutingThread.ReplicationResponseHandler`
 * implements exactly).
 */
module RoutingProperties {
  import opened ReplicationResponse

  // ---------------------------------------------------------------------------
  // Tier-by-tier writes: last occurrence wins, unlisted tiers are kept
  // ---------------------------------------------------------------------------

  /** A tier written by `vs` ends with the count of its last occurrence. */
  lemma {:induction false} ApplyCountsLastWins(m: map<Tier, nat>, vs: seq<ReplicationValue>, i: int)
    requires IsLastFor(vs, i)
    ensures vs[i].tier in ApplyCounts(m, vs)
    ensures ApplyCounts(m, vs)[vs[i].tier] == vs[i].value
    decreases |vs|
  {
    var n := |vs| - 1;
    if i < n {
      var prefix := vs[..n];
      assert prefix[i] == vs[i];
      assert IsLastFor(prefix, i) by {
        forall j | i < j < |prefix| ensures prefix[j].tier != prefix[i].tier {
          assert prefix[j] == vs[j];
        }
      }
      ApplyCountsLastWins(m, prefix, i);
      assert vs[n].tier != vs[i].tier;
    }
  }

  /** A tier that `vs` never names keeps its presence and count. */
  lemma {:induction false} ApplyCountsUnlisted(m: map<Tier, nat>, vs: seq<ReplicationValue>, t: Tier)
    requires !Listed(vs, t)
    ensures t in ApplyCounts(m, vs) <==> t in m
    ensures t in m ==> ApplyCounts(m, vs)[t] == m[t]
    decreases |vs|
  {
    if vs != [] {
      var n := |vs| - 1;
      var prefix := vs[..n];
      assert !Listed(prefix, t) by {
        forall i | 0 <= i < |prefix| ensures prefix[i].tier != t {
          assert prefix[i] == vs[i];
        }
      }
      ApplyCountsUnlisted(m, prefix, t);
      assert vs[n].tier != t;
    }
  }

  /** A listed tier has a last occurrence. */
  lemma {:induction false} LastOccurrence(vs: seq<ReplicationValue>, t: Tier) returns (i: int)
    requires Listed(vs, t)
    ensures IsLastFor(vs, i) && vs[i].tier == t
    decreases |vs|
  {
    var n := |vs| - 1;
    if vs[n].tier == t {
      i := n;
    } else {
      var prefix := vs[..n];
      assert Listed(prefix, t) by {
        var k :| 0 <= k < |vs| && vs[k].tier == t;
        assert k < n && prefix[k] == vs[k];
      }
      i := LastOccurrence(prefix, t);
      assert prefix[i] == vs[i];
      forall j | i < j < |vs| ensures vs[j].tier != vs[i].tier {
        if j < n { assert prefix[j] == vs[j]; }
      }
    }
  }

  /** Writing the same counts twice is the same as writing them once. */
  lemma ApplyCountsIdempotent(m: map<Tier, nat>, vs: seq<ReplicationValue>)
    ensures ApplyCounts(ApplyCounts(m, vs), vs) == ApplyCounts(m, vs)
  {
    var once := ApplyCounts(m, vs);
    var twice := ApplyCounts(once, vs);
    forall t
      ensures (t in twice <==> t in once) && (t in once ==> twice[t] == once[t])
    {
      if Listed(vs, t) {
        var i := LastOccurrence(vs, t);
        ApplyCountsLastWins(m, vs, i);
        ApplyCountsLastWins(once, vs, i);
      } else {
        ApplyCountsUnlisted(once, vs, t);
      }
    }
  }

  // ---------------------------------------------------------------------------
  // The error-code dispatch
  // ---------------------------------------------------------------------------

  /**
   * NO_ERROR writes the listed counts into the key's entry, last occurrence
   * winning, keeps every tier the message does not list, creates the entry only
   * if some count is written, and touches no other key.
   */
  lemma NoErrorCacheUpdate(
    st: RouterState, respondAddress: Address, tuple: KeyTuple, tiers: seq<Tier>,
    defaultReplication: KeyReplication, lookup: RingLookup)
    requires tuple.error == NoError
    ensures var cache := Handle(st, respondAddress, tuple, tiers, defaultReplication, lookup).keyReplicationMap;
      && (tuple.key in cache <==> tuple.key in st.keyReplicationMap || tuple.global != [] || tuple.local != [])
      && (forall k :: k != tuple.key ==>
            (k in cache <==> k in st.keyReplicationMap) &&
            (k in cache ==> cache[k] == st.keyReplicationMap[k]))
    ensures var cache := Handle(st, respondAddress, tuple, tiers, defaultReplication, lookup).keyReplicationMap;
      var base := EntryOrEmpty(st.keyReplicationMap, tuple.key);
      tuple.key in cache ==>
        && (forall i :: IsLastFor(tuple.global, i) ==>
              tuple.global[i].tier in cache[tuple.key].globalReplication &&
              cache[tuple.key].globalReplication[tuple.global[i].tier] == tuple.global[i].value)
        && (forall i :: IsLastFor(tuple.local, i) ==>
              tuple.local[i].tier in cache[tuple.key].localReplication &&
              cache[tuple.key].localReplication[tuple.local[i].tier] == tuple.local[i].value)
        && (forall t :: !Listed(tuple.global, t) ==>
              (t in cache[tuple.key].globalReplication <==> t in base.globalReplication) &&
              (t in base.globalReplication ==> cache[tuple.key].globalReplication[t] == base.globalReplication[t]))
        && (forall t :: !Listed(tuple.local, t) ==>
              (t in cache[tuple.key].localReplication <==> t in base.localReplication) &&
              (t in base.localReplication ==> cache[tuple.key].localReplication[t] == base.localReplication[t]))
  {
    var cache := Handle(st, respondAddress, tuple, tiers, defaultReplication, lookup).keyReplicationMap;
    assert cache == ApplyReplicationFactor(st.keyReplicationMap, tuple.key, tuple.global, tuple.local);
    var base := EntryOrEmpty(st.keyReplicationMap, tuple.key);
    if tuple.key in cache {
      assert cache[tuple.key] == KeyReplication(
        ApplyCounts(base.globalReplication, tuple.global),
        ApplyCounts(base.localReplication, tuple.local)) by {
        if tuple.global == [] && tuple.local == [] {
          assert cache[tuple.key] == base;
        }
      }
      forall i | IsLastFor(tuple.global, i)
        ensures tuple.global[i].tier in cache[tuple.key].globalReplication
        ensures cache[tuple.key].globalReplication[tuple.global[i].tier] == tuple.global[i].value
      {
        ApplyCountsLastWins(base.globalReplication, tuple.global, i);
      }
      forall i | IsLastFor(tuple.local, i)
        ensures tuple.local[i].tier in cache[tuple.key].localReplication
        ensures cache[tuple.key].localReplication[tuple.local[i].tier] == tuple.local[i].value
      {
        ApplyCountsLastWins(base.localReplication, tuple.local, i);
      }
      forall t | !Listed(tuple.global, t)
        ensures t in cache[tuple.key].globalReplication <==> t in base.globalReplication
        ensures t in base.globalReplication ==> cache[tuple.key].globalReplication[t] == base.globalReplication[t]
      {
        ApplyCountsUnlisted(base.globalReplication, tuple.global, t);
      }
      forall t | !Listed(tuple.local, t)
        ensures t in cache[tuple.key].localReplication <==> t in base.localReplication
        ensures t in base.localReplication ==> cache[tuple.key].localReplication[t] == base.localReplication[t]
      {
        ApplyCountsUnlisted(base.localReplication, tuple.local, t);
      }
    }
  }

  /**
   * NO_ERROR does not replace the entry wholesale: a cached DISK count survives
   * a response that lists only MEMORY.
   */
  lemma NoErrorKeepsUnlistedTier(respondAddress: Address, tiers: seq<Tier>,
                                 defaultReplication: KeyReplication, lookup: RingLookup)
    ensures var st := RouterState(map["k" := KeyReplication(map[Memory := 1, Disk := 3], map[])], map[], []);
      var tuple := KeyTuple("k", NoError, [ReplicationValue(Memory, 2)], []);
      Handle(st, respondAddress, tuple, tiers, defaultReplication, lookup).keyReplicationMap
      == map["k" := KeyReplication(map[Memory := 2, Disk := 3], map[])]
  {
    var vs := [ReplicationValue(Memory, 2)];
    assert vs[..0] == [];
    assert ApplyCounts(map[], []) == map[];
    assert map[Memory := 1, Disk := 3][Memory := 2] == map[Memory := 2, Disk := 3];
  }

  /** KEY_DNE sets the key's entry to the default and touches no other key. */
  lemma KeyDneCacheUpdate(
    st: RouterState, respondAddress: Address, tuple: KeyTuple, tiers: seq<Tier>,
    defaultReplication: KeyReplication, lookup: RingLookup)
    requires tuple.error == KeyDne
    ensures Handle(st, respondAddress, tuple, tiers, defaultReplication, lookup).keyReplicationMap
         == st.keyReplicationMap[tuple.key := defaultReplication]
  {
  }

  /**
   * WRONG_THREAD issues exactly one replication-factor request for the key,
   * on the MEMORY rings, answering to the thread's own response address, and
   * changes neither the cache nor the pending requests.
   */
  lemma WrongThreadReissues(
    st: RouterState, respondAddress: Address, tuple: KeyTuple, tiers: seq<Tier>,
    defaultReplication: KeyReplication, lookup: RingLookup)
    requires tuple.error == WrongThread
    ensures var r := Handle(st, respondAddress, tuple, tiers, defaultReplication, lookup);
      && r.keyReplicationMap == st.keyReplicationMap
      && r.pendingRequests == st.pendingRequests
      && r.outbox == st.outbox + [ReplicationFactorRequest(respondAddress, tuple.key, Memory, Memory)]
  {
  }

  /** Any other error code changes nothing at all. */
  lemma UnexpectedErrorIsDropped(
    st: RouterState, respondAddress: Address, tuple: KeyTuple, tiers: seq<Tier>,
    defaultReplication: KeyReplication, lookup: RingLookup)
    requires tuple.error.Other?
    ensures Handle(st, respondAddress, tuple, tiers, defaultReplication, lookup) == st
  {
  }

  /** Handling the same response twice leaves the same cache as handling it once. */
  lemma HandleCacheIdempotent(
    st: RouterState, respondAddress: Address, tuple: KeyTuple, tiers: seq<Tier>,
    defaultReplication: KeyReplication, lookup: RingLookup)
    ensures var once := Handle(st, respondAddress, tuple, tiers, defaultReplication, lookup);
      Handle(once, respondAddress, tuple, tiers, defaultReplication, lookup).keyReplicationMap
      == once.keyReplicationMap
  {
    if tuple.error == NoError && (tuple.global != [] || tuple.local != []) {
      var base := EntryOrEmpty(st.keyReplicationMap, tuple.key);
      ApplyCountsIdempotent(base.globalReplication, tuple.global);
      ApplyCountsIdempotent(base.localReplication, tuple.local);
    }
  }

  // ---------------------------------------------------------------------------
  // Tier-ordered thread selection
  // ---------------------------------------------------------------------------

  /**
   * The selection returns the threads of the first tier that yields any, fails
   * exactly when some tier fails before one yields threads, and returns the
   * empty list exactly when every tier succeeds without threads.
   */
  lemma {:induction false} SelectThreadsSpec(
    lookup: RingLookup, cache: map<Key, KeyReplication>, key: Key, tiers: seq<Tier>)
    ensures forall i :: FirstNonEmpty(lookup, cache, key, tiers, i) ==>
      SelectThreads(lookup, cache, key, tiers) == Selected(lookup(cache, key, tiers[i]).threads)
    ensures SelectThreads(lookup, cache, key, tiers) == Failed <==>
      exists i :: FirstFailure(lookup, cache, key, tiers, i)
    ensures SelectThreads(lookup, cache, key, tiers) == Selected([]) <==>
      TiersPassed(lookup, cache, key, tiers, |tiers|)
    ensures SelectThreads(lookup, cache, key, tiers).Selected? &&
            SelectThreads(lookup, cache, key, tiers).threads != [] <==>
      exists i :: FirstNonEmpty(lookup, cache, key, tiers, i)
    decreases |tiers|
  {
    if tiers != [] {
      var rest := tiers[1..];
      SelectThreadsSpec(lookup, cache, key, rest);
      var found := lookup(cache, key, tiers[0]);
      // Index i + 1 in tiers is index i in rest, once tier 0 passed.
      if Passed(found) {
        forall n | 0 <= n <= |rest|
          ensures TiersPassed(lookup, cache, key, tiers, n + 1) <==> TiersPassed(lookup, cache, key, rest, n)
        {
          if TiersPassed(lookup, cache, key, rest, n) {
            forall j | 0 <= j < n + 1 ensures Passed(lookup(cache, key, tiers[j])) {
              if j > 0 { assert tiers[j] == rest[j - 1]; }
            }
          }
          if TiersPassed(lookup, cache, key, tiers, n + 1) {
            forall j | 0 <= j < n ensures Passed(lookup(cache, key, rest[j])) {
              assert rest[j] == tiers[j + 1];
            }
          }
        }
        forall i | FirstNonEmpty(lookup, cache, key, tiers, i)
          ensures i > 0 && FirstNonEmpty(lookup, cache, key, rest, i - 1)
        {
          assert tiers[i] == rest[i - 1];
        }
        forall i | FirstNonEmpty(lookup, cache, key, rest, i)
          ensures FirstNonEmpty(lookup, cache, key, tiers, i + 1)
        {
          assert tiers[i + 1] == rest[i];
        }
        forall i | FirstFailure(lookup, cache, key, tiers, i)
          ensures i > 0 && FirstFailure(lookup, cache, key, rest, i - 1)
        {
          assert tiers[i] == rest[i - 1];
        }
        forall i | FirstFailure(lookup, cache, key, rest, i)
          ensures FirstFailure(lookup, cache, key, tiers, i + 1)
        {
          assert tiers[i + 1] == rest[i];
        }
      } else {
        assert !TiersPassed(lookup, cache, key, tiers, |tiers|) by {
          assert !Passed(lookup(cache, key, tiers[0]));
        }
        forall i | 0 < i < |tiers| ensures !TiersPassed(lookup, cache, key, tiers, i) {
          assert !Passed(lookup(cache, key, tiers[0]));
        }
        if |found.threads| > 0 {
          assert FirstNonEmpty(lookup, cache, key, tiers, 0);
        } else {
          assert FirstFailure(lookup, cache, key, tiers, 0);
        }
      }
    }
  }

  // ---------------------------------------------------------------------------
  // The drain step
  // ---------------------------------------------------------------------------

  /** With no pending entry for the key, nothing is sent and the queue is unchanged. */
  lemma NoPendingNoReply(
    st: RouterState, respondAddress: Address, tuple: KeyTuple, tiers: seq<Tier>,
    defaultReplication: KeyReplication, lookup: RingLookup)
    requires tuple.error == NoError || tuple.error == KeyDne
    requires tuple.key !in st.pendingRequests
    ensures var r := Handle(st, respondAddress, tuple, tiers, defaultReplication, lookup);
      r.pendingRequests == st.pendingRequests && r.outbox == st.outbox
  {
  }

  /**
   * When a tier lookup fails before any tier yields threads, nothing is sent
   * and the key's buffered requests stay pending.
   */
  lemma TierFailureKeepsPending(
    st: RouterState, respondAddress: Address, tuple: KeyTuple, tiers: seq<Tier>,
    defaultReplication: KeyReplication, lookup: RingLookup, i: int)
    requires tuple.error == NoError || tuple.error == KeyDne
    requires FirstFailure(lookup, ResolvedCache(st.keyReplicationMap, tuple, defaultReplication), tuple.key, tiers, i)
    ensures var r := Handle(st, respondAddress, tuple, tiers, defaultReplication, lookup);
      r.pendingRequests == st.pendingRequests && r.outbox == st.outbox
  {
    SelectThreadsSpec(lookup, ResolvedCache(st.keyReplicationMap, tuple, defaultReplication), tuple.key, tiers);
  }

  /**
   * A drain that selects `threads` sends one response per buffered request, in
   * queue order, each to that requester, with its request id and the selected
   * threads' key-request addresses in thread order; then the key's queue is
   * gone and every other key's queue is untouched.
   */
  lemma DrainAnswersEveryRequester(
    st: RouterState, respondAddress: Address, tuple: KeyTuple, tiers: seq<Tier>,
    defaultReplication: KeyReplication, lookup: RingLookup, threads: seq<ServerThread>)
    requires tuple.error == NoError || tuple.error == KeyDne
    requires tuple.key in st.pendingRequests
    requires SelectThreads(lookup, ResolvedCache(st.keyReplicationMap, tuple, defaultReplication), tuple.key, tiers)
          == Selected(threads)
    ensures var r := Handle(st, respondAddress, tuple, tiers, defaultReplication, lookup);
      var requests := st.pendingRequests[tuple.key];
      && |r.outbox| == |st.outbox| + |requests|
      && r.outbox[..|st.outbox|] == st.outbox
      && (forall j :: 0 <= j < |requests| ==>
            var m := r.outbox[|st.outbox| + j];
            && m.KeyAddressResponse?
            && m.destination == requests[j].requester
            && m.responseId == requests[j].requestId
            && m.key == tuple.key
            && |m.ips| == |threads|
            && (forall k :: 0 <= k < |threads| ==> m.ips[k] == threads[k].keyRequestConnectAddress))
      && tuple.key !in r.pendingRequests
      && (forall k :: k != tuple.key ==>
            (k in r.pendingRequests <==> k in st.pendingRequests) &&
            (k in st.pendingRequests ==> r.pendingRequests[k] == st.pendingRequests[k]))
  {
  }

  /**
   * When every tier succeeds without threads, the buffered requesters are still
   * answered, with empty address lists, and the key's queue is erased.
   */
  lemma AllTiersEmptyStillDrains(
    st: RouterState, respondAddress: Address, tuple: KeyTuple, tiers: seq<Tier>,
    defaultReplication: KeyReplication, lookup: RingLookup)
    requires tuple.error == NoError || tuple.error == KeyDne
    requires tuple.key in st.pendingRequests
    requires TiersPassed(lookup, ResolvedCache(st.keyReplicationMap, tuple, defaultReplication), tuple.key, tiers, |tiers|)
    ensures var r := Handle(st, respondAddress, tuple, tiers, defaultReplication, lookup);
      && r.outbox == st.outbox + Replies(st.pendingRequests[tuple.key], tuple.key, [])
      && r.pendingRequests == st.pendingRequests - {tuple.key}
  {
    SelectThreadsSpec(lookup, ResolvedCache(st.keyReplicationMap, tuple, defaultReplication), tuple.key, tiers);
    assert KeyRequestAddresses([]) == [];
  }

  /** `m` is a response to `request`, a buffered lookup of `key`. */
  ghost predicate AnswersRequest(m: Outgoing, key: Key, request: PendingRequest)
  {
    m.KeyAddressResponse? && m.destination == request.requester
    && m.responseId == request.requestId && m.key == key
  }

  /** Some message of `outbox` from position `from` on answers `request`. */
  ghost predicate Answered(outbox: seq<Outgoing>, from: int, key: Key, request: PendingRequest)
  {
    exists n :: 0 <= from <= n < |outbox| && AnswersRequest(outbox[n], key, request)
  }

  /**
   * The handler never adds or alters a pending queue, and it removes one only
   * after sending a response to every requester buffered in it.
   */
  lemma NeverDropsRequesters(
    st: RouterState, respondAddress: Address, tuple: KeyTuple, tiers: seq<Tier>,
    defaultReplication: KeyReplication, lookup: RingLookup)
    ensures var r := Handle(st, respondAddress, tuple, tiers, defaultReplication, lookup);
      && r.pendingRequests.Keys <= st.pendingRequests.Keys
      && (forall k :: k in r.pendingRequests ==> r.pendingRequests[k] == st.pendingRequests[k])
      && (forall k, j :: k in st.pendingRequests && k !in r.pendingRequests && 0 <= j < |st.pendingRequests[k]| ==>
            Answered(r.outbox, |st.outbox|, k, st.pendingRequests[k][j]))
  {
    var r := Handle(st, respondAddress, tuple, tiers, defaultReplication, lookup);
    var cache := ResolvedCache(st.keyReplicationMap, tuple, defaultReplication);
    if (tuple.error == NoError || tuple.error == KeyDne) && tuple.key in st.pendingRequests {
      var selection := SelectThreads(lookup, cache, tuple.key, tiers);
      if selection.Selected? {
        DrainAnswersEveryRequester(st, respondAddress, tuple, tiers, defaultReplication, lookup, selection.threads);
        forall k, j | k in st.pendingRequests && k !in r.pendingRequests && 0 <= j < |st.pendingRequests[k]|
          ensures Answered(r.outbox, |st.outbox|, k, st.pendingRequests[k][j])
        {
          assert k == tuple.key;
          var n := |st.outbox| + j;
          assert AnswersRequest(r.outbox[n], k, st.pendingRequests[k][j]);
        }
      }
    }
  }
}
