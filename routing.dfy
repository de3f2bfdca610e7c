/**
 * The replication-factor response handler of a routing thread.
 *
 * A routing thread caches, per key, how many replicas each storage tier keeps
 * (`keyReplicationMap`) and buffers address lookups for keys whose replication
 * factor is not known yet (`pendingRequests`). When the answer to a
 * replication-factor query arrives, the handler updates the cache (or re-issues
 * the query, or drops the message), resolves the responsible server threads
 * tier by tier and answers every buffered requester of that key.
 *
 * Sends are modelled as appending to `outbox`; the hash-ring lookup is the
 * opaque parameter `lookup`; the default replication factor is a parameter.
 */
module ReplicationResponse {

  type Key = string
  type Address = string
  type RequestId = string

  /** Storage tiers; each tier has its own global and local hash ring. */
  datatype Tier = Memory | Disk | Routing

  /** The error code carried by the single tuple of a response. */
  datatype AnnaError = NoError | KeyDne | WrongThread | Other(code: int)

  /** One `(tier, count)` entry of a decoded replication factor. */
  datatype ReplicationValue = ReplicationValue(tier: Tier, value: nat)

  /** The single tuple of a replication-factor response, already decoded. */
  datatype KeyTuple = KeyTuple(
    key: Key,
    error: AnnaError,
    global: seq<ReplicationValue>,
    local: seq<ReplicationValue>)

  /** A cached replication factor: per-tier global and local replica counts. */
  datatype KeyReplication = KeyReplication(
    globalReplication: map<Tier, nat>,
    localReplication: map<Tier, nat>)

  /** What `key_replication_map[key]` default-constructs for a missing key. */
  const EmptyReplication := KeyReplication(map[], map[])

  /** A server thread; only the address key requests are sent to matters here. */
  datatype ServerThread = ServerThread(keyRequestConnectAddress: Address)

  /** The result of one responsible-thread lookup: the threads and the success flag. */
  datatype ThreadLookup = ThreadLookup(threads: seq<ServerThread>, succeed: bool)

  /** The hash-ring query, consulted with the updated cache, the key and one tier. */
  type RingLookup = (map<Key, KeyReplication>, Key, Tier) -> ThreadLookup

  /** A buffered address lookup: who asked and under which request id. */
  datatype PendingRequest = PendingRequest(requester: Address, requestId: RequestId)

  /** Messages the handler sends. */
  datatype Outgoing =
    | ReplicationFactorRequest(respondAddress: Address, key: Key, globalRing: Tier, localRing: Tier)
    | KeyAddressResponse(destination: Address, responseId: RequestId, key: Key, ips: seq<Address>)

  /** The state the handler owns, as a value. */
  datatype RouterState = RouterState(
    keyReplicationMap: map<Key, KeyReplication>,
    pendingRequests: map<Key, seq<PendingRequest>>,
    outbox: seq<Outgoing>)

  /** Outcome of the tier-ordered thread selection. */
  datatype ThreadSelection = Failed | Selected(threads: seq<ServerThread>)

  function EntryOrEmpty(cache: map<Key, KeyReplication>, key: Key): KeyReplication
  {
    if key in cache then cache[key] else EmptyReplication
  }

  // ---------------------------------------------------------------------------
  // Tier-by-tier count updates
  // ---------------------------------------------------------------------------

  /** Writes each `(tier, count)` of `vs` into `m`, first to last. */
  function ApplyCounts(m: map<Tier, nat>, vs: seq<ReplicationValue>): map<Tier, nat>
    decreases |vs|
  {
    if vs == [] then m
    else ApplyCounts(m, vs[..|vs| - 1])[vs[|vs| - 1].tier := vs[|vs| - 1].value]
  }

  /** Some entry of `vs` names tier `t`. */
  ghost predicate Listed(vs: seq<ReplicationValue>, t: Tier)
  {
    exists i :: 0 <= i < |vs| && vs[i].tier == t
  }

  /** `vs[i]` is the last entry of `vs` that names its tier. */
  ghost predicate IsLastFor(vs: seq<ReplicationValue>, i: int)
  {
    0 <= i < |vs| && forall j :: i < j < |vs| ==> vs[j].tier != vs[i].tier
  }

  /**
   * The cache after the two NO_ERROR loops: an entry is touched (and created if
   * missing) only if at least one count is written.
   */
  function ApplyReplicationFactor(
    cache: map<Key, KeyReplication>, key: Key,
    global: seq<ReplicationValue>, local: seq<ReplicationValue>): map<Key, KeyReplication>
  {
    if global == [] && local == [] then cache
    else
      var base := EntryOrEmpty(cache, key);
      cache[key := KeyReplication(
        ApplyCounts(base.globalReplication, global),
        ApplyCounts(base.localReplication, local))]
  }

  /** The cache after the error-code dispatch, for every error code. */
  function ResolvedCache(
    cache: map<Key, KeyReplication>, tuple: KeyTuple, defaultReplication: KeyReplication): map<Key, KeyReplication>
  {
    match tuple.error
    case NoError => ApplyReplicationFactor(cache, tuple.key, tuple.global, tuple.local)
    case KeyDne => cache[tuple.key := defaultReplication]
    case _ => cache
  }

  // ---------------------------------------------------------------------------
  // Draining the pending requests of a key
  // ---------------------------------------------------------------------------

  /** Tries the tiers in order; stops at the first non-empty list or the first failure. */
  function SelectThreads(
    lookup: RingLookup, cache: map<Key, KeyReplication>, key: Key, tiers: seq<Tier>): ThreadSelection
    decreases |tiers|
  {
    if tiers == [] then Selected([])
    else
      var found := lookup(cache, key, tiers[0]);
      if |found.threads| > 0 then Selected(found.threads)
      else if !found.succeed then Failed
      else SelectThreads(lookup, cache, key, tiers[1..])
  }

  /** A tier that yielded no thread but reported success: selection moves on. */
  predicate Passed(found: ThreadLookup)
  {
    found.threads == [] && found.succeed
  }

  /** The first `n` tiers all passed. */
  ghost predicate TiersPassed(
    lookup: RingLookup, cache: map<Key, KeyReplication>, key: Key, tiers: seq<Tier>, n: int)
  {
    n <= |tiers| && forall j :: 0 <= j < n ==> Passed(lookup(cache, key, tiers[j]))
  }

  /** Tier `i` is the first one that yielded threads. */
  ghost predicate FirstNonEmpty(
    lookup: RingLookup, cache: map<Key, KeyReplication>, key: Key, tiers: seq<Tier>, i: int)
  {
    0 <= i < |tiers| && TiersPassed(lookup, cache, key, tiers, i)
    && |lookup(cache, key, tiers[i]).threads| > 0
  }

  /** Tier `i` is the first one that failed without yielding threads. */
  ghost predicate FirstFailure(
    lookup: RingLookup, cache: map<Key, KeyReplication>, key: Key, tiers: seq<Tier>, i: int)
  {
    0 <= i < |tiers| && TiersPassed(lookup, cache, key, tiers, i)
    && lookup(cache, key, tiers[i]).threads == [] && !lookup(cache, key, tiers[i]).succeed
  }

  /** The key-request addresses of the threads, in thread order. */
  function KeyRequestAddresses(threads: seq<ServerThread>): seq<Address>
  {
    seq(|threads|, i requires 0 <= i < |threads| => threads[i].keyRequestConnectAddress)
  }

  /** One response per buffered request, in queue order, all with the same addresses. */
  function Replies(requests: seq<PendingRequest>, key: Key, ips: seq<Address>): seq<Outgoing>
  {
    seq(|requests|, j requires 0 <= j < |requests| =>
      KeyAddressResponse(requests[j].requester, requests[j].requestId, key, ips))
  }

  /** The drain step: answer and erase the key's pending requests if threads were selected. */
  function Drain(st: RouterState, key: Key, tiers: seq<Tier>, lookup: RingLookup): RouterState
  {
    if key !in st.pendingRequests then st
    else
      match SelectThreads(lookup, st.keyReplicationMap, key, tiers)
      case Failed => st
      case Selected(threads) =>
        st.(outbox := st.outbox + Replies(st.pendingRequests[key], key, KeyRequestAddresses(threads)),
            pendingRequests := st.pendingRequests - {key})
  }

  /** The whole handler on a state value. */
  function Handle(
    st: RouterState, respondAddress: Address, tuple: KeyTuple, tiers: seq<Tier>,
    defaultReplication: KeyReplication, lookup: RingLookup): RouterState
  {
    match tuple.error
    case WrongThread =>
      st.(outbox := st.outbox + [ReplicationFactorRequest(respondAddress, tuple.key, Memory, Memory)])
    case Other(_) => st
    case _ =>
      Drain(st.(keyReplicationMap := ResolvedCache(st.keyReplicationMap, tuple, defaultReplication)),
            tuple.key, tiers, lookup)
  }

  // ---------------------------------------------------------------------------
  // The routing thread
  // ---------------------------------------------------------------------------

  class RoutingThread {
    /** Where answers to this thread's replication-factor queries are sent. */
    const replicationResponseAddress: Address
    var keyReplicationMap: map<Key, KeyReplication>
    var pendingRequests: map<Key, seq<PendingRequest>>
    var outbox: seq<Outgoing>

    function State(): RouterState
      reads this
    {
      RouterState(keyReplicationMap, pendingRequests, outbox)
    }

    constructor (
      respondAddress: Address,
      cache: map<Key, KeyReplication>,
      pending: map<Key, seq<PendingRequest>>)
      ensures replicationResponseAddress == respondAddress
      ensures State() == RouterState(cache, pending, [])
    {
      replicationResponseAddress := respondAddress;
      keyReplicationMap := cache;
      pendingRequests := pending;
      outbox := [];
    }

    /** Handles one replication-factor response. */
    method ReplicationResponseHandler(
      tuple: KeyTuple, allTiers: seq<Tier>,
      defaultReplication: KeyReplication, lookup: RingLookup)
      modifies this
      ensures State() == Handle(old(State()), replicationResponseAddress, tuple,
                                allTiers, defaultReplication, lookup)
    {
      var key := tuple.key;
      match tuple.error {
        case NoError =>
          ghost var cache0 := keyReplicationMap;
          WriteGlobalCounts(key, tuple.global);
          WriteLocalCounts(key, tuple.local);
          assert ApplyCounts(EntryOrEmpty(cache0, key).globalReplication, []) == EntryOrEmpty(cache0, key).globalReplication;
          assert ApplyCounts(EntryOrEmpty(cache0, key).localReplication, []) == EntryOrEmpty(cache0, key).localReplication;
          assert keyReplicationMap == ApplyReplicationFactor(cache0, key, tuple.global, tuple.local);
        case KeyDne =>
          keyReplicationMap := keyReplicationMap[key := defaultReplication];
        case WrongThread =>
          outbox := outbox + [ReplicationFactorRequest(replicationResponseAddress, key, Memory, Memory)];
          return;
        case Other(_) =>
          return;
      }
      DrainPending(key, allTiers, lookup);
    }

    /** `key_replication_map[key].global_replication_[tier] = count` for each listed pair. */
    method WriteGlobalCounts(key: Key, counts: seq<ReplicationValue>)
      modifies this
      ensures var base := EntryOrEmpty(old(keyReplicationMap), key);
        keyReplicationMap ==
          if counts == [] then old(keyReplicationMap)
          else old(keyReplicationMap)[key :=
            base.(globalReplication := ApplyCounts(base.globalReplication, counts))]
      ensures pendingRequests == old(pendingRequests) && outbox == old(outbox)
    {
      ghost var cache0 := keyReplicationMap;
      ghost var base := EntryOrEmpty(cache0, key);
      var i := 0;
      while i < |counts|
        invariant 0 <= i <= |counts|
        invariant keyReplicationMap ==
          if i == 0 then cache0
          else cache0[key := base.(globalReplication := ApplyCounts(base.globalReplication, counts[..i]))]
        invariant pendingRequests == old(pendingRequests) && outbox == old(outbox)
      {
        var v := counts[i];
        var entry := EntryOrEmpty(keyReplicationMap, key);
        keyReplicationMap := keyReplicationMap[key :=
          entry.(globalReplication := entry.globalReplication[v.tier := v.value])];
        assert counts[..i + 1][..i] == counts[..i];
        i := i + 1;
      }
      assert counts[..i] == counts;
    }

    /** `key_replication_map[key].local_replication_[tier] = count` for each listed pair. */
    method WriteLocalCounts(key: Key, counts: seq<ReplicationValue>)
      modifies this
      ensures var base := EntryOrEmpty(old(keyReplicationMap), key);
        keyReplicationMap ==
          if counts == [] then old(keyReplicationMap)
          else old(keyReplicationMap)[key :=
            base.(localReplication := ApplyCounts(base.localReplication, counts))]
      ensures pendingRequests == old(pendingRequests) && outbox == old(outbox)
    {
      ghost var cache0 := keyReplicationMap;
      ghost var base := EntryOrEmpty(cache0, key);
      var i := 0;
      while i < |counts|
        invariant 0 <= i <= |counts|
        invariant keyReplicationMap ==
          if i == 0 then cache0
          else cache0[key := base.(localReplication := ApplyCounts(base.localReplication, counts[..i]))]
        invariant pendingRequests == old(pendingRequests) && outbox == old(outbox)
      {
        var v := counts[i];
        var entry := EntryOrEmpty(keyReplicationMap, key);
        keyReplicationMap := keyReplicationMap[key :=
          entry.(localReplication := entry.localReplication[v.tier := v.value])];
        assert counts[..i + 1][..i] == counts[..i];
        i := i + 1;
      }
      assert counts[..i] == counts;
    }

    /**
     * Answers the buffered lookups of `key`: selects threads tier by tier, sends
     * one response per buffered request and erases the key's queue; abandons the
     * drain, keeping the queue, when a tier lookup fails.
     */
    method DrainPending(key: Key, allTiers: seq<Tier>, lookup: RingLookup)
      modifies this
      ensures State() == Drain(old(State()), key, allTiers, lookup)
    {
      if key !in pendingRequests {
        return;
      }
      var threads: seq<ServerThread> := [];
      var t := 0;
      while t < |allTiers|
        invariant 0 <= t <= |allTiers|
        invariant threads == []
        invariant SelectThreads(lookup, keyReplicationMap, key, allTiers)
               == SelectThreads(lookup, keyReplicationMap, key, allTiers[t..])
        invariant State() == old(State())
      {
        var found := lookup(keyReplicationMap, key, allTiers[t]);
        threads := found.threads;
        if |threads| > 0 {
          break;
        }
        if !found.succeed {
          return;
        }
        assert allTiers[t..][1..] == allTiers[t + 1..];
        t := t + 1;
      }
      assert SelectThreads(lookup, keyReplicationMap, key, allTiers) == Selected(threads);

      var requests := pendingRequests[key];
      ghost var ips0 := KeyRequestAddresses(threads);
      var r := 0;
      while r < |requests|
        invariant 0 <= r <= |requests|
        invariant outbox == old(outbox) + Replies(requests[..r], key, ips0)
        invariant keyReplicationMap == old(keyReplicationMap)
        invariant pendingRequests == old(pendingRequests)
      {
        var ips := CollectAddresses(threads);
        assert ips == ips0;
        var request := requests[r];
        outbox := outbox + [KeyAddressResponse(request.requester, request.requestId, key, ips)];
        assert Replies(requests[..r + 1], key, ips0)
            == Replies(requests[..r], key, ips0)
               + [KeyAddressResponse(request.requester, request.requestId, key, ips0)];
        r := r + 1;
      }
      assert requests[..r] == requests;
      pendingRequests := pendingRequests - {key};
    }
  }

  /** The address list of one response: each thread's key-request address, in order. */
  method CollectAddresses(threads: seq<ServerThread>) returns (ips: seq<Address>)
    ensures |ips| == |threads|
    ensures forall i :: 0 <= i < |threads| ==> ips[i] == threads[i].keyRequestConnectAddress
  {
    ips := [];
    var i := 0;
    while i < |threads|
      invariant 0 <= i <= |threads|
      invariant |ips| == i
      invariant forall k :: 0 <= k < i ==> ips[k] == threads[k].keyRequestConnectAddress
    {
      ips := ips + [threads[i].keyRequestConnectAddress];
      i := i + 1;
    }
  }
}
