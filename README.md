# Replication-factor resolution and the Top-K priority lattice (Anna KVS)

This project models two pieces of the Anna key-value store's routing and lattice logic and proves properties about them.

**The replication-factor response handler** (`ReplicationResponse`, `RoutingProperties`). A routing thread owns three things. `keyReplicationMap` caches the per-tier global and local replica counts of each key. `pendingRequests` buffers `(requester address, request id)` lookups per key. `outbox` is the sequence of messages sent so far. The handler takes the single decoded tuple of a replication-factor response and branches on its error code:

- `NO_ERROR` writes each listed `(tier, count)` into the cached entry, one tier at a time.
- `KEY_DNE` sets the entry to the default replication factor.
- `WRONG_THREAD` re-issues one query on the MEMORY rings and returns.
- Any other code drops the message.

After `NO_ERROR` or `KEY_DNE`, the handler drains the key's pending queue, if there is one. It tries the tiers in order and stops at the first one that yields threads. If a tier fails without yielding threads, the drain is abandoned and the queue is kept. Otherwise it sends one reply per buffered request and erases the queue.

`RoutingThread` is a class holding those fields. Its method `ReplicationResponseHandler` is split into `WriteGlobalCounts`, `WriteLocalCounts` and `DrainPending`, which keep the source's loops: the two count loops, the tier loop with its `break` and early `return`, and the reply loop. The method is proved to implement the pure function `Handle` exactly. `Handle` is built from `ResolvedCache`, `ApplyReplicationFactor` and `ApplyCounts` for the cache, and from `SelectThreads`, `Replies`, `KeyRequestAddresses` and `Drain` for the drain. The lemmas in `RoutingProperties` state, about `Handle`, what each branch does and leaves alone.

**The bounded Top-K priority lattice** (`TopKLattice`, `TopKExamples`). `TopKPriorityLattice` is a class with a fixed bound `k` and a set of `(priority, value)` pairs. It has `Assign`, `Merge` (by set), `MergeLattice`, `Size` and `Reveal`. Merging keeps a top-`k` selection of the union, as stated by the relation `IsTopK`. Which of several equal-priority pairs is kept is left open. `TopKExamples` restates the three unit tests with bound 2 as methods whose postconditions are the asserted outcomes.

Two points of the model need a word:

- On `NO_ERROR`, the code writes `key_replication_map[key].global_replication_[tier]` (and the local counterpart) one listed tier at a time (src/route/replication_response_handler.cpp:40-47); it does not replace the cached entry. Tiers the message does not list keep their old counts (`NoErrorKeepsUnlistedTier`). Because `operator[]` is evaluated only inside the loop bodies, a response with no pairs at all leaves an absent key absent.
- Priorities are integers: the tests' 1.1, 2.2, … become 11, 22, …. Only their order matters.

## Model

| member | source | states |
|---|---|---|
| `ReplicationResponse.RoutingThread.ReplicationResponseHandler` | src/route/replication_response_handler.cpp:17-114 | the new cache, pending queues and outbox are exactly `Handle` of the old state: dispatch on the error code, then the drain |
| `ReplicationResponse.Handle` | src/route/replication_response_handler.cpp:17-114 | the handler on a state value: WRONG_THREAD appends one MEMORY-ring request; any other unexpected code changes nothing; NO_ERROR and KEY_DNE resolve the cache and then drain; its meaning is stated by the `RoutingProperties` lemmas |
| `ReplicationResponse.SelectThreads` | src/route/replication_response_handler.cpp:74-92 | tiers are tried in order; the first non-empty thread list is selected, a failure before it abandons the drain, and if every tier succeeds empty the list is empty; characterised by `SelectThreadsSpec` |
| `ReplicationResponse.Drain` | src/route/replication_response_handler.cpp:68-113 | with a pending entry and a selection, appends one reply per buffered request and erases the entry; otherwise leaves the state alone; characterised by `DrainAnswersEveryRequester`, `TierFailureKeepsPending` and `NoPendingNoReply` |
| `ReplicationResponse.ApplyReplicationFactor` | src/route/replication_response_handler.cpp:40-47 | the cache after the two NO_ERROR loops; characterised by `NoErrorCacheUpdate` |
| `ReplicationResponse.RoutingThread.WriteGlobalCounts` | src/route/replication_response_handler.cpp:40-43 | the key's global counts become the listed pairs written in order over the old (or default-constructed) entry; if no pair is listed, nothing changes; the queues and outbox are unchanged |
| `ReplicationResponse.RoutingThread.WriteLocalCounts` | src/route/replication_response_handler.cpp:45-47 | the same for the local counts |
| `ReplicationResponse.RoutingThread.DrainPending` | src/route/replication_response_handler.cpp:68-113 | the new state is `Drain` of the old one: tier-ordered selection with early return on failure, one reply per buffered request, then the key's queue is erased |
| `ReplicationResponse.CollectAddresses` | src/route/replication_response_handler.cpp:102-104 | the reply's address list has one entry per thread: that thread's key-request address, in thread order |
| `RoutingProperties.ApplyCountsLastWins` | src/route/replication_response_handler.cpp:40-47 | a tier listed in the message ends with the count of its last occurrence |
| `RoutingProperties.ApplyCountsUnlisted` | src/route/replication_response_handler.cpp:40-47 | a tier the message does not list keeps its presence and its count |
| `RoutingProperties.ApplyCountsIdempotent` | src/route/replication_response_handler.cpp:40-47 | writing the same list of counts twice gives the same map as writing it once |
| `RoutingProperties.NoErrorCacheUpdate` | src/route/replication_response_handler.cpp:33-47 | on NO_ERROR: listed tiers get their last listed count; unlisted tiers keep their counts; the entry exists afterwards iff it existed or some pair was listed; no other key's entry changes |
| `RoutingProperties.NoErrorKeepsUnlistedTier` | src/route/replication_response_handler.cpp:40-47 | a concrete case: a cached DISK count survives a NO_ERROR response that lists only MEMORY |
| `RoutingProperties.KeyDneCacheUpdate` | src/route/replication_response_handler.cpp:48-52 | on KEY_DNE the key's entry becomes the default replication factor and every other key's entry is unchanged |
| `RoutingProperties.WrongThreadReissues` | src/route/replication_response_handler.cpp:53-61 | on WRONG_THREAD, exactly one message is sent: a replication-factor request for the key on the MEMORY global and local rings, answering to the thread's response address; the cache and pending queues are unchanged; no reply is sent |
| `RoutingProperties.UnexpectedErrorIsDropped` | src/route/replication_response_handler.cpp:62-66 | on any other error code, the cache, the pending queues and the outbox are all unchanged |
| `RoutingProperties.HandleCacheIdempotent` | src/route/replication_response_handler.cpp:33-52 | handling the same response a second time leaves the cache as the first handling left it |
| `RoutingProperties.SelectThreadsSpec` | src/route/replication_response_handler.cpp:74-92 | selection returns the threads of the first tier that yields any; it fails iff a tier fails, without threads, before any tier yields threads; it returns an empty list iff every tier succeeds without threads |
| `RoutingProperties.NoPendingNoReply` | src/route/replication_response_handler.cpp:69 | with no pending entry for the key, nothing is sent and the pending queues are unchanged |
| `RoutingProperties.TierFailureKeepsPending` | src/route/replication_response_handler.cpp:83-91 | if a tier fails before any tier yields threads, nothing is sent and the key's queue is kept |
| `RoutingProperties.DrainAnswersEveryRequester` | src/route/replication_response_handler.cpp:96-112 | a drain appends exactly one reply per buffered request, in queue order. Each reply goes to its requester, carries its request id and the key, and lists the selected threads' addresses in order. Afterwards the key has no queue and every other queue is unchanged |
| `RoutingProperties.AllTiersEmptyStillDrains` | src/route/replication_response_handler.cpp:74-112 | when every tier succeeds without threads, each requester still gets a reply, with an empty address list, and the key's queue is erased |
| `RoutingProperties.NeverDropsRequesters` | src/route/replication_response_handler.cpp:68-113 | no pending queue is ever added or altered, and a queue is removed only after a reply has been sent to each of its requesters |
| `TopKLattice.TopKPriorityLattice.constructor` | tests/include/lattices/test_top_k_priority_lattice.hpp:40 | a new lattice with bound 2 holds no pairs |
| `TopKLattice.TopKPriorityLattice.WithElements` | tests/include/lattices/test_top_k_priority_lattice.hpp:53 | a lattice built from a set holds a top-K selection of it |
| `TopKLattice.TopKPriorityLattice.Size` | tests/include/lattices/test_top_k_priority_lattice.hpp:45 | the size is the number of retained pairs and never exceeds K |
| `TopKLattice.TopKPriorityLattice.Reveal` | tests/include/lattices/test_top_k_priority_lattice.hpp:48 | the revealed set never has more than K pairs |
| `TopKLattice.TopKPriorityLattice.Assign` | tests/include/lattices/test_top_k_priority_lattice.hpp:46-48 | after assign, whatever the prior content, the lattice holds a top-K selection of the given set |
| `TopKLattice.TopKPriorityLattice.Merge` | tests/include/lattices/test_top_k_priority_lattice.hpp:64-75 | after merge, the lattice holds a top-K selection of the old pairs together with the incoming set; the size stays at most K |
| `TopKLattice.TopKPriorityLattice.MergeLattice` | tests/include/lattices/test_top_k_priority_lattice.hpp:51-62 | merging another lattice has the same effect as merging its set, under the receiver's bound |
| `TopKLattice.TopK` | tests/include/lattices/test_top_k_priority_lattice.hpp:69-71 | the result is a subset of the input with min(size, K) pairs, and no dropped pair has higher priority than a kept one |
| `TopKLattice.TopKOfSmallSet` | tests/include/lattices/test_top_k_priority_lattice.hpp:64-68 | a set of at most K pairs is its own, and only, top-K selection, so merging it into an empty lattice (or assigning it) yields exactly it |
| `TopKLattice.TopKUnique` | tests/include/lattices/test_top_k_priority_lattice.hpp:69-74 | when no two pairs share a priority, the top-K selection of a set is unique |
| `TopKLattice.MergeAccumulates` | tests/include/lattices/test_top_k_priority_lattice.hpp:69-74 | successive merges keep a top-K selection of everything merged so far |
| `TopKLattice.MergeReplayIsNoOp` | tests/include/lattices/test_top_k_priority_lattice.hpp:64-75 | merging a set that was already merged changes nothing (distinct priorities): merge is idempotent |
| `TopKLattice.MergeCommutes` | tests/include/lattices/test_top_k_priority_lattice.hpp:64-75 | merging two sets in either order gives the same content (distinct priorities): merge is commutative |
| `TopKLattice.MergeAssociates` | tests/include/lattices/test_top_k_priority_lattice.hpp:64-75 | merging a and b then c gives the same content as merging b and c then a (distinct priorities): grouping of repeated merges does not matter |
| `TopKExamples.FirstMerge` | tests/include/lattices/test_top_k_priority_lattice.hpp:66-68 | merging {1.1, 2.2} into the empty lattice keeps {1.1, 2.2} |
| `TopKExamples.SecondMerge` | tests/include/lattices/test_top_k_priority_lattice.hpp:69-71 | {1.1, 2.2} merged with {1.2, 2.3} keeps exactly {2.2, 2.3} |
| `TopKExamples.ThirdMerge` | tests/include/lattices/test_top_k_priority_lattice.hpp:72-74 | {2.2, 2.3} merged with {1.3, 2.4} keeps exactly {2.3, 2.4} |
| `TopKExamples.AssignScenario` | tests/include/lattices/test_top_k_priority_lattice.hpp:44-49 | the Assign test: sizes 0 then 2, revealed set {1.1, 2.2} |
| `TopKExamples.MergeByValueScenario` | tests/include/lattices/test_top_k_priority_lattice.hpp:64-75 | the MergeByValue test: sizes 0, 2, 2, 2 and revealed sets set1, set12, set123 |
| `TopKExamples.MergeByLatticeScenario` | tests/include/lattices/test_top_k_priority_lattice.hpp:51-62 | the MergeByLattice test: the same sizes and sets when merging lattices built from the sets |

## Left out

- Protobuf decoding (`ParseFromString` of the response, of the last-writer-wins value and of the replication factor) and `SerializeToString`: the handler starts from an already-decoded `KeyTuple`.
- `get_key_from_metadata`: the tuple carries the decoded key.
- Logging: it has no effect on state.
- ZMQ sends and the `SocketCache`: a send is an append to `outbox`.
- `get_responsible_threads`: an opaque parameter `lookup`, consulted with the updated cache, the key and one tier. Its own side effects are not modelled, including any query it issues and its use of the pushers and the seed.
- `issue_replication_factor_request`: recorded as one `ReplicationFactorRequest` message carrying tier names for the rings. The target it picks and the `seed` it advances are not modelled.
- `init_replication` (called at src/route/replication_response_handler.cpp:52): its body is not part of this model. It is modelled as replacing the key's entry wholesale with the parameter `defaultReplication`; that is an assumption of the model, since the shown code passes the cache by reference and does not fix whether the function overwrites the whole entry or writes tier by tier.
- `kAllTiers`: defined outside the modelled files. The tier order is the parameter `allTiers`.
- `ServerThread`: only its key-request connect address is kept. How that address is derived from IPs and thread ids is not part of this model.
- Replica counts are unbounded naturals. The source's `unsigned` width never matters, because the handler does no arithmetic on counts.
- The header `lattices/top_k_priority_lattice.hpp` is not part of this model. The lattice is modelled from the tests, and its truncation algorithm (repeatedly drop a lowest-priority pair) is this model's own.
- `TopKLattice.TopKPriorityLattice.WithElements`: truncating the given set to K is an assumption. The constructor's body is not shown.
- Tie-breaking between equal priorities is left unspecified. Uniqueness, idempotence, commutativity and associativity of merge are therefore proved only for sets with distinct priorities. For the general case, `MergeAccumulates` shows that any result is still a valid top-K selection.
- `double` priorities: integers stand in for them, and only their order is used.
- `size()` returns a max-int lattice in the source. Here it returns a natural number.
