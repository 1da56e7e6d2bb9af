# Chunk cache of go-ebiten-chunks, in Dafny

The game keeps a `World` that holds generated map chunks keyed by integer
chunk coordinates. There are three structures:

- `Chunks`, a map from coordinates to chunks;
- `cacheQueue`, a recency list whose front is the least recently used key;
- `genQueue`, a work queue with 100 slots of keys waiting for generation.

`GetChunk` returns a cached chunk and moves its key to the back of the list.
On a miss it stores a placeholder chunk that is not ready, queues the key for
a worker, lists the key last and evicts. A worker takes a key from the queue,
generates a ready chunk, stores it, lists the key last and evicts. Eviction
pops the front of the list, deleting that key from the map, while the list
holds more than `MaxChunks` = 50 entries.

The project has three modules:

- `Lru` (lru.dfy): the recency list and the map as values. `MovedToBack` is
  the list after a touch. `EvictedQueue` and `EvictedChunks` are the list and
  the map after eviction. All three are proved against independent closed
  forms.
- `CacheState` (cache_state.dfy): the whole world as a value (`WorldState`)
  with the invariant `Valid`. `Get` is a `GetChunk` call and `Committed` is a
  worker commit. Lemmas state what each step does and that it keeps `Valid`.
- `ChunkWorld` (world.dfy): the class `World`, whose fields are updated in
  place. Its methods hold the loops of the source: the eviction loop and the
  list scan of `moveToBack`. Each method is proved to produce exactly the
  state given by the matching `CacheState` function.

The model follows the code where it differs from an idealised LRU cache. An
idealised LRU cache would discard a completion for an evicted key and keep the
map's keys and the list's entries the same set. The code does neither:

- a worker commit stores its chunk even if the key was evicted meanwhile
  (main.go:70);
- a commit appends the key to the list even if it is already listed
  (main.go:71), so the list can hold duplicates and keys without a chunk;
- eviction of such a stale front copy deletes the key's live chunk
  (main.go:134-135). A miss can then lose its own placeholder, and `GetChunk`
  returns nil (main.go:126).

So the invariant that holds is weaker: every key of the map is listed at
least once (`Covered`), the list holds at most 50 entries and the queue at
most 100. `CommitOutcome`, `CommitDuplicatesKey`, `EvictionCanOrphanListedKey`
and `GetMiss` state these behaviours exactly. When the list holds no
duplicates, `MissEvictsLeastRecent` and `TouchSparesKey` show plain LRU
behaviour.

A nil pointer is `Option.None`. A chunk image is opaque: a placeholder holds
`Blank`, and a generated chunk holds `Palette(cx, cy)`, since painting depends
only on the coordinate.

## Model

| member | source | states |
|---|---|---|
| Lru.IndexOf | main.go:146-147 | the scan from the front stops at a position holding the key, and no earlier position holds it |
| Lru.RemoveFirstCounts | main.go:148 | unlinking a listed key removes exactly one copy of it and nothing else |
| Lru.RemoveFirstIsSplice | main.go:146-151 | unlinking the first match at position i leaves the elements before i and after i, in their order |
| Lru.MovedToBack | main.go:142-153 | moving to the back keeps the length and the multiset of the list; a listed key ends up last; an unlisted key leaves the list unchanged |
| Lru.MovedToBackKeepsOrder | main.go:146-151 | for a listed key the new list is the old one with the first occurrence removed, the rest in order, and the key appended |
| Lru.MovedToBackKeepsCovered | main.go:142-153 | a touch never unlists a key of the map |
| Lru.EvictedQueue | main.go:130-138 | the surviving list is the suffix of the old list of length min(len, 50); a list within the bound is unchanged; the last element survives |
| Lru.EvictedChunks | main.go:131-137 | a key stays in the map iff it was there and is not among the popped front entries; surviving values are unchanged; a list within the bound leaves the map unchanged |
| Lru.EvictionCanOrphanListedKey | main.go:134-135 | a key whose older copy is popped loses its chunk although a newer copy stays listed |
| Lru.EvictKeepsCovered | main.go:130-138 | after eviction every remaining key of the map is still listed |
| Lru.CoveredSizeBound | main.go:35-36 | a map whose keys are all listed has no more entries than the list |
| CacheState.ValidBoundsChunks | main.go:130-138 | under the invariant, the number of chunks is at most the list length, which is at most 50 |
| CacheState.GetHit | main.go:108-116 | a hit returns the stored chunk, leaves the map and the work queue unchanged, only reorders the list (key last, same multiset) and keeps the invariant |
| CacheState.GetMiss | main.go:118-126 | a miss queues the key exactly once and lists it last; the result is the not-ready placeholder iff the key survived eviction; it is nil iff the full list's front was a stale copy of the key; other keys survive iff not popped; the invariant holds |
| CacheState.CommitOutcome | main.go:64-74 | a commit dequeues the front key and lists it last; the key has a chunk afterwards (even if evicted before) iff the full list's front was not an older copy of it, and that chunk is the ready generated one; the invariant holds |
| CacheState.CommitDuplicatesKey | main.go:70-72 | committing a key already listed past the front leaves it listed twice |
| CacheState.MissEvictsLeastRecent | main.go:118-124 | on a full list without the key, a miss evicts exactly the front key and returns the placeholder |
| CacheState.TouchSparesKey | main.go:105-126 | on a full duplicate-free list, a hit on the front key followed by a miss on a new key evicts the second entry and keeps the touched key |
| ChunkWorld.World.constructor | main.go:49-54 | a new world has no chunks, an empty list and an empty queue, and satisfies the invariant |
| ChunkWorld.World.GetChunk | main.go:105-127 | the new state and result are those of `Get`; hit and miss outcomes as in GetHit and GetMiss; the invariant is kept |
| ChunkWorld.World.EvictOldChunks | main.go:130-139 | the popping loop leaves the list `EvictedQueue` and the map `EvictedChunks` of the old state |
| ChunkWorld.World.MoveToBack | main.go:142-153 | the scan-and-relink loop leaves the list `MovedToBack` of the old list and changes nothing else |
| ChunkWorld.World.ChunkWorkerStep | main.go:64-75 | one worker round yields the state `Committed` of the old state: queue front removed, key last in the list, ready chunk stored unless popped, invariant kept |

## Left out

- Goroutines, the `sync.RWMutex` and channel blocking (main.go:37, 56-58, 65, 108-119, 143) are concurrency. Every operation is one atomic step.
- A send to the full 100-slot work queue blocks (main.go:122). `GetChunk` holds `w.mu` while it sends (main.go:118-119), and a worker only returns to its receive (main.go:65) after taking `w.mu` (main.go:69). So with the queue full and every worker waiting for the lock, no worker ever receives and `GetChunk` never returns: the program deadlocks. The model requires room in the queue for a miss, which excludes exactly this hang; it does not model it.
- A worker receive blocks on an empty queue (main.go:65). The model's `ChunkWorkerStep` requires a pending key.
- The number of workers (main.go:23) does not matter in a sequential model.
- GetChunk releases the read lock before the write lock (main.go:110-118). Two concurrent misses on one key could then both queue it. This race is not modelled.
- The pixel painting of `GenerateChunk` (main.go:78-99) and the placeholder image allocation (main.go:121) go through the ebiten library. Images are opaque values (`Palette(cx, cy)` and `Blank`).
- The `oldest != nil` test (main.go:133) always passes under the loop guard. The model has no branch for it.
- `container/list` element pointers and O(1) relinking are modelled by a sequence.
- `Update`, `Draw`, `Layout` and `main` (main.go:156-221) handle input, rendering and window setup. They are not part of this model.
