/**
  The `World` object: the chunk map, the recency list and the work queue,
  updated in place. Each method is proved against the value-level operation
  of module CacheState that it implements, and keeps the object invariant.

  Locking is not modelled: every method runs as one atomic step. A worker is
  one step of its receive loop, taken whenever the work queue is not empty.
 */
module ChunkWorld {
  import opened Lru
  import opened CacheState

  class World {
    var chunks: map<Coord, Chunk>
    var cacheQueue: seq<Coord>
    var genQueue: seq<Coord>

    /** The abstract value of the object. */
    function State(): WorldState
      reads this
    {
      WorldState(chunks, cacheQueue, genQueue)
    }

    ghost predicate Valid()
      reads this
    {
      CacheState.Valid(State())
    }

    /** A new world: no chunks, an empty recency list and an empty work queue. */
    constructor ()
      ensures Valid()
      ensures chunks == map[] && cacheQueue == [] && genQueue == []
    {
      chunks := map[];
      cacheQueue := [];
      genQueue := [];
    }

    /**
      Returns the chunk at (cx, cy), or nil. A hit promotes the key to most
      recently used; a miss stores a placeholder, schedules the key once, lists
      it last and evicts.
     */
    method GetChunk(cx: int, cy: int) returns (chunk: Option<Chunk>)
      requires Valid()
      requires (cx, cy) in chunks || |genQueue| < GenQueueCapacity
      modifies this
      ensures Valid()
      ensures (State(), chunk) == Get(old(State()), (cx, cy))
      ensures old((cx, cy) in chunks) ==>
        && chunk == Some(old(chunks[(cx, cy)]))
        && chunks == old(chunks) && genQueue == old(genQueue)
        && multiset(cacheQueue) == old(multiset(cacheQueue))
      ensures old((cx, cy) !in chunks) ==>
        && genQueue == old(genQueue) + [(cx, cy)]
        && cacheQueue[|cacheQueue| - 1] == (cx, cy)
        && (chunk == None <==> old(|cacheQueue| == MaxChunks && cacheQueue[0] == (cx, cy)))
    {
      var key := (cx, cy);
      if key in chunks {
        GetHit(State(), key);
        var found := chunks[key];
        MoveToBack(key);
        return Some(found);
      }
      GetMiss(State(), key);
      chunks := chunks[key := Placeholder()];
      genQueue := genQueue + [key];
      cacheQueue := cacheQueue + [key];
      EvictOldChunks();
      chunk := if key in chunks then Some(chunks[key]) else None;
    }

    /** Pops the front of the recency list, deleting its key from the map, while the list is too long. */
    method EvictOldChunks()
      modifies this`chunks, this`cacheQueue
      ensures cacheQueue == EvictedQueue(old(cacheQueue))
      ensures chunks == EvictedChunks(old(chunks), old(cacheQueue))
    {
      while |cacheQueue| > MaxChunks
        invariant EvictedQueue(cacheQueue) == EvictedQueue(old(cacheQueue))
        invariant EvictedChunks(chunks, cacheQueue) == EvictedChunks(old(chunks), old(cacheQueue))
        decreases |cacheQueue|
      {
        var oldest := cacheQueue[0];
        chunks := chunks - {oldest};
        cacheQueue := cacheQueue[1..];
      }
    }

    /** Scans the recency list from the front and moves the first copy of `key` to the back. */
    method MoveToBack(key: Coord)
      modifies this`cacheQueue
      ensures cacheQueue == MovedToBack(old(cacheQueue), key)
    {
      var i := 0;
      while i < |cacheQueue|
        invariant 0 <= i <= |cacheQueue|
        invariant cacheQueue == old(cacheQueue)
        invariant forall j :: 0 <= j < i ==> cacheQueue[j] != key
      {
        if cacheQueue[i] == key {
          RemoveFirstIsSplice(cacheQueue, key, i);
          cacheQueue := cacheQueue[..i] + cacheQueue[i + 1..] + [key];
          return;
        }
        i := i + 1;
      }
    }

    /**
      One round of a chunk worker: receive the oldest pending key, generate its
      chunk, store it, list the key last and evict.
     */
    method ChunkWorkerStep() returns (key: Coord)
      requires Valid() && genQueue != []
      modifies this
      ensures Valid()
      ensures key == old(genQueue[0]) && State() == Committed(old(State()))
      ensures genQueue == old(genQueue[1..])
      ensures cacheQueue[|cacheQueue| - 1] == key
      ensures key in chunks <==> !old(|cacheQueue| == MaxChunks && cacheQueue[0] == key)
      ensures key in chunks ==> chunks[key] == GenerateChunk(key.0, key.1) && chunks[key].ready
    {
      ghost var before := State();
      CommitOutcome(before);
      key := genQueue[0];
      genQueue := genQueue[1..];
      var chunk := GenerateChunk(key.0, key.1);
      chunks := chunks[key := chunk];
      cacheQueue := cacheQueue + [key];
      EvictOldChunks();
      assert State() == Committed(before);
    }
  }
}
