/**
  The world's chunk cache as a value, and the three things that change it:
  a `GetChunk` call, a worker commit and eviction.

  The operations follow the code, not an idealised LRU cache: a worker commit
  re-inserts a key even if it was evicted in the meantime and pushes a second
  copy of its key onto the recency list, so the list may hold duplicates and
  keys without a chunk; eviction of such a stale front copy deletes the live
  chunk of that key.
 */
module CacheState {
  import opened Lru

  /** Capacity of the work queue of coordinates waiting for generation. */
  const GenQueueCapacity: nat := 100

  /**
    The image of a chunk, kept opaque: a freshly allocated blank image, or the
    palette painted for a coordinate (painting is a function of the coordinate).
   */
  datatype Image = Blank | Palette(cx: int, cy: int)

  datatype Chunk = Chunk(image: Image, ready: bool)

  /** A pointer to a chunk that may be nil. */
  datatype Option<T> = None | Some(value: T)

  datatype WorldState = WorldState(
    chunks: map<Coord, Chunk>,
    cacheQueue: seq<Coord>,
    genQueue: seq<Coord>)

  /** The object invariant kept by every public operation. */
  predicate Valid(s: WorldState) {
    && Covered(s.chunks, s.cacheQueue)
    && |s.cacheQueue| <= MaxChunks
    && |s.genQueue| <= GenQueueCapacity
  }

  /** The chunk stored while generation is pending. */
  function Placeholder(): Chunk {
    Chunk(Blank, false)
  }

  /** The chunk a worker produces for a coordinate. */
  function GenerateChunk(cx: int, cy: int): Chunk {
    Chunk(Palette(cx, cy), true)
  }

  /** Indexing a map of pointers: an absent key reads as nil. */
  function Lookup(m: map<Coord, Chunk>, key: Coord): Option<Chunk> {
    if key in m then Some(m[key]) else None
  }

  /** The state after `evictOldChunks`. */
  function Evicted(s: WorldState): WorldState {
    WorldState(EvictedChunks(s.chunks, s.cacheQueue), EvictedQueue(s.cacheQueue), s.genQueue)
  }

  /** The state and the result of `GetChunk` for `key`. */
  function Get(s: WorldState, key: Coord): (WorldState, Option<Chunk>)
    requires key in s.chunks || |s.genQueue| < GenQueueCapacity
  {
    if key in s.chunks then
      (s.(cacheQueue := MovedToBack(s.cacheQueue, key)), Some(s.chunks[key]))
    else
      var t := Evicted(WorldState(s.chunks[key := Placeholder()], s.cacheQueue + [key], s.genQueue + [key]));
      (t, Lookup(t.chunks, key))
  }

  /** The state after one worker takes the oldest pending key and commits its chunk. */
  function Committed(s: WorldState): WorldState
    requires s.genQueue != []
  {
    var key := s.genQueue[0];
    Evicted(WorldState(s.chunks[key := GenerateChunk(key.0, key.1)], s.cacheQueue + [key], s.genQueue[1..]))
  }

  /** Appending one key to a list within the bound and evicting pops at most the old front. */
  lemma AppendThenEvict(q: seq<Coord>, key: Coord)
    requires |q| <= MaxChunks
    ensures var d := Overflow(|q + [key]|);
      && d == (if |q| == MaxChunks then 1 else 0)
      && (q + [key])[..d] == (if |q| == MaxChunks then [q[0]] else [])
  {
  }

  /** The invariant bounds the number of resident chunks. */
  lemma ValidBoundsChunks(s: WorldState)
    requires Valid(s)
    ensures |s.chunks| <= |s.cacheQueue| <= MaxChunks
  {
    CoveredSizeBound(s.chunks, s.cacheQueue);
  }

  /** A hit returns the stored chunk and only reorders the recency list. */
  lemma GetHit(s: WorldState, key: Coord)
    requires Valid(s) && key in s.chunks
    ensures var (t, r) := Get(s, key);
      && r == Some(s.chunks[key])
      && t.chunks == s.chunks && t.genQueue == s.genQueue
      && t.cacheQueue == MovedToBack(s.cacheQueue, key)
      && multiset(t.cacheQueue) == multiset(s.cacheQueue)
      && t.cacheQueue[|t.cacheQueue| - 1] == key
      && Valid(t)
  {
    MovedToBackKeepsCovered(s.chunks, s.cacheQueue, key);
  }

  /**
    A miss schedules the key exactly once and lists it last; the placeholder
    survives unless the list was full and its front was a stale copy of the
    same key, in which case the call returns nil.
   */
  lemma GetMiss(s: WorldState, key: Coord)
    requires Valid(s) && key !in s.chunks && |s.genQueue| < GenQueueCapacity
    ensures var (t, r) := Get(s, key);
      && t.genQueue == s.genQueue + [key]
      && t.cacheQueue == EvictedQueue(s.cacheQueue + [key])
      && t.cacheQueue[|t.cacheQueue| - 1] == key
      && (r.Some? <==> key in t.chunks)
      && (r.Some? ==> r.value == Placeholder() && !r.value.ready)
      && (r == None <==> |s.cacheQueue| == MaxChunks && s.cacheQueue[0] == key)
      && (forall k :: k != key ==> (k in t.chunks <==> k in s.chunks && k !in s.cacheQueue[..Overflow(|s.cacheQueue| + 1)]))
      && Valid(t)
  {
    var q := s.cacheQueue + [key];
    var m := s.chunks[key := Placeholder()];
    var d := Overflow(|q|);
    var t := WorldState(EvictedChunks(m, q), EvictedQueue(q), s.genQueue + [key]);
    assert Get(s, key) == (t, Lookup(t.chunks, key));
    assert Valid(t) by {
      assert Covered(m, q);
      EvictKeepsCovered(m, q);
    }
    assert key in t.chunks <==> !(|s.cacheQueue| == MaxChunks && s.cacheQueue[0] == key) by {
      AppendThenEvict(s.cacheQueue, key);
    }
    assert q[..d] == s.cacheQueue[..d];
  }

  /**
    A commit stores a ready chunk under the dequeued key, even if that key was
    evicted meanwhile, and lists the key last, even if it is already listed; the
    chunk is lost only when the full list's front is an older copy of the key.
   */
  lemma CommitOutcome(s: WorldState)
    requires Valid(s) && s.genQueue != []
    ensures var key := s.genQueue[0]; var t := Committed(s);
      && t.genQueue == s.genQueue[1..]
      && t.cacheQueue == EvictedQueue(s.cacheQueue + [key])
      && t.cacheQueue[|t.cacheQueue| - 1] == key
      && (key in t.chunks <==> !(|s.cacheQueue| == MaxChunks && s.cacheQueue[0] == key))
      && (key in t.chunks ==> t.chunks[key] == GenerateChunk(key.0, key.1) && t.chunks[key].ready)
      && Valid(t)
  {
    var key := s.genQueue[0];
    var q := s.cacheQueue + [key];
    var m := s.chunks[key := GenerateChunk(key.0, key.1)];
    AppendThenEvict(s.cacheQueue, key);
    assert Covered(m, q);
    EvictKeepsCovered(m, q);
  }

  /** A commit for a key listed past the front leaves two copies of it in the list. */
  lemma CommitDuplicatesKey(s: WorldState)
    requires Valid(s) && s.genQueue != []
    requires |s.cacheQueue| > 0 && s.genQueue[0] in s.cacheQueue[1..]
    ensures var r := Committed(s).cacheQueue;
      r[|r| - 1] == s.genQueue[0] && s.genQueue[0] in r[..|r| - 1]
  {
    var key := s.genQueue[0];
    var q := s.cacheQueue + [key];
    AppendThenEvict(s.cacheQueue, key);
    var d := Overflow(|q|);
    var j :| 0 <= j < |s.cacheQueue| - 1 && s.cacheQueue[1..][j] == key;
    var r := Committed(s).cacheQueue;
    assert r == q[d..];
    assert r[..|r| - 1][j + 1 - d] == key;
  }

  /** Without duplicates, a miss on a full list evicts exactly the least recently used key. */
  lemma MissEvictsLeastRecent(s: WorldState, key: Coord)
    requires Valid(s) && key !in s.chunks && |s.genQueue| < GenQueueCapacity
    requires |s.cacheQueue| == MaxChunks && key !in s.cacheQueue
    ensures var (t, r) := Get(s, key);
      && t.cacheQueue == s.cacheQueue[1..] + [key]
      && t.chunks == s.chunks[key := Placeholder()] - {s.cacheQueue[0]}
      && r == Some(Placeholder())
  {
    var q := s.cacheQueue + [key];
    AppendThenEvict(s.cacheQueue, key);
    var t := Get(s, key).0;
    assert q[1..] == s.cacheQueue[1..] + [key];
    assert t.chunks == s.chunks[key := Placeholder()] - {s.cacheQueue[0]};
  }

  /**
    A touch protects a key: on a full list without duplicates whose front is
    `a`, a hit on `a` followed by a miss on a new key `b` evicts the second
    entry and keeps `a`.
   */
  lemma TouchSparesKey(s: WorldState, a: Coord, b: Coord)
    requires Valid(s) && a in s.chunks && b !in s.chunks && |s.genQueue| < GenQueueCapacity
    requires |s.cacheQueue| == MaxChunks && s.cacheQueue[0] == a && b !in s.cacheQueue
    requires forall i, j :: 0 <= i < j < |s.cacheQueue| ==> s.cacheQueue[i] != s.cacheQueue[j]
    ensures var u := Get(s, a).0; var (t, r) := Get(u, b);
      && a in t.chunks && t.chunks[a] == s.chunks[a]
      && s.cacheQueue[1] !in t.chunks
      && t.cacheQueue == s.cacheQueue[2..] + [a, b]
      && r == Some(Placeholder())
  {
    var q := s.cacheQueue;
    var u := Get(s, a).0;
    GetHit(s, a);
    MovedToBackKeepsOrder(q, a);
    assert IndexOf(q, a) == 0;
    assert u.cacheQueue == q[1..] + [a];
    assert u.cacheQueue[0] == q[1] != a;
    assert b !in u.cacheQueue;
    MissEvictsLeastRecent(u, b);
  }
}
