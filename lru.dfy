/**
  The recency list of the chunk cache and the map it guards, as values.

  The list is a sequence of coordinates whose front is the least recently
  used entry. Nothing here keeps the list free of duplicates: the worker
  commit pushes a key that may already be listed, so the functions below
  are stated for arbitrary sequences.
 */
module Lru {

  /** A chunk coordinate, the key of the cache. */
  type Coord = (int, int)

  /** Upper bound on the length of the recency list. */
  const MaxChunks: nat := 50

  /** True iff every key of the map occurs somewhere in the recency list. */
  predicate Covered<V>(m: map<Coord, V>, q: seq<Coord>) {
    forall k :: k in m ==> k in q
  }

  /** The position of the first occurrence of `key` in `q`. */
  function IndexOf(q: seq<Coord>, key: Coord): (i: nat)
    requires key in q
    ensures i < |q| && q[i] == key
    ensures forall j :: 0 <= j < i ==> q[j] != key
  {
    if q[0] == key then 0 else 1 + IndexOf(q[1..], key)
  }

  /** `q` with the first occurrence of `key` unlinked. */
  function RemoveFirst(q: seq<Coord>, key: Coord): (r: seq<Coord>)
    ensures key in q ==> |r| == |q| - 1
    ensures key !in q ==> r == q
  {
    if q == [] then []
    else if q[0] == key then q[1..]
    else
      assert q == [q[0]] + q[1..];
      [q[0]] + RemoveFirst(q[1..], key)
  }

  /** Unlinking removes exactly one copy of a listed key and nothing else. */
  lemma {:induction false} RemoveFirstCounts(q: seq<Coord>, key: Coord)
    requires key in q
    ensures multiset(RemoveFirst(q, key)) == multiset(q) - multiset{key}
  {
    assert q == [q[0]] + q[1..];
    if q[0] != key {
      RemoveFirstCounts(q[1..], key);
    }
  }

  /** Unlinking the first occurrence keeps everything before it and everything after it, in order. */
  lemma {:induction false} RemoveFirstIsSplice(q: seq<Coord>, key: Coord, i: nat)
    requires i < |q| && q[i] == key
    requires forall j :: 0 <= j < i ==> q[j] != key
    ensures RemoveFirst(q, key) == q[..i] + q[i + 1..]
  {
    if i == 0 {
      assert q[..0] + q[1..] == q[1..];
    } else {
      var tail := q[1..];
      RemoveFirstIsSplice(tail, key, i - 1);
      assert RemoveFirst(q, key) == [q[0]] + (tail[..i - 1] + tail[i..]);
      assert q[..i] == [q[0]] + tail[..i - 1];
      assert q[i + 1..] == tail[i..];
    }
  }

  /** The list after `moveToBack(key)`: the first occurrence of `key`, if any, goes to the back. */
  function MovedToBack(q: seq<Coord>, key: Coord): (r: seq<Coord>)
    ensures |r| == |q| && multiset(r) == multiset(q)
    ensures key in q ==> r[|r| - 1] == key
    ensures key !in q ==> r == q
  {
    if key in q then
      RemoveFirstCounts(q, key);
      RemoveFirst(q, key) + [key]
    else q
  }

  /** Every element other than the moved one keeps its relative order. */
  lemma MovedToBackKeepsOrder(q: seq<Coord>, key: Coord)
    requires key in q
    ensures MovedToBack(q, key) == q[..IndexOf(q, key)] + q[IndexOf(q, key) + 1..] + [key]
  {
    RemoveFirstIsSplice(q, key, IndexOf(q, key));
  }

  /** Moving to the back never changes which keys are listed. */
  lemma MovedToBackKeepsCovered<V>(m: map<Coord, V>, q: seq<Coord>, key: Coord)
    requires Covered(m, q)
    ensures Covered(m, MovedToBack(q, key))
  {
    var r := MovedToBack(q, key);
    forall k | k in m ensures k in r {
      assert k in multiset(q);
      assert k in multiset(r);
    }
  }

  /** How many entries eviction pops from the front of a list of length `n`. */
  function Overflow(n: nat): nat {
    if n > MaxChunks then n - MaxChunks else 0
  }

  /** The list after `evictOldChunks`: fronts are popped while it is longer than `MaxChunks`. */
  function EvictedQueue(q: seq<Coord>): (r: seq<Coord>)
    ensures r == q[Overflow(|q|)..]
    ensures |r| <= MaxChunks
    ensures |q| <= MaxChunks ==> r == q
    ensures q != [] ==> r != [] && r[|r| - 1] == q[|q| - 1]
    decreases |q|
  {
    if |q| > MaxChunks then EvictedQueue(q[1..]) else q
  }

  /** The map after `evictOldChunks`: each popped front key is deleted, whether or not it is listed again later. */
  function EvictedChunks<V>(m: map<Coord, V>, q: seq<Coord>): (r: map<Coord, V>)
    ensures forall k :: k in r <==> k in m && k !in q[..Overflow(|q|)]
    ensures forall k :: k in r ==> r[k] == m[k]
    ensures |q| <= MaxChunks ==> r == m
    decreases |q|
  {
    if |q| > MaxChunks then
      assert q[..Overflow(|q|)] == [q[0]] + q[1..][..Overflow(|q| - 1)];
      EvictedChunks(m - {q[0]}, q[1..])
    else m
  }

  /** A key whose older copy is popped loses its chunk even though a newer copy stays listed. */
  lemma EvictionCanOrphanListedKey<V>(m: map<Coord, V>, q: seq<Coord>, key: Coord)
    requires key in q[..Overflow(|q|)] && key in q[Overflow(|q|)..]
    ensures key in EvictedQueue(q) && key !in EvictedChunks(m, q)
  {
  }

  /** Eviction keeps every surviving key of the map listed. */
  lemma EvictKeepsCovered<V>(m: map<Coord, V>, q: seq<Coord>)
    requires Covered(m, q)
    ensures Covered(EvictedChunks(m, q), EvictedQueue(q))
  {
    var d := Overflow(|q|);
    forall k | k in EvictedChunks(m, q) ensures k in EvictedQueue(q) {
      var j :| 0 <= j < |q| && q[j] == k;
      assert q[d..][j - d] == k;
    }
  }

  /** Dropping the front of the list uncovers only the front key. */
  lemma CoveredTail<V>(m: map<Coord, V>, q: seq<Coord>)
    requires Covered(m, q) && q != []
    ensures Covered(m - {q[0]}, q[1..])
  {
    assert q == [q[0]] + q[1..];
    forall k | k in m - {q[0]} ensures k in q[1..] {
      assert k in q;
    }
  }

  /** Deleting one key shrinks a map by at most one entry. */
  lemma RemoveKeySize<V>(m: map<Coord, V>, key: Coord)
    ensures |m| <= |m - {key}| + 1
  {
    if key in m {
      assert m.Keys == (m - {key}).Keys + {key};
    } else {
      assert m - {key} == m;
    }
  }

  /** A covered map has no more entries than the list has elements. */
  lemma {:induction false} CoveredSizeBound<V>(m: map<Coord, V>, q: seq<Coord>)
    requires Covered(m, q)
    ensures |m| <= |q|
    decreases |q|
  {
    if q == [] {
      assert m.Keys == {};
    } else {
      CoveredTail(m, q);
      CoveredSizeBound(m - {q[0]}, q[1..]);
      RemoveKeySize(m, q[0]);
    }
  }
}
