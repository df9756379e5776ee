/** The memo cache of `checkSingle` (src/porcupine/checker.go, `cacheEntry`, `cacheContains`):
    buckets of (bitset, state) pairs keyed by the bitset's hash, refining a plain set. */
module MemoCache {
  import opened Bitset

  datatype CacheEntry<S> = CacheEntry(linearized: array<bv64>, state: S)

  /** The `uint64` map key. */
  datatype Key = Key(hash: bv64)

  type Cache<S> = map<Key, seq<CacheEntry<S>>>

  /** The arrays the cache holds. */
  ghost function Arrays<S>(cache: Cache<S>): set<array<bv64>> {
    set h, i | h in cache && 0 <= i < |cache[h]| :: cache[h][i].linearized
  }

  ghost predicate Stored<S>(cache: Cache<S>, h: Key, i: int) {
    h in cache && 0 <= i < |cache[h]|
  }

  /** Bucket `h`, slot `i` holds the pair `c`. */
  ghost predicate Holds<S>(cache: Cache<S>, h: Key, i: int, c: (set<int>, S))
    reads Arrays(cache)
  {
    Stored(cache, h, i) && Members(cache[h][i].linearized[..]) == c.0 && cache[h][i].state == c.1
  }

  /** The cache answers like the set `seen`, and every bitset lies in the bucket of its hash. */
  ghost predicate Caches<S>(cache: Cache<S>, seen: set<(set<int>, S)>, words: nat)
    reads Arrays(cache)
  {
    && (forall h, i | Stored(cache, h, i) ::
          var x := cache[h][i];
          && x.linearized.Length == words && Key(HashOf(x.linearized[..])) == h
          && (Members(x.linearized[..]), x.state) in seen)
    && (forall c | c in seen :: exists h, i :: Holds(cache, h, i, c))
  }

  lemma ArraysAllocated<S>(cache: Cache<S>)
    ensures forall a | a in Arrays(cache) :: allocated(a)
  {
  }

  lemma EmptyCaches<S>(words: nat)
    ensures Caches<S>(map[], {}, words)
  {
  }

  /** `cacheContains`: equal sets share a bucket, so looking in one bucket is enough. */
  method CacheContains<S(==)>(cache: Cache<S>, entry: CacheEntry<S>, ghost seen: set<(set<int>, S)>)
    returns (found: bool)
    requires Caches(cache, seen, entry.linearized.Length)
    ensures found <==> (Members(entry.linearized[..]), entry.state) in seen
  {
    hide Caches, Members, HashOf;
    ArraysAllocated(cache);
    var word := Hash(entry.linearized);
    var hash := Key(word);
    var bucket := if hash in cache then cache[hash] else [];
    if (Members(entry.linearized[..]), entry.state) in seen {
      BucketHolds(cache, seen, entry);
    }
    for i := 0 to |bucket|
      invariant forall j | 0 <= j < i :: !Same(bucket[j], entry)
    {
      var equal := Equals(entry.linearized, bucket[i].linearized);
      if equal && entry.state == bucket[i].state {
        FoundIsSeen(cache, seen, entry, hash, i);
        return true;
      }
    }
    return false;
  }

  lemma FoundIsSeen<S>(cache: Cache<S>, seen: set<(set<int>, S)>, entry: CacheEntry<S>, hash: Key, i: int)
    requires Caches(cache, seen, entry.linearized.Length) && Stored(cache, hash, i) && Same(cache[hash][i], entry)
    ensures (Members(entry.linearized[..]), entry.state) in seen
  {
    hide Members, HashOf;
  }

  /** What `cacheContains` compares. */
  ghost predicate Same<S>(x: CacheEntry<S>, y: CacheEntry<S>)
    reads x.linearized, y.linearized
  {
    x.linearized[..] == y.linearized[..] && x.state == y.state
  }

  lemma BucketHolds<S>(cache: Cache<S>, seen: set<(set<int>, S)>, entry: CacheEntry<S>)
    requires Caches(cache, seen, entry.linearized.Length)
    requires (Members(entry.linearized[..]), entry.state) in seen
    ensures var h := Key(HashOf(entry.linearized[..]));
            h in cache && exists i :: 0 <= i < |cache[h]| && Same(cache[h][i], entry)
  {
    hide Members, HashOf;
    var c := (Members(entry.linearized[..]), entry.state);
    var h, i :| Holds(cache, h, i, c);
    assert Stored(cache, h, i);
    SameMembersSameWords(cache[h][i].linearized[..], entry.linearized[..]);
    assert Same(cache[h][i], entry);
  }

  function Append<S>(cache: Cache<S>, hash: Key, entry: CacheEntry<S>): Cache<S> {
    cache[hash := (if hash in cache then cache[hash] else []) + [entry]]
  }

  /** Appending to a bucket adds one pair to the set. */
  lemma AppendCaches<S>(cache: Cache<S>, seen: set<(set<int>, S)>, entry: CacheEntry<S>)
    requires Caches(cache, seen, entry.linearized.Length)
    ensures Caches(Append(cache, Key(HashOf(entry.linearized[..])), entry),
                   seen + {(Members(entry.linearized[..]), entry.state)}, entry.linearized.Length)
    ensures Arrays(Append(cache, Key(HashOf(entry.linearized[..])), entry)) == Arrays(cache) + {entry.linearized}
  {
    hide Members, HashOf;
    var hash, c := Key(HashOf(entry.linearized[..])), (Members(entry.linearized[..]), entry.state);
    var cache': Cache<S> := Append(cache, hash, entry);
    var k := |cache'[hash]| - 1;
    forall h, i | Stored(cache', h, i)
      ensures (h == hash && i == k && cache'[h][i] == entry) || (Stored(cache, h, i) && cache[h][i] == cache'[h][i])
    {
    }
    forall h, i | Stored(cache, h, i)
      ensures Stored(cache', h, i) && cache'[h][i] == cache[h][i]
    {
    }
    assert Stored(cache', hash, k) && cache'[hash][k] == entry;
    AppendArrays(cache, hash, entry);
    forall x | x in seen + {c}
      ensures exists h, i :: Holds(cache', h, i, x)
    {
      if x == c {
        assert Holds(cache', hash, k, x);
      } else {
        var h, i :| Holds(cache, h, i, x);
        assert Holds(cache', h, i, x);
      }
    }
  }

  lemma AppendArrays<S>(cache: Cache<S>, hash: Key, entry: CacheEntry<S>)
    ensures Arrays(Append(cache, hash, entry)) == Arrays(cache) + {entry.linearized}
  {
    var cache': Cache<S> := Append(cache, hash, entry);
    var k := |cache'[hash]| - 1;
    assert cache'[hash][k].linearized == entry.linearized;
    forall a | a in Arrays(cache)
      ensures a in Arrays(cache')
    {
      var h, i :| h in cache && 0 <= i < |cache[h]| && cache[h][i].linearized == a;
      assert cache'[h][i] == cache[h][i];
    }
  }

  /** Looks up the configuration that linearizing `id` leads to, and stores it if it is new.
      The stored bitset is a clone, so later changes of `linearized` do not reach the cache. */
  method Remember<S(==)>(
    cache: Cache<S>, linearized: array<bv64>, id: nat, newState: S, ghost seen: set<(set<int>, S)>)
    returns (isNew: bool, cache': Cache<S>)
    requires Caches(cache, seen, linearized.Length) && linearized !in Arrays(cache)
    requires id < 64 * linearized.Length
    ensures var c := (Members(linearized[..]) + {id}, newState);
            && isNew == (c !in seen)
            && Caches(cache', seen + {c}, linearized.Length)
            && linearized !in Arrays(cache')
            && fresh(Arrays(cache') - Arrays(cache))
  {
    hide Members, HashOf, Caches, Append;
    ArraysAllocated(cache);
    var newLinearized := Clone(linearized);
    Set(newLinearized, id);
    var entry := CacheEntry(newLinearized, newState);
    assert linearized.Length == newLinearized.Length;
    ghost var c := (Members(linearized[..]) + {id}, newState);
    assert c == (Members(newLinearized[..]), newState);
    var found := CacheContains(cache, entry, seen);
    isNew := !found;
    if isNew {
      var hash := Hash(newLinearized);
      AppendCaches(cache, seen, entry);
      cache' := Append(cache, Key(hash), entry);
    } else {
      cache' := cache;
      assert seen + {c} == seen;
    }
  }
}
