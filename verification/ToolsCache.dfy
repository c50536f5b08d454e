/** The tool-list cache of pkg/mcpclient/tools_list_cache.go; times are in nanoseconds. */
module ToolsCache {
  import opened Options

  datatype Result<T> = Ok(value: T) | Failed

  const DEFAULT_TTL: int := 120_000_000_000

  /** A server and the fingerprint of its configuration. */
  datatype Key = Key(id: int, fp: string)

  datatype Entry<T> = Entry(tools: T, until: int)

  function Ttl(ttl: int): (r: int)
    ensures r > 0 && (ttl > 0 ==> r == ttl)
  {
    if ttl <= 0 then DEFAULT_TTL else ttl
  }

  /** What a lookup at `now` is served from the cache. */
  function Hit<T>(entries: map<Key, Entry<T>>, key: Key, now: int): Option<T> {
    if key in entries && now < entries[key].until then Some(entries[key].tools) else None
  }

  function Unexpired<T>(entries: map<Key, Entry<T>>, now: int): map<Key, Entry<T>> {
    map k | k in entries && now < entries[k].until :: entries[k]
  }

  predicate Outdated(k: Key, key: Key) {
    k.id == key.id && k.fp != key.fp
  }

  /** Without the entries of the server's other fingerprints. */
  function Current<T>(entries: map<Key, Entry<T>>, key: Key): map<Key, Entry<T>> {
    map k | k in entries && !Outdated(k, key) :: entries[k]
  }

  /** Expired entries and those of the server's other fingerprints go, then the new entry is put. */
  function Stored<T>(entries: map<Key, Entry<T>>, key: Key, tools: T, now: int, ttl: int): map<Key, Entry<T>> {
    Current(Unexpired(entries, now), key)[key := Entry(tools, now + ttl)]
  }

  function Invalidated<T>(entries: map<Key, Entry<T>>, id: int): map<Key, Entry<T>> {
    if id <= 0 then entries else map k | k in entries && k.id != id :: entries[k]
  }

  class Cache<T> {
    var toolEntries: map<Key, Entry<T>>

    constructor ()
      ensures toolEntries == map[]
    {
      toolEntries := map[];
    }

    /** One call with nobody else at work: `fetched` is what the server would answer. */
    method ListToolsCached(server: Option<Key>, ttl: int, now: int, fetched: Result<T>) returns (r: Result<T>)
      modifies this
      ensures server.None? ==> r == Failed && toolEntries == old(toolEntries)
      ensures server.Some? && server.value.id <= 0 ==> r == fetched && toolEntries == old(toolEntries)
      ensures server.Some? && server.value.id > 0 ==>
                var hit := Hit(old(toolEntries), server.value, now);
                if hit.Some? then r == Ok(hit.value) && toolEntries == old(toolEntries)
                else
                  && r == fetched
                  && toolEntries == if fetched.Failed? then old(toolEntries)
                                    else Stored(old(toolEntries), server.value, fetched.value, now, Ttl(ttl))
    {
      if server.None? {
        return Failed;
      }
      var key := server.value;
      if key.id <= 0 {
        return fetched;
      }
      var lifetime := ttl;
      if lifetime <= 0 {
        lifetime := DEFAULT_TTL;
      }
      if key in toolEntries && now < toolEntries[key].until {
        return Ok(toolEntries[key].tools);
      }
      if fetched.Failed? {
        return Failed;
      }
      Store(key, fetched.value, now, lifetime);
      return fetched;
    }

    method Store(key: Key, tools: T, now: int, ttl: int)
      modifies this
      ensures toolEntries == Stored(old(toolEntries), key, tools, now, ttl)
    {
      SweepExpired(now);
      SweepOutdated(key);
      toolEntries := toolEntries[key := Entry(tools, now + ttl)];
    }

    method SweepExpired(now: int)
      modifies this
      ensures toolEntries == Unexpired(old(toolEntries), now)
    {
      ghost var all := toolEntries;
      var left: set<Key> := toolEntries.Keys;
      while left != {}
        invariant left <= all.Keys
        invariant toolEntries == map k | k in all && (k in left || now < all[k].until) :: all[k]
        decreases left
      {
        assert (forall k :: k !in left) ==> left == {};
        var k :| k in left;
        left := left - {k};
        if now >= toolEntries[k].until {
          toolEntries := toolEntries - {k};
        }
      }
    }

    method SweepOutdated(key: Key)
      modifies this
      ensures toolEntries == Current(old(toolEntries), key)
    {
      ghost var all := toolEntries;
      var left: set<Key> := toolEntries.Keys;
      while left != {}
        invariant left <= all.Keys
        invariant toolEntries == map k | k in all && (k in left || !Outdated(k, key)) :: all[k]
        decreases left
      {
        assert (forall k :: k !in left) ==> left == {};
        var k :| k in left;
        left := left - {k};
        if k.id == key.id && k.fp != key.fp {
          toolEntries := toolEntries - {k};
        }
      }
    }

    method InvalidateServerTools(id: int)
      modifies this
      ensures toolEntries == Invalidated(old(toolEntries), id)
    {
      if id <= 0 {
        return;
      }
      ghost var all := toolEntries;
      var left: set<Key> := toolEntries.Keys;
      while left != {}
        invariant left <= all.Keys
        invariant toolEntries == map k | k in all && (k in left || k.id != id) :: all[k]
        decreases left
      {
        assert (forall k :: k !in left) ==> left == {};
        var k :| k in left;
        left := left - {k};
        if k.id == id {
          toolEntries := toolEntries - {k};
        }
      }
    }
  }

  ghost predicate OneFingerprint<T>(entries: map<Key, Entry<T>>) {
    forall a, b :: a in entries && b in entries && a.id == b.id ==> a == b
  }

  lemma StoredOneFingerprint<T>(entries: map<Key, Entry<T>>, key: Key, tools: T, now: int, ttl: int)
    requires OneFingerprint(entries)
    ensures OneFingerprint(Stored(entries, key, tools, now, ttl))
  {
  }
}
