/** The backends of main.go that keep their table in process memory.
    MemoryStorage holds only the table. MirroredStorage is FileStorage and
    S3Storage, whose bodies are identical apart from where the whole-table
    mirror lives (a local file, an object in a bucket): `persisted` is that
    medium's content, overwritten by every save. */
module Storage {
  import opened CacheItem
  import opened TtlTable
  import opened History

  class MemoryStorage<V> {
    var cache: Table<V>

    /** NewMemoryStorage: an empty table. */
    constructor ()
      ensures cache == map[]
    {
      cache := map[];
    }

    /** Returns the value of a live entry; otherwise deletes the key and fails. */
    method Get(key: string, now: int) returns (r: Result<V>)
      modifies this
      ensures r == Lookup(old(cache), key, now)
      ensures cache == AfterGet(old(cache), key, now)
      ensures cache == Step(Store(old(cache), None), Event(Op.Get(key), now)).0.table
      ensures r.Ok? ==> cache == old(cache)
      ensures r.Err? ==> key !in cache
    {
      if key !in cache || !Live(cache[key], now) {
        cache := cache - {key};
        return Err(NotFoundOrExpired);
      }
      return Ok(cache[key].value);
    }

    /** Stores `value` until `now + ttl`, replacing any entry for `key`. */
    method Put(key: string, value: V, ttl: int, now: int) returns (err: Option<CacheError>)
      modifies this
      ensures err == None
      ensures cache == AfterPut(old(cache), key, value, ttl, now)
      ensures cache == Step(Store(old(cache), None), Event(Op.Put(key, value, ttl), now)).0.table
    {
      cache := cache[key := Item(value, now + ttl)];
      return None;
    }

    /** Removes `key` if present; never fails. */
    method Delete(key: string) returns (err: Option<CacheError>)
      modifies this
      ensures err == None
      ensures cache == AfterDelete(old(cache), key)
      // Delete never reads the clock, and Step ignores `now` for it
      ensures cache == Step(Store(old(cache), None), Event(Op.Delete(key), 0)).0.table
    {
      cache := cache - {key};
      return None;
    }

    /** Nothing to release. */
    method Stop() returns (err: Option<CacheError>)
      ensures err == None
    {
      return None;
    }
  }

  class MirroredStorage<V> {
    var cache: Table<V>
    var persisted: Option<Table<V>>

    /** The backend's table and its medium, as one store. */
    function State(): Store<V>
      reads this
    {
      Store(cache, persisted)
    }

    /** NewFileStorage / NewS3Storage: the table is loaded from the medium if
        the medium holds a table that decodes, and is empty otherwise. */
    constructor (medium: Option<Table<V>>)
      ensures State() == Open(medium)
      ensures cache == Load(medium) && persisted == medium
    {
      cache := Load(medium);
      persisted := medium;
    }

    /** saveToFile / saveToS3: overwrite the medium with the whole table. */
    method Save()
      modifies this`persisted
      ensures persisted == Some(cache)
    {
      persisted := Some(cache);
    }

    method Get(key: string, now: int) returns (r: Result<V>)
      modifies this
      ensures r == Lookup(old(cache), key, now)
      ensures State() == Step(old(State()), Event(Op.Get(key), now)).0
      ensures Step(old(State()), Event(Op.Get(key), now)).1 ==
                (if r.Ok? then Found(r.value) else Failed(r.error))
      ensures r.Ok? ==> cache == old(cache) && persisted == old(persisted)
      ensures r.Err? ==> key !in cache && persisted == Some(cache)
    {
      if key !in cache || !Live(cache[key], now) {
        cache := cache - {key};
        Save();
        return Err(NotFoundOrExpired);
      }
      return Ok(cache[key].value);
    }

    method Put(key: string, value: V, ttl: int, now: int) returns (err: Option<CacheError>)
      modifies this
      ensures err == None
      ensures State() == Step(old(State()), Event(Op.Put(key, value, ttl), now)).0
      ensures cache == AfterPut(old(cache), key, value, ttl, now) && persisted == Some(cache)
    {
      cache := cache[key := Item(value, now + ttl)];
      Save();
      return None;
    }

    method Delete(key: string) returns (err: Option<CacheError>)
      modifies this
      ensures err == None
      // Delete never reads the clock, and Step ignores `now` for it
      ensures State() == Step(old(State()), Event(Op.Delete(key), 0)).0
      ensures cache == AfterDelete(old(cache), key) && persisted == Some(cache)
    {
      cache := cache - {key};
      Save();
      return None;
    }

    /** A final save of the whole table. */
    method Stop() returns (err: Option<CacheError>)
      modifies this
      ensures err == None
      // Stop never reads the clock, and Step ignores `now` for it
      ensures State() == Step(old(State()), Event(Op.Stop, 0)).0
      ensures cache == old(cache) && persisted == Some(cache)
    {
      Save();
      return None;
    }
  }

  /** Put("k", "v1"), Put("k", "v2"), then Get("k") returns "v2", never "v1". */
  method OverwriteScenario() returns (r: Result<string>)
    ensures r == Ok("v2")
  {
    var m := new MemoryStorage<string>();
    var _ := m.Put("k", "v1", 10, 0);
    var _ := m.Put("k", "v2", 10, 1);
    r := m.Get("k", 2);
  }

  /** Put("test", "value", 5) at time 0: a Get at time 5 still returns the
      value; a Get at time 6 fails and removes the key. */
  method ExpiryScenario() returns (early: Result<string>, late: Result<string>, left: bool)
    ensures early == Ok("value")
    ensures late == Err(NotFoundOrExpired)
    ensures !left
  {
    var m := new MemoryStorage<string>();
    var _ := m.Put("test", "value", 5, 0);
    early := m.Get("test", 5);
    late := m.Get("test", 6);
    left := "test" in m.cache;
  }

  /** Put("a", "1", 10), Stop, then a new File or S3 backend on the same
      medium returns "1" for "a"; a Delete before Stop makes it fail. */
  method RestartScenario(medium: Option<Table<string>>) returns (kept: Result<string>, dropped: Result<string>)
    ensures kept == Ok("1")
    ensures dropped == Err(NotFoundOrExpired)
  {
    var f := new MirroredStorage<string>(medium);
    var _ := f.Put("a", "1", 10, 0);
    var _ := f.Put("b", "2", 10, 0);
    var _ := f.Delete("b");
    var _ := f.Stop();
    var g := new MirroredStorage<string>(f.persisted);
    kept := g.Get("a", 3);
    dropped := g.Get("b", 3);
  }
}
