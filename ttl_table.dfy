/** The key-value table with lazy TTL expiry that MemoryStorage, FileStorage
    and S3Storage hold in their `cache` field. Each function gives the result
    or the new table of one operation; the classes in module Storage are
    specified by them. */
module TtlTable {
  import opened CacheItem

  type Table<V> = map<string, Item<V>>

  /** The value `Get(key)` returns at time `now`. */
  function Lookup<V>(t: Table<V>, key: string, now: int): (r: Result<V>)
    ensures r.Ok? <==> key in t && Live(t[key], now)
    ensures r.Ok? ==> r.value == t[key].value
    ensures r.Err? ==> r.error == NotFoundOrExpired
  {
    if key !in t || !Live(t[key], now) then Err(NotFoundOrExpired)
    else Ok(t[key].value)
  }

  /** The table after `Get(key)` at time `now`: a failing read deletes the key. */
  function AfterGet<V>(t: Table<V>, key: string, now: int): (r: Table<V>)
    ensures Lookup(t, key, now).Ok? ==> r == t
    ensures Lookup(t, key, now).Err? ==> r.Keys == t.Keys - {key}
    ensures key !in t ==> r == t
    ensures forall j :: j in r ==> j in t && r[j] == t[j]
  {
    if Lookup(t, key, now).Ok? then t else t - {key}
  }

  /** The table after `Put(key, value, ttl)` at time `now`. */
  function AfterPut<V>(t: Table<V>, key: string, value: V, ttl: int, now: int): (r: Table<V>)
    ensures r.Keys == t.Keys + {key}
    ensures r[key] == Item(value, now + ttl)
    ensures forall j :: j in t && j != key ==> r[j] == t[j]
    ensures forall later :: now <= later <= now + ttl ==> Lookup(r, key, later) == Ok(value)
    ensures forall later :: now + ttl < later ==> Lookup(r, key, later).Err?
  {
    t[key := Item(value, now + ttl)]
  }

  /** The table after `Delete(key)`. */
  function AfterDelete<V>(t: Table<V>, key: string): (r: Table<V>)
    ensures r.Keys == t.Keys - {key}
    ensures forall j :: j in r ==> r[j] == t[j]
    ensures forall now :: Lookup(r, key, now).Err?
  {
    t - {key}
  }

  /** The table a FileStorage or S3Storage starts with: the mirrored table if
      the medium held one that decodes, otherwise an empty one. */
  function Load<V>(medium: Option<Table<V>>): (r: Table<V>)
    ensures medium.None? ==> r == map[]
    ensures medium.Some? ==> r == medium.value
  {
    if medium.Some? then medium.value else map[]
  }

  /** Deleting twice is the same as deleting once. */
  lemma DeleteIdempotent<V>(t: Table<V>, key: string)
    ensures AfterDelete(AfterDelete(t, key), key) == AfterDelete(t, key)
  {
  }
}
