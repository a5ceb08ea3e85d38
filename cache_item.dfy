/** The cache entry shared by every backend (main.go, `cacheItem`) and the
    outcome types of the storage contract. Time is an integer clock reading
    passed in by the caller; a TTL is an integer duration on the same clock. */
module CacheItem {

  datatype Option<+T> = None | Some(value: T)

  /** The one error `Get` reports: "key not found or expired". */
  datatype CacheError = NotFoundOrExpired

  /** What `Get` returns: the stored value, or the error with no value. */
  datatype Result<+V> = Ok(value: V) | Err(error: CacheError)

  /** A stored value with the absolute time at which it stops being valid. */
  datatype Item<+V> = Item(value: V, expiry: int)

  /** An entry is live while the clock has not passed its expiry:
      the source rejects it only when `now` is strictly after `Expiry`,
      so at `now == expiry` the entry is still returned. */
  function Live<V>(item: Item<V>, now: int): (r: bool)
    ensures r <==> !(now > item.expiry)
    ensures now == item.expiry ==> r
  {
    now <= item.expiry
  }
}
