/** Histories of calls on one backend instance. A File or S3 backend's state
    is its table plus the mirror on its medium; `Step` is one call of the
    storage contract, `Run` a sequence of them. The lemmas state what holds
    after any history, not just after one call. */
module History {
  import opened CacheItem
  import opened TtlTable

  /** One call of the storage contract. */
  datatype Op<V> =
    | Put(key: string, value: V, ttl: int)
    | Get(key: string)
    | Delete(key: string)
    | Stop

  /** A call together with the clock reading at which it runs. */
  datatype Event<V> = Event(op: Op<V>, now: int)

  /** What a call returns: `Found`/`Failed` are the two cases of a `Get`'s
      `Result`; `Nil` is the nil error of `Put`, `Delete` and `Stop`. */
  datatype Reply<V> = Found(value: V) | Failed(error: CacheError) | Nil

  /** The table of a backend and the table its medium holds (None when the
      medium holds nothing that decodes). The memory backend has no medium;
      its methods are proved to change their table as `Step` changes `table`. */
  datatype Store<V> = Store(table: Table<V>, mirror: Option<Table<V>>)

  /** The store a File or S3 backend is constructed with. */
  function Open<V>(medium: Option<Table<V>>): (s: Store<V>)
    ensures s.mirror == medium
    ensures medium.Some? ==> s.table == medium.value
    ensures medium.None? ==> s.table == map[]
  {
    Store(Load(medium), medium)
  }

  /** Whether the call rewrites the medium with the whole table: every call
      except a `Get` that finds a live entry. */
  function Saves<V>(t: Table<V>, e: Event<V>): (r: bool)
    ensures !e.op.Get? ==> r
    ensures e.op.Get? ==> (r <==> e.op.key !in t || !Live(t[e.op.key], e.now))
  {
    !(e.op.Get? && Lookup(t, e.op.key, e.now).Ok?)
  }

  /** One call on a File or S3 backend: the new store and the reply. */
  function Step<V>(s: Store<V>, e: Event<V>): (r: (Store<V>, Reply<V>))
    ensures Saves(s.table, e) ==> r.0.mirror == Some(r.0.table)
    ensures !Saves(s.table, e) ==> r.0 == s
    ensures !e.op.Get? ==> r.1 == Nil
  {
    var t := match e.op
      case Put(k, v, ttl) => AfterPut(s.table, k, v, ttl, e.now)
      case Get(k) => AfterGet(s.table, k, e.now)
      case Delete(k) => AfterDelete(s.table, k)
      case Stop => s.table;
    var reply := match e.op
      case Get(k) => (match Lookup(s.table, k, e.now)
                      case Ok(v) => Found(v)
                      case Err(x) => Failed(x))
      case _ => Nil;
    (Store(t, if Saves(s.table, e) then Some(t) else s.mirror), reply)
  }

  /** The store after every call of `h`, in order. */
  function Run<V>(s: Store<V>, h: seq<Event<V>>): Store<V>
    decreases |h|
  {
    if h == [] then s else Step(Run(s, h[..|h| - 1]), h[|h| - 1]).0
  }

  /** Whether `op` is a `Put` or a `Delete` of `k`. */
  predicate Writes<V>(op: Op<V>, k: string)
  {
    match op
    case Put(j, _, _) => j == k
    case Delete(j) => j == k
    case _ => false
  }

  /** The last `Put` or `Delete` of `k` in `h`, if any. */
  function LatestWrite<V>(h: seq<Event<V>>, k: string): (r: Option<Event<V>>)
    ensures r.None? ==> forall i :: 0 <= i < |h| ==> !Writes(h[i].op, k)
    ensures r.Some? ==> Writes(r.value.op, k)
    ensures r.Some? ==>
              exists j :: 0 <= j < |h| && h[j] == r.value &&
                          forall i :: j < i < |h| ==> !Writes(h[i].op, k)
    decreases |h|
  {
    if h == [] then None
    else if Writes(h[|h| - 1].op, k) then Some(h[|h| - 1])
    else LatestWrite(h[..|h| - 1], k)
  }

  /** The clock never goes back along `h`. */
  predicate Monotone<V>(h: seq<Event<V>>)
  {
    forall i, j :: 0 <= i < j < |h| ==> h[i].now <= h[j].now
  }

  /** The table never depends on the mirror: the memory backend and the
      File and S3 backends, started on the same table, hold the same table
      after any history and so answer every `Get` alike. */
  lemma {:induction false} TableIgnoresMirror<V>(s: Store<V>, s': Store<V>, h: seq<Event<V>>)
    requires s.table == s'.table
    ensures Run(s, h).table == Run(s', h).table
    decreases |h|
  {
    if h != [] {
      TableIgnoresMirror(s, s', h[..|h| - 1]);
    }
  }

  /** Once the mirror equals the table, it keeps equalling it. */
  lemma {:induction false} SyncedStaysSynced<V>(s: Store<V>, h: seq<Event<V>>)
    requires s.mirror == Some(s.table)
    ensures Run(s, h).mirror == Some(Run(s, h).table)
    decreases |h|
  {
    if h != [] {
      SyncedStaysSynced(s, h[..|h| - 1]);
    }
  }

  /** After any history holding a `Put`, `Delete` or `Stop`, the medium holds
      exactly the table. */
  lemma {:induction false} SyncedAfterSave<V>(s: Store<V>, h: seq<Event<V>>, i: nat)
    requires i < |h| && !h[i].op.Get?
    ensures Run(s, h).mirror == Some(Run(s, h).table)
    decreases |h|
  {
    if i < |h| - 1 {
      SyncedAfterSave(s, h[..|h| - 1], i);
      SyncedStaysSynced(Run(s, h[..|h| - 1]), [h[|h| - 1]]);
      assert Run(Run(s, h[..|h| - 1]), [h[|h| - 1]]) == Run(s, h);
    }
  }

  /** A new File or S3 backend opened on the medium after such a history
      starts with the same table, and so returns the same live values. */
  lemma {:induction false} ReopenAfterSave<V>(s: Store<V>, h: seq<Event<V>>, i: nat, k: string, now: int)
    requires i < |h| && !h[i].op.Get?
    ensures Open(Run(s, h).mirror).table == Run(s, h).table
    ensures Lookup(Open(Run(s, h).mirror).table, k, now) == Lookup(Run(s, h).table, k, now)
  {
    SyncedAfterSave(s, h, i);
  }

  /** For a backend opened on any medium, the medium always holds what a
      reopen loads as the current table, whether or not a call has saved. */
  lemma {:induction false} ReopenAnyHistory<V>(medium: Option<Table<V>>, h: seq<Event<V>>)
    ensures Load(Run(Open(medium), h).mirror) == Run(Open(medium), h).table
    decreases |h|
  {
    if h != [] {
      ReopenAnyHistory(medium, h[..|h| - 1]);
    }
  }

  /** Every entry in the table was stored by the latest write of its key,
      which is a `Put` (not a `Delete`) with the entry's value and expiry,
      or, when no call wrote the key, was already in the initial table. */
  lemma {:induction false} EntryFromLatestWrite<V>(s: Store<V>, h: seq<Event<V>>, k: string)
    requires k in Run(s, h).table
    ensures LatestWrite(h, k).None? ==> k in s.table && Run(s, h).table[k] == s.table[k]
    ensures LatestWrite(h, k).Some? ==>
              var e := LatestWrite(h, k).value;
              e.op.Put? && Run(s, h).table[k] == Item(e.op.value, e.now + e.op.ttl)
    decreases |h|
  {
    if h != [] && !Writes(h[|h| - 1].op, k) {
      EntryFromLatestWrite(s, h[..|h| - 1], k);
    }
  }

  /** After a `Delete` of `k`, `k` stays absent until it is put again. */
  lemma {:induction false} DeletedStaysGone<V>(s: Store<V>, h: seq<Event<V>>, k: string, now: int)
    requires LatestWrite(h, k).Some? && LatestWrite(h, k).value.op.Delete?
    ensures k !in Run(s, h).table
    ensures Lookup(Run(s, h).table, k, now) == Err(NotFoundOrExpired)
  {
    if k in Run(s, h).table {
      EntryFromLatestWrite(s, h, k);
    }
  }

  /** Once the TTL of the latest `Put` of `k` has elapsed, `Get(k)` fails. */
  lemma {:induction false} ExpiredAfterTtl<V>(s: Store<V>, h: seq<Event<V>>, k: string, now: int)
    requires LatestWrite(h, k).Some? && LatestWrite(h, k).value.op.Put?
    requires now > LatestWrite(h, k).value.now + LatestWrite(h, k).value.op.ttl
    ensures Lookup(Run(s, h).table, k, now) == Err(NotFoundOrExpired)
  {
    if k in Run(s, h).table {
      EntryFromLatestWrite(s, h, k);
    }
  }

  /** With a clock that never goes back, `Get(k)` within the TTL of the
      latest `Put(k, v, ttl)` returns `v`, whatever other calls came between:
      the entry is still there, with that value and expiry. */
  lemma {:induction false} LiveWithinTtl<V>(s: Store<V>, h: seq<Event<V>>, k: string, now: int)
    requires Monotone(h) && (h != [] ==> h[|h| - 1].now <= now)
    requires LatestWrite(h, k).Some? && LatestWrite(h, k).value.op.Put?
    requires now <= LatestWrite(h, k).value.now + LatestWrite(h, k).value.op.ttl
    ensures var e := LatestWrite(h, k).value;
            k in Run(s, h).table && Run(s, h).table[k] == Item(e.op.value, e.now + e.op.ttl)
    ensures Lookup(Run(s, h).table, k, now) == Ok(LatestWrite(h, k).value.op.value)
    decreases |h|
  {
    var last := h[|h| - 1];
    var init := h[..|h| - 1];
    if !Writes(last.op, k) {
      assert LatestWrite(init, k) == LatestWrite(h, k);
      assert Monotone(init);
      assert init != [] ==> init[|init| - 1].now <= last.now;
      LiveWithinTtl(s, init, k, last.now);
    }
  }
}
