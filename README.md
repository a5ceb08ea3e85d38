# TTL cache backends, modelled in Dafny

This project models the key-value table with time-to-live (TTL) expiry that
sits behind the `CacheStorage` interface of `main.go` (`Get`, `Put`, `Delete`,
`Stop`), in its three in-process backends:

- `MemoryStorage`: a table `map[string]cacheItem` and nothing else.
- `FileStorage` and `S3Storage`: the same table, plus a whole-table mirror on
  a medium (a local file, or one object in a bucket). The table is loaded from
  the mirror on construction. The mirror is rewritten with the whole table
  after every `Put`, every `Delete`, every failing `Get`, and on `Stop`. The two
  bodies are line-for-line the same apart from the save call, so one class,
  `MirroredStorage`, stands for both.

A cache entry (`CacheItem.Item`) is a value and an absolute expiry time.
`Put(key, value, ttl)` at time `now` stores `Item(value, now + ttl)` and
replaces any earlier entry. `Get(key)` returns the value while the entry is
live. Otherwise it deletes the key and fails with `NotFoundOrExpired`, the one
error of the contract, which covers both "never stored" and "expired".
`Delete` removes the key and never fails.

The clock is an integer argument `now` on each call that reads the clock
(`Get` and `Put`). Durations are integers
on the same clock.

The source decides expiry with `time.Now().After(item.Expiry)`. So an entry is
live while `now <= expiry`, and at `now == expiry` it is still returned
(`CacheItem.Live`).

Files and modules:

- `cache_item.dfy`, module `CacheItem`: the entry, the error, `Live`.
- `ttl_table.dfy`, module `TtlTable`: the table operations as functions. Each
  one's contract says what the operation does to the table and what `Get` then
  answers.
- `history.dfy`, module `History`: a File/S3 backend's state as a `Store`
  (table plus mirror), one call as `Step`, and a sequence of calls as `Run`.
  Lemmas by induction over histories state what holds after any sequence of
  calls: the mirror stays in sync, a reopened backend sees the same table,
  entries come from the latest `Put`, and deleted or expired keys stay gone.
- `storage.dfy`, module `Storage`: the classes `MemoryStorage` and
  `MirroredStorage`, whose methods update the `cache` field (and `persisted`,
  the mirror) in place. They are specified by the functions above. There are
  also three client methods that replay an overwrite, an expiry and a restart
  scenario.

## Model

| member | source | states |
|---|---|---|
| CacheItem.Live | main.go:44 | An entry is live iff `now <= expiry`, the negation of the source's `time.Now().After(item.Expiry)`; at `now == expiry` it is still live and returned. The same test is at main.go:102 and main.go:233. |
| TtlTable.Lookup | main.go:39-48 | `Get` succeeds exactly when the key is present and the clock has not passed its expiry (`now == expiry` still succeeds). It then yields the stored value. Every failure is `NotFoundOrExpired`. |
| TtlTable.AfterGet | main.go:43-46 | A successful `Get` leaves the table unchanged. A failing one removes exactly the key. On an absent key the table is unchanged. No entry is added or altered. |
| TtlTable.AfterPut | main.go:51-57 | `Put` sets the key to `Item(value, now + ttl)` whatever was there before. Other keys are kept. A later `Get` at any time up to `now + ttl` returns the value, and after that it fails. |
| TtlTable.AfterDelete | main.go:59-65 | `Delete` removes exactly the key and keeps every other entry. A `Get` of that key then fails at every time. |
| TtlTable.DeleteIdempotent | main.go:59-65 | Deleting a key twice leaves the same table as deleting it once. |
| TtlTable.Load | main.go:85-90 | On construction, a medium that holds a decodable table gives that table. Otherwise the table is empty. |
| History.Open | main.go:79-83 | A File/S3 backend starts with the loaded table, and its medium is not touched. |
| History.Saves | main.go:97-131 | Every call except a `Get` that finds a live entry rewrites the medium: `Put`, `Delete` and `Stop` always do, and a `Get` does exactly when the key is absent or expired (main.go:104, 115, 124, 129). |
| History.Step | main.go:97-131 | Every call except a `Get` that finds a live entry leaves the medium equal to the new table. A successful `Get` changes neither the table nor the medium. `Put`, `Delete` and `Stop` return nil. |
| History.TableIgnoresMirror | main.go:39-69 | Started on the same table, the memory backend and the File/S3 backends hold the same table after any history of calls. So they give the same answers. The memory backend's methods are proved to change their table as `Step` does, so every history lemma applies to it too. |
| History.SyncedStaysSynced | main.go:97-108 | Once the medium equals the table, it equals the table after any further history. That includes successful reads, which do not save. |
| History.SyncedAfterSave | main.go:110-131 | After any history that contains a `Put`, `Delete` or `Stop`, the medium holds exactly the in-memory table. |
| History.ReopenAfterSave | main.go:79-90 | A backend reopened on the medium after such a history (for example one ending in `Stop`) starts with the same table. It answers every `Get` as the old instance would. |
| History.ReopenAnyHistory | main.go:79-131 | For a backend opened on any medium, after any history of calls (even one that never saved), a backend reopened on the medium starts with exactly the current table: `Load` of the mirror always equals the table. |
| History.EntryFromLatestWrite | main.go:51-65 | Every entry present after a history was stored by the latest `Put`/`Delete` of its key. That latest write is a `Put`, and the entry has its value and expiry. If no call wrote the key, the entry is the initial one. |
| History.DeletedStaysGone | main.go:59-65 | After a `Delete` of a key, with no later `Put` of it, the key is absent and `Get` fails, whatever calls come between. |
| History.ExpiredAfterTtl | main.go:43-46 | Once the clock is past `now + ttl` of the key's latest `Put`, `Get` fails with `NotFoundOrExpired`. |
| History.LiveWithinTtl | main.go:39-57 | The clock must never go back. Under that, a `Get` within the TTL of the key's latest `Put` returns that `Put`'s value, whatever other calls came between. |
| Storage.MemoryStorage.constructor | main.go:35-37 | A new memory backend has an empty table. |
| Storage.MemoryStorage.Get | main.go:39-49 | Returns `Lookup` of the old table, and the table becomes `AfterGet` of it: unchanged on success, without the key on failure. This is also the table component of `Step` on the same call. |
| Storage.MemoryStorage.Put | main.go:51-57 | Returns nil, and the table becomes `AfterPut` of the old one. This is also the table component of `Step` on the same call. |
| Storage.MemoryStorage.Delete | main.go:59-65 | Returns nil, and the table becomes `AfterDelete` of the old one. This is also the table component of `Step` on the same call. |
| Storage.MemoryStorage.Stop | main.go:67-69 | Returns nil and changes nothing. |
| Storage.MirroredStorage.constructor | main.go:79-90 | Table and medium are `Open(medium)`: the decoded mirror, or empty. The same holds for `NewS3Storage` (main.go:187-212) once its session has been created; a session error panics there and is not modelled. |
| Storage.MirroredStorage.Save | main.go:92-95 | The medium is overwritten with the whole table. The same holds for `saveToS3` (main.go:214-221). |
| Storage.MirroredStorage.Get | main.go:97-108 | Returns `Lookup` of the old table, which is the reply `Step` gives for the call. The state is `Step` of the old one: on success nothing changes, and on failure the key is gone and the medium equals the table. The same holds for S3 (main.go:228-239). |
| Storage.MirroredStorage.Put | main.go:110-117 | Returns nil. The table is `AfterPut` of the old one, and the medium equals it. The same holds for S3 (main.go:241-248). |
| Storage.MirroredStorage.Delete | main.go:119-126 | Returns nil. The table is `AfterDelete` of the old one, and the medium equals it. The same holds for S3 (main.go:250-257). |
| Storage.MirroredStorage.Stop | main.go:128-131 | Returns nil. The table is unchanged and the medium equals it. The same holds for S3 (main.go:259-262). |
| Storage.OverwriteScenario | main.go:51-57 | Two `Put`s of one key followed by a `Get` return the second value. |
| Storage.ExpiryScenario | main.go:39-57 | An entry put with TTL 5 at time 0 is returned at time 5. At time 6 the `Get` fails and removes the key. |
| Storage.RestartScenario | main.go:110-131 | After `Put("a")`, `Put("b")`, `Delete("b")` and `Stop`, a new backend on the same medium returns "1" for "a" and fails for "b". |

## Left out

- `RedisStorage` (main.go:135-175). Its table and TTL live in the remote service, so there is no local state to model. It also swallows JSON decoding errors.
- JSON encoding and decoding of the table. The model assumes a saved table decodes to the same table. In Go, an `interface{}` value does not always survive this: a number comes back as `float64`, for example. An expiry also loses its monotonic clock reading.
- Values JSON cannot encode. If any value in the table is a NaN, a channel or a func, `json.Marshal` fails (main.go:93, main.go:215), the error is discarded and empty data is written. A reopen then starts with an empty table, where `ReopenAfterSave` promises the same table.
- `saveToS3` (main.go:214-226) does not compile as written. `stringReader` returns a `*string`, which is not an `io.Reader`, so it cannot be passed to `ioutil.NopCloser`. `PutObjectInput.Body` also needs an `io.ReadSeeker`, which an `io.ReadCloser` is not. The model gives `saveToS3` its evident meaning, an upload of the whole encoded table, the same as `saveToFile`.
- Mirror contents that decode partly. If an entry has the wrong JSON type, `json.Unmarshal` can leave a partly loaded table. The model treats such a mirror as decoding wholly or not at all.
- A mirror that holds JSON `null`. Go would load it as a nil map, and a later `Put` would panic. The model treats this mirror like one that does not decode (`None`).
- File and S3 I/O (`ioutil.ReadFile`/`WriteFile`, `GetObject`, `ioutil.ReadAll`, `PutObject`, `stringReader`). A failed load (`ReadFile` at main.go:86-87, `GetObject` at main.go:203-207) is tested and leaves the table empty; the model folds it into a medium that does not decode (`None`). The errors of `ReadAll` (main.go:209), `json.Unmarshal`/`json.Marshal` (main.go:88, 93, 210, 215), `WriteFile` (main.go:94) and `PutObject` (main.go:216) are discarded, so they never affect a return value. The medium is modelled as a field that every save overwrites with the whole table. A failed save is not modelled: a failed open or `PutObject` leaves the old content, while `WriteFile` truncates the file first, so a write that fails or is cut off leaves an empty or partial file. A reopen can then load nothing or only part of the table, which `ReopenAfterSave` and `ReopenAnyHistory` do not allow for.
- `Storage.MirroredStorage.constructor`: does not model the S3 session failure. `NewS3Storage` wraps `session.NewSession` in `session.Must` (main.go:188-190), which panics on a session error, so construction never returns; the model's constructor always succeeds.
- `sync.Mutex` locking. The model is sequential.
- `time.Now()` and `time.Duration`. The clock is an integer parameter, and durations are unbounded integers. Overflow of `time.Time.Add` is not modelled.
- `main()`, the demo at main.go:265-293.
