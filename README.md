# msession in Dafny

A model of the session core of the Go package `session` (guotie/msession). Each
request gets a session handle. The handle reads the signed cookie `signature-id`,
binds that id to a record in a backend and lets the request read and change the
record. It also tracks two dirty flags: `shouldset` (write the record back) and
`shouldsave` (send a cookie). A record is a map from keys to values. Two keys are
reserved: `_expires`, the absolute expiry time, and `_flash`, a queue of one-shot
messages. The in-process backend `memstore` keeps the record objects themselves and
expires them lazily: `Get` deletes an entry whose `_expires` is strictly before the
current time. A process-wide registry maps backend names to backends.

Modules, one per part of the package:

- `Record` (`record.dfy`) holds the record values, the record as a shared object
  (`Data`, since a Go map is a reference) and the pure record operations: creation,
  expiry, flash push and drain, and whole-second truncation.
- `Cookie` (`cookie.dfy`) splits the cookie value at the first hyphen and builds it
  as `sign(key) + "-" + key`.
- `Memory` (`memory.dfy`) is `memstore`, as the class `MemStore`.
- `Registry` (`registry.dfy`) holds `Register`, the `stores` map (class `Stores`) and
  the `Open` stub.
- `Sessions` (`session.dfy`) is the `session` handle, as the class `Session`.
- `Scenarios` (`scenarios.dfy`) composes whole request sequences from the package's
  tests against the memory backend.

Conventions:

- Time is an integer count of nanoseconds, the unit of Go's `time.Duration`, and the
  current time is the parameter `now`.
- `Sign` and `Verify` are the function-valued parameters `sign` and `verify`.
- The default lifetime `maxAge` and the backend's `Memory()` answer are fixed when a
  handle is built.
- The id that `Create` mints is the parameter `id`.
- `SetStore` returns a second value, `ttl`: the timeout it hands to the backend's
  `Set`. `memstore` ignores that timeout, so the model returns it to make it
  observable.
- The model follows the code as written:
  - `Open` returns no backend and no error instead of looking the name up.
  - `Init` sets `status` even when the backend returns no record.
  - With the memory backend, `SetKey`, `DelKey` and `Refresh` do not set `shouldset`.

## Model

| member | source | states |
|---|---|---|
| `Record.NewRecord` | session.go:233-239 | the new record holds only `_expires`: `age` seconds after now when `age > 0`, otherwise `maxAge` seconds after now |
| `Record.NewRecordLifetime` | session.go:235-236 | a record created with a positive `age` is expired at a later time exactly when that time is more than `age` seconds after creation |
| `Record.WholeSeconds` | session.go:269-271 | nanoseconds to whole seconds, truncated toward zero: bounds for positive and for negative durations |
| `Record.WholeSecondsOdd` | session.go:271 | the truncation is symmetric: a negated duration gives the negated count of seconds |
| `Record.PushFlash` | session.go:365-371 | appending a flash extends the queue by exactly that value at the end and leaves every other key unchanged |
| `Record.DrainFlashes` | session.go:378-385 | draining returns the whole queue and removes `_flash` and nothing else; the drained record has an empty queue |
| `Record.FlashesDrainOnce` | session.go:362-386 | after any number of flashes are added, one drain returns the earlier queue followed by all of them in insertion order, and a second drain returns nothing |
| `Cookie.FirstIndex` | session.go:181 | -1 exactly when the character is absent; otherwise the position of its first occurrence |
| `Cookie.ParseCookie` | session.go:181-185 | fails exactly when the value has no hyphen before its last character; otherwise splits into a hyphen-free signature and a non-empty id that rejoin to the value |
| `Cookie.CookieValue` | session.go:306 | the cookie value is the signature, a hyphen, then the key |
| `Cookie.CookieRoundTrip` | session.go:181-192 | splitting the value Save builds gives back `sign(key)` and `key` when the signature has no hyphen and the key is not empty |
| `Memory.MemStore.Open` | memory.go:18-20 | a new backend has an empty map |
| `Memory.MemStore.Get` | memory.go:23-43 | a live entry is returned itself and nothing changes; an absent key gives nil and nothing changes; an entry whose expiry is strictly before now is deleted and gives nil, other entries unchanged |
| `Memory.MemStore.Set` | memory.go:46-51 | the key maps to the given record, other keys unchanged, the timeout is ignored, the error is nil |
| `Memory.MemStore.Delete` | memory.go:54-58 | the key is removed if present, nothing else changes |
| `Memory.SetThenGet` | memory.go:23-51 | Set followed by Get at a time not past the record's expiry returns the very record stored |
| `Registry.RegisterSpec` | store.go:18-27 | success exactly for a non-nil store under a fresh name, adding exactly that entry; a nil store panics first, a taken name next; a panic leaves the registry unchanged |
| `Registry.RegisteredNameIsKept` | store.go:22-26 | once a name is in the registry, every later registration of it panics and its first store stays |
| `Registry.NamesStayUnique` | store.go:22-26 | in any sequence of registrations, after one succeeds for a name, every later one for that name panics, and the registry keeps the first store |
| `Registry.Stores.constructor` | store.go:16 | the registry starts empty |
| `Registry.Stores.Register` | store.go:18-27 | the outcome and the new registry are those of `RegisterSpec` |
| `Registry.RegisterMemoryTwice` | memory.go:14-16 | registering the memory backend under "memory" succeeds once; a second registration panics with the duplicate message |
| `Registry.Open` | store.go:29-31 | for every name, no store and no error |
| `Sessions.Session.constructor` | session.go:152-166 | a new handle has its cookie, no key, no record and every flag clear |
| `Sessions.Session.Init` | session.go:174-197 | succeeds exactly when the cookie splits and verifies; on success it binds the id, sets `status` and holds the backend's answer (the live record itself, or nil after the expired entry is purged); on failure nothing changes |
| `Sessions.Session.Get` | session.go:200-217 | nil when unbound or without a record; for a bound handle with a record, exactly the value stored under the key, nil when the key is absent |
| `Sessions.Session.Create` | session.go:221-244 | binds the new id to a fresh record from `NewRecord` and sets `status`, `shouldset` and `shouldsave` |
| `Sessions.Session.SetKey` | session.go:247-260 | afterwards `Get(k) == v`; a bound record is updated in place with other keys unchanged, otherwise a record is created first; `shouldset` is raised only for a backend that is not in memory, or by the creation |
| `Sessions.Session.SetStore` | session.go:263-273 | the backend maps the key to the record, `shouldset` is cleared, and the timeout handed over is 0 in memory and otherwise the whole seconds left, truncated |
| `Sessions.Session.DelKey` | session.go:276-290 | removes exactly the key from a present record; no-op without a record |
| `Sessions.Session.DelStore` | session.go:293-299 | with a record: drops it, deletes the key from the backend and clears `shouldset`; without one nothing changes |
| `Sessions.Session.Save` | session.go:302-314 | clears `shouldsave`; the cookie value is `sign(key)-key`, expiring with the record, and Init splits it back into the signature and this key |
| `Sessions.Session.Clear` | session.go:317-331 | DelStore, `shouldsave` cleared, the same cookie value expiring now |
| `Sessions.Session.Refresh` | session.go:335-353 | `_expires` moves by `t`, other keys unchanged, `shouldsave` is set and `shouldset` raised only for a backend that is not in memory |
| `Sessions.Session.RefreshTO` | session.go:357-360 | `_expires` becomes exactly `t`, other keys unchanged |
| `Sessions.Session.AddFlash` | session.go:362-373 | the record becomes `PushFlash` of the old one (of a new one when there was none) and `shouldset` is set |
| `Sessions.Session.Flashes` | session.go:375-386 | returns the whole queue and drops it from the record, raising `shouldset` only when there was a queue; nothing without a record |
| `Sessions.RefreshAsWritten` | session.go:335-353 | the record update of Refresh as written: the expiry always moves by `t` in the shared record; then a panic exactly when the memory backend's record has no timer under `_tmr`, otherwise the timer is reset to the new expiry when that is after now |
| `Sessions.RefreshPanicsAfterCreate` | session.go:339-347 | on any record made by Create, Refresh as written panics with the memory backend, after it has moved the expiry |
| `Sessions.SaveExpiryAsWritten` | session.go:310 | Save's read of the expiry panics exactly when there is no record or it holds no time under `_expires` |
| `Sessions.DroppedSessionStillSaves` | session.go:221-244 | after Create then DelStore a cookie is still pending with no record, so Save as written panics |
| `Sessions.EndRequest` | session.go:102-109 | at the end of a request the record is written back if `shouldset`, then the cookie is produced if `shouldsave` and a record is bound; both flags end clear |
| `Sessions.DroppedSessionSendsNoCookie` | session.go:293-299 | with the corrected end of request, a session created and deleted in one request sends no cookie and leaves nothing in the backend |
| `Scenarios.ResumeRequest` | session.go:174-197 | presenting Save's cookie while the backend holds a live record binds the handle to that very record, flags clear |
| `Scenarios.SetThenShow` | session_test.go:10-44 | "hello" set to "world" in one request reads back as "world" in the next, at any time before expiry |
| `Scenarios.AddFlashRequest` | session_test.go:51-55 | a request without a cookie that adds a flash leaves the new record in the backend and sends its cookie |
| `Scenarios.FlashShownOnce` | session_test.go:46-88 | the second request sees one flash, the third sees none |
| `Scenarios.FlashDrainedForAll` | session.go:375-386 | presenting the first cookie again after the flash was read finds no flash |
| `Scenarios.SharedRecord` | session.go:251-255 | with the memory backend an update through SetKey reaches the stored record without write-back, and `shouldset` stays clear |
| `Scenarios.ExpiresAfterAge` | memory.go:30-38 | a session created for 5 seconds expires at now + 5 s; 6 seconds later its cookie verifies, but no record is bound and the backend has purged the entry |
| `Scenarios.ClearedCookieFindsNothing` | session.go:317-331 | after Clear, the cleared cookie still verifies but finds no value |

## Left out

- The Martini middleware `Sessions` is not modelled, apart from the order of its end-of-request hook (`EndRequest`). Neither are `http.SetCookie` and the cookie attributes (name, path, `HttpOnly`, `Secure`). This is HTTP glue; only the cookie value and its expiry are modelled.
- The `sync.RWMutex` locking in `memstore` and in the memory branches of the handle is not modelled. Operations run one at a time, so concurrency is out of scope.
- The corrected Refresh leaves out the timer reset under `_tmr`; see Findings. `RefreshAsWritten` keeps it, as the value `Timer(deadline)` rather than a running `time.Timer`.
- UUID generation and hex encoding in Create are library calls. The new id is the parameter `id`, which SetKey and AddFlash also take for the Create they may call.
- `Sign` and `Verify` have no definition in the modelled files; they are the parameters `sign` and `verify`.
- The logger warning that Create prints when it overwrites a session is output only and is not modelled.
- `redis.go` is not part of this model: its pool, network I/O, serialization and expiry check are left out. The non-memory branches of the handle run over the `MemStore` model. So the backend keeps the handle's record object, not a serialized copy, and a backend failure never produces an error.
- The `Store` interface declared in `store.go` matches neither backend, so it is not modelled. The registry maps names to `MemStore` objects.
- `memstore` has no `Memory` method. The handle's `memory` field stands for the backend's answer.
- The prototype `memstore{}` that `memory.go` registers has a nil map. The model registers an opened, empty store instead.
- Go panics on a failed type assertion. The model turns each such panic into a precondition:
  - `MemStore.Get` needs a stored record with a time under `_expires`.
  - `Session.Init` needs the same for the cookie's id.
  - A non-memory `SetStore`, `Save`, `Refresh` and `RefreshTO` need a record with a time under `_expires`.
  - `AddFlash` and `Flashes` need `_flash`, when present, to be a list.
  Register's panics are modelled as the outcome `Panicked`.
- Record keys are strings; Go allows any comparable key.
- Values are limited to the kinds the package stores: strings, integers, booleans, times, lists and timers.
- Times and durations are unbounded integers. The model omits int64 overflow, the saturation of `time.Sub`, time zones and the monotonic clock.
- `strings.Index` counts bytes and the model counts characters. Cookie values are ASCII, so the two agree.
- The global setters `SetMaxAge`, `SetHttpOnly` and `SetSecure` are not modelled. `maxAge` is fixed for each handle.
- The unused `clear` field of the handle and `memused` field of `memstore` are not modelled.

## Findings

| source | as written | input that shows it | evidently intended | confidence | as-written member | corrected member |
|---|---|---|---|---|---|---|
| session.go:339-347 | with the memory backend, Refresh writes the new expiry into the shared record and then type-asserts the value under `_tmr` as a `*time.Timer`, but nothing in the package stores one | a memory-backed session made by Create (its record holds only `_expires`), then Refresh(t) for any `t` | move `_expires` by `t` and mark the cookie for sending, as the non-memory branch does | high; not executed | `Sessions.RefreshPanicsAfterCreate` | `Sessions.Session.Refresh` |
| session.go:293-310 | DelStore drops the record but leaves `shouldsave` set, so the end-of-request hook calls Save, whose `s.data[expiresTS].(time.Time)` on the nil record panics | a handler that calls Create (or a first SetKey or AddFlash) and then DelStore in the same request | a request whose session was deleted sends no session cookie | medium; not executed | `Sessions.DroppedSessionStillSaves` | `Sessions.EndRequest` |
