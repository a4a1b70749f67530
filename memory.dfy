/** The in-process backend: a map from session id to the record object itself, with
    lazy expiry on read. The read/write lock that guards the map is not modelled;
    the operations are taken one at a time. */
module Memory {
  import opened Wrappers
  import opened Record

  class MemStore {
    /** Session id to record. Set stores whatever reference it is given, nil included. */
    var store: map<string, Data?>

    /** Open: a new backend with an empty map; the options string is ignored. */
    constructor Open(options: string)
      ensures store == map[]
    {
      store := map[];
    }

    /** Get can read the entry under `key` without a failed type assertion: an absent key,
        or a non-nil record whose `_expires` is a time. */
    predicate Readable(key: string)
      reads this, store.Values
    {
      key in store ==> store[key] != null && HasExpiry(store[key].m)
    }

    /** The entry under `key` exists and is not expired at `now`. */
    predicate Live(key: string, now: int)
      reads this, store.Values
      requires Readable(key)
    {
      key in store && !Expired(store[key].m, now)
    }

    /** Get: the stored record itself (not a copy) when it is live; otherwise nil, and an
        expired entry is deleted. No other entry changes. */
    method Get(key: string, now: int) returns (d: Data?)
      requires Readable(key)
      modifies this
      ensures old(Live(key, now)) ==> d == old(store[key]) && store == old(store)
      ensures !old(Live(key, now)) ==> d == null && store == old(store) - {key}
    {
      if key in store {
        var v := store[key];
        if now > Expiry(v.m) {
          store := store - {key};
          return null;
        }
        return v;
      }
      return null;
    }

    /** Set: `key` maps to `data` and nothing else changes. The timeout is ignored, since
        the expiry lives inside the record; the error is always nil. */
    method Set(key: string, data: Data?, timeout: int) returns (err: Option<string>)
      modifies this
      ensures store == old(store)[key := data]
      ensures err == None
    {
      store := store[key := data];
      err := None;
    }

    /** Delete: removes `key` if present; an absent key is not an error. */
    method Delete(key: string)
      modifies this
      ensures store == old(store) - {key}
    {
      store := store - {key};
    }
  }

  /** Set followed by Get at a time not past the record's expiry hands back the very
      record that was stored. */
  method SetThenGet(ms: MemStore, key: string, d: Data, timeout: int, now: int) returns (got: Data?)
    requires HasExpiry(d.m) && !Expired(d.m, now)
    modifies ms
    ensures got == d
    ensures ms.store == old(ms.store)[key := d]
  {
    var _ := ms.Set(key, d, timeout);
    got := ms.Get(key, now);
  }
}
