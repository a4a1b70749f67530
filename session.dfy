/** The per-request session handle: binds the signed id from the cookie to a record,
    exposes the attribute and flash operations, and tracks what has to be written back
    (`shouldset`) and what cookie has to be sent (`shouldsave`). The package-level
    settings it reads (the backend, `maxAge`) are fixed when the handle is built, the
    clock is the `now` parameter in nanoseconds, and signing is the pair of functions
    `sign` and `verify`. */
module Sessions {
  import opened Wrappers
  import opened Record
  import opened Cookie
  import opened Memory

  class Session {
    /** The backend every session uses. */
    const store: MemStore
    /** The backend's answer to Memory(): true when it hands out its own record objects. */
    const memory: bool
    /** The default lifetime in seconds. */
    const maxAge: int

    var key: string
    /** The value of the request's session cookie, if it has one. */
    var cookie: Option<string>
    var data: Data?
    /** Bound to an id, by Init or Create. */
    var status: bool
    /** A cookie has to be sent to the client. */
    var shouldsave: bool
    /** The record has to be written back to the backend. */
    var shouldset: bool

    /** A fresh handle for one request: no key, no record, no flag set. */
    constructor (store: MemStore, memory: bool, maxAge: int, cookie: Option<string>)
      ensures this.store == store && this.memory == memory && this.maxAge == maxAge
      ensures this.cookie == cookie && key == "" && data == null
      ensures !status && !shouldsave && !shouldset
    {
      this.store := store;
      this.memory := memory;
      this.maxAge := maxAge;
      this.cookie := cookie;
      key := "";
      data := null;
      status := false;
      shouldsave := false;
      shouldset := false;
    }

    /** The cookie value split into (signature, id), when it has that shape. */
    function CookieParts(): Option<(string, string)>
      reads this
    {
      if cookie.None? then None else ParseCookie(cookie.value)
    }

    /** The cookie has the right shape and its signature verifies for its id. */
    predicate Accepts(verify: (string, string) -> bool)
      reads this
    {
      CookieParts().Some? && verify(CookieParts().value.1, CookieParts().value.0)
    }

    /** Init: succeeds exactly when the cookie splits and its signature verifies. On
        success the handle is bound to the cookie's id and holds what the backend returns
        for it, nil included; on failure nothing changes. */
    method Init(verify: (string, string) -> bool, now: int) returns (ok: bool)
      requires Accepts(verify) ==> store.Readable(CookieParts().value.1)
      modifies this`key, this`data, this`status, store
      ensures ok == old(Accepts(verify))
      ensures !ok ==> key == old(key) && data == old(data) && status == old(status)
      ensures !ok ==> store.store == old(store.store)
      ensures ok ==> key == CookieParts().value.1 && status
      ensures ok && old(store.Live(CookieParts().value.1, now)) ==>
        data == old(store.store)[key] && store.store == old(store.store)
      ensures ok && !old(store.Live(CookieParts().value.1, now)) ==>
        data == null && store.store == old(store.store) - {key}
    {
      if cookie.None? {
        return false;
      }
      var parts := ParseCookie(cookie.value);
      if parts.None? {
        return false;
      }
      var sig, id := parts.value.0, parts.value.1;
      if !verify(id, sig) {
        return false;
      }
      key := id;
      data := store.Get(id, now);
      status := true;
      ok := true;
    }

    /** Get: the value stored under `k` in the bound record; an unbound handle, a missing
        record or an absent key answers nil. */
    function Get(k: string): (v: Value)
      reads this, data
      ensures !status || data == null ==> v == Nil
      ensures status && data != null && k in data.m ==> v == data.m[k]
      ensures data != null && k !in data.m ==> v == Nil
      ensures v != Nil ==> data != null && k in data.m && data.m[k] == v
    {
      if !status || data == null then Nil
      else if k in data.m then data.m[k]
      else Nil
    }

    /** Create: binds a new id to a fresh record holding only its expiry, and marks the
        record for write-back and the cookie for sending. The previous record object, if
        any, is left as it was. */
    method Create(age: int, now: int, id: string)
      modifies this`key, this`data, this`status, this`shouldset, this`shouldsave
      ensures key == id && data != null && fresh(data)
      ensures data.m == NewRecord(now, age, maxAge)
      ensures status && shouldset && shouldsave
    {
      key := id;
      data := new Data(NewRecord(now, age, maxAge));
      shouldset := true;
      shouldsave := true;
      status := true;
    }

    /** SetKey: afterwards Get(k) == v. A bound record is updated in place (other keys
        unchanged); otherwise a record is created first. Only a backend that copies
        records needs the write-back flag: with the memory backend the stored record is
        the one just updated. */
    method SetKey(k: string, v: Value, now: int, id: string)
      modifies this`key, this`data, this`status, this`shouldset, this`shouldsave, data
      ensures status && data != null && Get(k) == v
      ensures old(data != null && status) ==>
        data == old(data) && key == old(key) && data.m == old(data.m)[k := v]
        && shouldsave == old(shouldsave) && shouldset == (old(shouldset) || !memory)
      ensures !old(data != null && status) ==>
        fresh(data) && key == id && data.m == NewRecord(now, 0, maxAge)[k := v]
        && shouldsave && shouldset
    {
      if data == null || !status {
        Create(0, now, id);
      }
      data.m := data.m[k := v];
      if !memory {
        shouldset := true;
      }
    }

    /** SetStore: writes the record back under the key and clears `shouldset`. It hands the
        backend 0 as the timeout for the memory backend and otherwise the remaining life
        of the record in whole seconds, truncated toward zero (possibly negative). */
    method SetStore(now: int) returns (err: Option<string>, ttl: int)
      requires !memory ==> data != null && HasExpiry(data.m)
      modifies this`shouldset, store
      ensures !shouldset && err == None
      ensures store.store == old(store.store)[key := data]
      ensures memory ==> ttl == 0
      ensures !memory ==> ttl == WholeSeconds(Expiry(data.m) - now)
    {
      shouldset := false;
      if memory {
        ttl := 0;
      } else {
        ttl := WholeSeconds(Expiry(data.m) - now);
      }
      err := store.Set(key, data, ttl);
    }

    /** DelKey: removes exactly `k` from the record, if there is one. */
    method DelKey(k: string)
      modifies this`shouldset, data
      ensures data != null ==> data.m == old(data.m) - {k} && shouldset == (old(shouldset) || !memory)
      ensures data == null ==> shouldset == old(shouldset)
    {
      if data == null {
        return;
      }
      data.m := data.m - {k};
      if !memory {
        shouldset := true;
      }
    }

    /** DelStore: with a record present, drops it, deletes the key from the backend and
        clears `shouldset`; without one it does nothing. */
    method DelStore()
      modifies this`data, this`shouldset, store
      ensures data == null
      ensures old(data) != null ==> !shouldset && store.store == old(store.store) - {key}
      ensures old(data) == null ==> shouldset == old(shouldset) && store.store == old(store.store)
    {
      if data != null {
        data := null;
        store.Delete(key);
        shouldset := false;
      }
    }

    /** Save: the cookie to send, `sign(key)-key`, expiring with the record; Init splits
        that value back into the signature and this key. */
    method Save(sign: string -> string) returns (value: string, expires: int)
      requires data != null && HasExpiry(data.m)
      modifies this`shouldsave
      ensures !shouldsave
      ensures value == CookieValue(sign, key) && expires == Expiry(data.m)
      ensures Separator !in sign(key) && key != [] ==> ParseCookie(value) == Some((sign(key), key))
    {
      shouldsave := false;
      value := CookieValue(sign, key);
      expires := Expiry(data.m);
      if Separator !in sign(key) && key != [] {
        CookieRoundTrip(sign, key);
      }
    }

    /** Clear: DelStore, then a cookie with the same value that expires now. */
    method Clear(sign: string -> string, now: int) returns (value: string, expires: int)
      modifies this`data, this`shouldset, this`shouldsave, store
      ensures data == null && !shouldsave
      ensures value == CookieValue(sign, key) && expires == now
      ensures old(data) != null ==> !shouldset && store.store == old(store.store) - {key}
      ensures old(data) == null ==> shouldset == old(shouldset) && store.store == old(store.store)
    {
      DelStore();
      shouldsave := false;
      value := CookieValue(sign, key);
      expires := now;
    }

    /** Refresh: moves the expiry by `t` nanoseconds and marks the cookie for sending
        (and the record for write-back when the backend copies records). */
    method Refresh(t: int)
      requires data != null && HasExpiry(data.m)
      modifies this`shouldset, this`shouldsave, data
      ensures data.m == old(data.m)[ExpiresKey := Time(old(Expiry(data.m)) + t)]
      ensures HasExpiry(data.m) && Expiry(data.m) == old(Expiry(data.m)) + t
      ensures shouldsave && shouldset == (old(shouldset) || !memory)
    {
      data.m := data.m[ExpiresKey := Time(Expiry(data.m) + t)];
      if !memory {
        shouldset := true;
      }
      shouldsave := true;
    }

    /** RefreshTO: sets the expiry to exactly `t`, through Refresh by the difference. */
    method RefreshTO(t: int)
      requires data != null && HasExpiry(data.m)
      modifies this`shouldset, this`shouldsave, data
      ensures data.m == old(data.m)[ExpiresKey := Time(t)]
      ensures HasExpiry(data.m) && Expiry(data.m) == t
      ensures shouldsave && shouldset == (old(shouldset) || !memory)
    {
      var t1 := Expiry(data.m);
      Refresh(t - t1);
    }

    /** AddFlash: appends `v` to the flash queue, creating a record first when there is
        none, and marks the record for write-back. */
    method AddFlash(v: Value, now: int, id: string)
      requires data != null ==> FlashesWellTyped(data.m)
      modifies this`key, this`data, this`status, this`shouldset, this`shouldsave, data
      ensures data != null && shouldset
      ensures old(data) != null ==>
        data == old(data) && data.m == PushFlash(old(data.m), v)
        && key == old(key) && status == old(status) && shouldsave == old(shouldsave)
      ensures old(data) == null ==>
        fresh(data) && data.m == PushFlash(NewRecord(now, 0, maxAge), v)
        && key == id && status && shouldsave
    {
      var flashes := if data != null then FlashQueue(data.m) else [];
      if data == null {
        Create(0, now, id);
      }
      data.m := data.m[FlashesKey := List(flashes + [v])];
      shouldset := true;
    }

    /** Flashes: returns the whole flash queue and removes it from the record, marking
        the record for write-back when there was a queue. */
    method Flashes() returns (flashes: seq<Value>)
      requires data != null ==> FlashesWellTyped(data.m)
      modifies this`shouldset, data
      ensures data == null ==> flashes == [] && shouldset == old(shouldset)
      ensures data != null ==> flashes == FlashQueue(old(data.m)) && data.m == DrainFlashes(old(data.m)).1
      ensures data != null ==> shouldset == (old(shouldset) || FlashesKey in old(data.m))
    {
      flashes := [];
      if data != null && FlashesKey in data.m {
        flashes := data.m[FlashesKey].items;
        data.m := data.m - {FlashesKey};
        shouldset := true;
      }
    }
  }

  /** What Refresh as written leaves in the record, and whether it panicked. */
  datatype RefreshStep = RefreshStep(record: Attrs, panicked: bool)

  /** Refresh's record update as written for the memory backend: it first stores the new
      expiry in the shared record, then takes the value under `_tmr` as a timer and resets
      it to the new expiry when that is after `now`. A missing or non-timer value is a
      failed type assertion, a panic that comes after the expiry was already written. */
  function RefreshAsWritten(m: Attrs, t: int, now: int, memory: bool): (r: RefreshStep)
    requires HasExpiry(m)
    ensures r.panicked <==> memory && !(TimerKey in m && m[TimerKey].Timer?)
    ensures HasExpiry(r.record) && Expiry(r.record) == Expiry(m) + t
    ensures r.record.Keys == m.Keys
    ensures forall k :: k in m && k != ExpiresKey && k != TimerKey ==> r.record[k] == m[k]
    ensures !memory || r.panicked ==> r.record == m[ExpiresKey := Time(Expiry(m) + t)]
    ensures memory && !r.panicked ==>
      r.record[TimerKey] == (if Expiry(m) + t > now then Timer(Expiry(m) + t) else m[TimerKey])
  {
    var v := Expiry(m) + t;
    var written := m[ExpiresKey := Time(v)];
    if !memory then RefreshStep(written, false)
    else if !(TimerKey in m && m[TimerKey].Timer?) then RefreshStep(written, true)
    else if v > now then RefreshStep(written[TimerKey := Timer(v)], false)
    else RefreshStep(written, false)
  }

  /** Nothing stores a timer under `_tmr`: a record made by Create has only `_expires`,
      so Refresh as written panics on it with the memory backend, for every `t`, after
      moving the expiry in the shared record. */
  lemma RefreshPanicsAfterCreate(now: int, age: int, maxAge: int, t: int, later: int)
    ensures RefreshAsWritten(NewRecord(now, age, maxAge), t, later, true)
      == RefreshStep(NewRecord(now, age, maxAge)[ExpiresKey := Time(Expiry(NewRecord(now, age, maxAge)) + t)], true)
  {
  }

  /** Save's read of the expiry as written: the value under `_expires` of the bound record
      taken as a time. A nil record reads nil there, so the type assertion fails, a panic,
      shown as None. */
  function SaveExpiryAsWritten(data: Data?): (r: Option<int>)
    reads data
    ensures r.None? <==> data == null || !HasExpiry(data.m)
    ensures r.Some? ==> r.value == Expiry(data.m)
  {
    if data == null || !HasExpiry(data.m) then None else Some(Expiry(data.m))
  }

  /** As written, a handler that creates a session and then deletes it leaves a cookie
      pending with no record, so the end-of-request hook calls Save and Save panics. */
  method DroppedSessionStillSaves(memory: bool, age: int, now: int, id: string)
    returns (pending: bool, expiry: Option<int>)
    ensures pending && expiry == None
  {
    var backend := new MemStore.Open("");
    var s := new Session(backend, memory, DefaultMaxAge, None);
    s.Create(age, now, id);
    s.DelStore();
    pending := s.shouldsave;
    expiry := SaveExpiryAsWritten(s.data);
  }

  /** The end of a request: write the record back when `shouldset`, then produce the
      cookie value when `shouldsave`, in that order. A pending cookie whose record was
      deleted is dropped instead of saved. */
  method EndRequest(s: Session, sign: string -> string, now: int) returns (emitted: Option<string>)
    requires s.shouldset && !s.memory ==> s.data != null && HasExpiry(s.data.m)
    requires s.shouldsave && s.data != null ==> HasExpiry(s.data.m)
    modifies s`shouldset, s`shouldsave, s.store
    ensures !s.shouldset && !s.shouldsave
    ensures old(s.shouldset) ==> s.store.store == old(s.store.store)[s.key := s.data]
    ensures !old(s.shouldset) ==> s.store.store == old(s.store.store)
    ensures emitted == if old(s.shouldsave) && s.data != null then Some(CookieValue(sign, s.key)) else None
  {
    if s.shouldset {
      var _, _ := s.SetStore(now);
    }
    emitted := None;
    if s.shouldsave {
      if s.data != null {
        var value, _ := s.Save(sign);
        emitted := Some(value);
      } else {
        s.shouldsave := false;
      }
    }
  }

  /** With the corrected end of request, a session created and then deleted in the same
      request sends no cookie and leaves nothing in the backend. */
  method DroppedSessionSendsNoCookie(sign: string -> string, memory: bool, age: int, now: int, id: string)
    returns (emitted: Option<string>, stored: bool)
    ensures emitted == None && !stored
  {
    var backend := new MemStore.Open("");
    var s := new Session(backend, memory, DefaultMaxAge, None);
    s.Create(age, now, id);
    s.DelStore();
    emitted := EndRequest(s, sign, now);
    stored := id in backend.store;
  }
}
