/** Whole request sequences against the memory backend, as the package's own tests
    describe them. Each request builds a new handle from the cookie the
    previous response sent, and ends with EndRequest. */
module Scenarios {
  import opened Wrappers
  import opened Record
  import opened Cookie
  import opened Memory
  import opened Sessions

  /** A request that presents the cookie Save built for `id` while the memory backend
      holds a live record under it: the handle is bound to `id` and to that very record,
      with no flag set, and the backend is unchanged. */
  method ResumeRequest(backend: MemStore, sign: string -> string, verify: (string, string) -> bool, now: int, id: string)
    returns (s: Session)
    requires id != [] && Separator !in sign(id) && verify(id, sign(id))
    requires id in backend.store && backend.store[id] != null
    requires HasExpiry(backend.store[id].m) && !Expired(backend.store[id].m, now)
    modifies backend
    ensures fresh(s) && s.store == backend && s.memory && s.maxAge == DefaultMaxAge
    ensures backend.store == old(backend.store)
    ensures s.key == id && s.status && s.data == backend.store[id]
    ensures !s.shouldset && !s.shouldsave
  {
    CookieRoundTrip(sign, id);
    s := new Session(backend, true, DefaultMaxAge, Some(CookieValue(sign, id)));
    var _ := s.Init(verify, now);
  }

  /** A value set in one request is read back in the next one that presents the cookie,
      at any time before the record expires. */
  method SetThenShow(sign: string -> string, verify: (string, string) -> bool, now: int, later: int, id: string)
    returns (shown: Value)
    requires id != [] && Separator !in sign(id) && verify(id, sign(id))
    requires now <= later <= now + DefaultMaxAge * Second
    ensures shown == Str("world")
  {
    var backend := new MemStore.Open("");

    var first := new Session(backend, true, DefaultMaxAge, None);
    var _ := first.Init(verify, now);
    first.SetKey("hello", Str("world"), now, id);
    var sent := EndRequest(first, sign, now);
    CookieRoundTrip(sign, id);

    var second := new Session(backend, true, DefaultMaxAge, sent);
    var _ := second.Init(verify, later);
    shown := second.Get("hello");
  }

  /** The first request of the flash scenarios: no cookie, one flash added. The memory
      backend then holds the new record under `id`, and the response carries its cookie. */
  method AddFlashRequest(backend: MemStore, sign: string -> string, verify: (string, string) -> bool, now: int, id: string)
    returns (sent: Option<string>, record: Data)
    modifies backend
    ensures fresh(record) && backend.store == old(backend.store)[id := record]
    ensures record.m == PushFlash(NewRecord(now, 0, DefaultMaxAge), Str("hello world"))
    ensures sent == Some(CookieValue(sign, id))
  {
    var first := new Session(backend, true, DefaultMaxAge, None);
    var _ := first.Init(verify, now);
    first.AddFlash(Str("hello world"), now, id);
    record := first.data;
    sent := EndRequest(first, sign, now);
  }

  /** A flash added in one request is seen by exactly one later read. The request that
      drains it sends no cookie, so the request after it has no session. */
  method FlashShownOnce(sign: string -> string, verify: (string, string) -> bool, now: int, id: string)
    returns (shown: nat, shownAgain: nat)
    requires id != [] && Separator !in sign(id) && verify(id, sign(id))
    ensures shown == 1 && shownAgain == 0
  {
    var backend := new MemStore.Open("");
    var _, _ := AddFlashRequest(backend, sign, verify, now, id);

    var second := ResumeRequest(backend, sign, verify, now, id);
    var flashes := second.Flashes();
    shown := |flashes|;
    var sentAgain := EndRequest(second, sign, now);

    var third := new Session(backend, true, DefaultMaxAge, sentAgain);
    var _ := third.Init(verify, now);
    flashes := third.Flashes();
    shownAgain := |flashes|;
  }

  /** Presenting the first cookie again after the flash was read finds the queue drained:
      the read removed it from the record the backend holds. */
  method FlashDrainedForAll(sign: string -> string, verify: (string, string) -> bool, now: int, id: string)
    returns (shown: nat, shownWithFirstCookie: nat)
    requires id != [] && Separator !in sign(id) && verify(id, sign(id))
    ensures shown == 1 && shownWithFirstCookie == 0
  {
    var backend := new MemStore.Open("");
    var _, _ := AddFlashRequest(backend, sign, verify, now, id);

    var second := ResumeRequest(backend, sign, verify, now, id);
    var flashes := second.Flashes();
    shown := |flashes|;
    var _ := EndRequest(second, sign, now);

    var third := ResumeRequest(backend, sign, verify, now, id);
    flashes := third.Flashes();
    shownWithFirstCookie := |flashes|;
  }

  /** With the memory backend an update made through the handle reaches the stored
      record without any write-back: SetKey leaves `shouldset` clear, and the next
      request still reads the new value. */
  method SharedRecord(sign: string -> string, verify: (string, string) -> bool, now: int, id: string)
    returns (writtenBack: bool, shown: Value)
    requires id != [] && Separator !in sign(id) && verify(id, sign(id))
    ensures !writtenBack && shown == Str("v2")
  {
    var backend := new MemStore.Open("");

    var first := new Session(backend, true, DefaultMaxAge, None);
    var _ := first.Init(verify, now);
    first.SetKey("k", Str("v1"), now, id);
    var _ := EndRequest(first, sign, now);

    var second := ResumeRequest(backend, sign, verify, now, id);
    second.SetKey("k", Str("v2"), now, id);
    writtenBack := second.shouldset;
    var _ := EndRequest(second, sign, now);

    var third := ResumeRequest(backend, sign, verify, now, id);
    shown := third.Get("k");
  }

  /** A session created for five seconds carries that expiry; six seconds later the
      cookie still verifies but the record is gone, and the backend has purged it. */
  method ExpiresAfterAge(sign: string -> string, verify: (string, string) -> bool, now: int, id: string)
    returns (expires: Value, accepted: bool, bound: bool, purged: bool)
    requires id != [] && Separator !in sign(id) && verify(id, sign(id))
    ensures expires == Time(now + 5 * Second)
    ensures accepted && !bound && purged
  {
    var backend := new MemStore.Open("");

    var first := new Session(backend, true, DefaultMaxAge, None);
    first.Create(5, now, id);
    expires := first.Get(ExpiresKey);
    var sent := EndRequest(first, sign, now);
    CookieRoundTrip(sign, id);

    var second := new Session(backend, true, DefaultMaxAge, sent);
    accepted := second.Init(verify, now + 6 * Second);
    bound := second.data != null;
    purged := id !in backend.store;
  }

  /** After Clear, the cleared cookie still verifies but finds no session. */
  method ClearedCookieFindsNothing(sign: string -> string, verify: (string, string) -> bool, now: int, id: string)
    returns (accepted: bool, shown: Value)
    requires id != [] && Separator !in sign(id) && verify(id, sign(id))
    ensures accepted && shown == Nil
  {
    var backend := new MemStore.Open("");

    var first := new Session(backend, true, DefaultMaxAge, None);
    first.SetKey("hello", Str("world"), now, id);
    var sent := EndRequest(first, sign, now);
    CookieRoundTrip(sign, id);

    var second := new Session(backend, true, DefaultMaxAge, sent);
    var _ := second.Init(verify, now);
    var cleared, _ := second.Clear(sign, now);

    var third := new Session(backend, true, DefaultMaxAge, Some(cleared));
    accepted := third.Init(verify, now);
    shown := third.Get("hello");
  }
}
