/** A session record: the attribute map of one session (`Sessiondata`), its reserved
    keys `_expires` and `_flash`, and the pure operations the session handle applies to it.
    Times are integers in nanoseconds, the unit of Go's `time.Duration`. */
module Record {

  /** One second, in nanoseconds. */
  const Second: int := 1_000_000_000

  /** The default session lifetime in seconds (`maxAge`). */
  const DefaultMaxAge: int := 30 * 86400

  const ExpiresKey: string := "_expires"
  const FlashesKey: string := "_flash"
  /** The key Refresh's memory branch expects a timer under. */
  const TimerKey: string := "_tmr"

  /** The values a record holds: Go's `interface{}` restricted to the kinds the core uses.
      `Nil` is Go's nil interface, `Time` an absolute time, `List` a `[]interface{}` and
      `Timer` a `*time.Timer` with its deadline. */
  datatype Value =
    | Nil
    | Str(s: string)
    | Int(i: int)
    | Bool(b: bool)
    | Time(ns: int)
    | List(items: seq<Value>)
    | Timer(deadline: int)

  type Attrs = map<string, Value>

  /** A record as a shared reference: a Go map is a reference, so every holder of a
      `Data` sees the updates made through any other holder. */
  class Data {
    var m: Attrs

    constructor (m: Attrs)
      ensures this.m == m
    {
      this.m := m;
    }
  }

  /** The record carries an absolute expiry time (the type assertion `.(time.Time)` succeeds). */
  predicate HasExpiry(m: Attrs) {
    ExpiresKey in m && m[ExpiresKey].Time?
  }

  function Expiry(m: Attrs): int
    requires HasExpiry(m)
  {
    m[ExpiresKey].ns
  }

  /** Expired at `now`: `now` is strictly after the record's expiry. */
  predicate Expired(m: Attrs, now: int)
    requires HasExpiry(m)
  {
    now > Expiry(m)
  }

  /** The record Create allocates: only `_expires`, `age` seconds from now when `age`
      is positive and `maxAge` seconds from now otherwise. */
  function NewRecord(now: int, age: int, maxAge: int): (m: Attrs)
    ensures m.Keys == {ExpiresKey} && HasExpiry(m)
    ensures age > 0 ==> Expiry(m) - now == age * Second
    ensures age <= 0 ==> Expiry(m) - now == maxAge * Second
  {
    map[ExpiresKey := Time(now + (if age > 0 then age else maxAge) * Second)]
  }

  /** A record made at `now` with a positive lifetime `age` is still live exactly up to
      `age` seconds later, and expired at any later instant. */
  lemma NewRecordLifetime(now: int, age: int, maxAge: int, later: int)
    requires age > 0
    ensures Expired(NewRecord(now, age, maxAge), later) <==> later > now + age * Second
  {
  }

  /** Whole seconds in a duration of `d` nanoseconds, truncated toward zero as Go's
      integer division of durations does. */
  function WholeSeconds(d: int): (s: int)
    ensures 0 <= d ==> 0 <= s && s * Second <= d < s * Second + Second
    ensures d < 0 ==> s <= 0 && s * Second - Second < d <= s * Second
  {
    if d >= 0 then d / Second else -((-d) / Second)
  }

  /** Truncation toward zero treats a negative duration as the mirror of a positive one. */
  lemma WholeSecondsOdd(d: int)
    ensures WholeSeconds(-d) == -WholeSeconds(d)
  {
  }

  /** The `_flash` entry, when present, is a list (the type assertion `.([]interface{})` succeeds). */
  predicate FlashesWellTyped(m: Attrs) {
    FlashesKey in m ==> m[FlashesKey].List?
  }

  /** The pending flash values, oldest first; none when `_flash` is absent. */
  function FlashQueue(m: Attrs): seq<Value>
    requires FlashesWellTyped(m)
  {
    if FlashesKey in m then m[FlashesKey].items else []
  }

  /** AddFlash on the record: appends `v` to the flash queue and touches no other key. */
  function PushFlash(m: Attrs, v: Value): (m': Attrs)
    requires FlashesWellTyped(m)
    ensures FlashesWellTyped(m') && FlashQueue(m') == FlashQueue(m) + [v]
    ensures m'.Keys == m.Keys + {FlashesKey}
    ensures forall k :: k in m && k != FlashesKey ==> m'[k] == m[k]
  {
    m[FlashesKey := List(FlashQueue(m) + [v])]
  }

  /** Flashes on the record: the whole queue, and the record without `_flash`. */
  function DrainFlashes(m: Attrs): (r: (seq<Value>, Attrs))
    requires FlashesWellTyped(m)
    ensures r.0 == FlashQueue(m)
    ensures r.1.Keys == m.Keys - {FlashesKey}
    ensures forall k :: k in r.1 ==> r.1[k] == m[k]
    ensures FlashesWellTyped(r.1) && FlashQueue(r.1) == []
  {
    if FlashesKey in m then (m[FlashesKey].items, m - {FlashesKey}) else ([], m)
  }

  /** The record after AddFlash of each of `vs`, in order. */
  function PushAll(m: Attrs, vs: seq<Value>): (m': Attrs)
    requires FlashesWellTyped(m)
    ensures FlashesWellTyped(m')
    decreases |vs|
  {
    if vs == [] then m else PushFlash(PushAll(m, vs[..|vs| - 1]), vs[|vs| - 1])
  }

  /** Flash values are drained exactly once: after adding `vs`, one Flashes returns the
      earlier queue followed by all of `vs` in insertion order, and an immediate second
      Flashes returns nothing. */
  lemma {:induction false} FlashesDrainOnce(m: Attrs, vs: seq<Value>)
    requires FlashesWellTyped(m)
    ensures DrainFlashes(PushAll(m, vs)).0 == FlashQueue(m) + vs
    ensures DrainFlashes(DrainFlashes(PushAll(m, vs)).1).0 == []
  {
    if vs != [] {
      var init := vs[..|vs| - 1];
      FlashesDrainOnce(m, init);
      assert vs == init + [vs[|vs| - 1]];
    }
  }
}
