/** The login limiter: per-key failure counts with a doubling, capped backoff. */
module LoginLimiter {

  /** Nanoseconds, in 64 bits. */
  newtype Duration = x: int | -0x8000_0000_0000_0000 <= x < 0x8000_0000_0000_0000

  const SECOND: int := 1_000_000_000

  datatype Entry = Entry(failures: nat, blockedUntil: int)

  type Entries = map<string, Entry>

  datatype Curve = Curve(base: int, cap: int)

  predicate Sane(c: Curve) {
    0 < c.base < 0x4000_0000_0000_0000 && 0 < c.cap <= 0x4000_0000_0000_0000
  }

  const PRODUCTION := Curve(SECOND, 900 * SECOND)

  // ----- The curve ------------------------------------------------------------------

  function Pow2(n: nat): (p: nat)
    ensures p >= 1
  {
    if n == 0 then 1 else 2 * Pow2(n - 1)
  }

  function Backoff(c: Curve, failures: int): int {
    if failures <= 1 then 0
    else if c.base * Pow2(failures - 2) <= c.cap then c.base * Pow2(failures - 2)
    else c.cap
  }

  lemma {:induction false} Pow2Grows(a: nat, b: nat)
    requires a <= b
    ensures Pow2(a) <= Pow2(b)
  {
    if a == b {
    } else {
      Pow2Grows(a, b - 1);
    }
  }

  lemma Scale(k: int, p: int, q: int)
    requires 0 <= k && p <= q
    ensures k * p <= k * q
  {
  }

  /** The wait never shrinks with another failure and never passes the cap. */
  lemma BackoffMonotone(c: Curve, m: int, n: int)
    requires Sane(c) && m <= n
    ensures 0 <= Backoff(c, m) <= Backoff(c, n) <= c.cap
  {
    if n >= 2 { Scale(c.base, 0, Pow2(n - 2)); }
    if m >= 2 {
      Pow2Grows(m - 2, n - 2);
      Scale(c.base, Pow2(m - 2), Pow2(n - 2));
      Scale(c.base, 0, Pow2(m - 2));
    }
  }

  /** No wait at all after exactly one failure, and some wait after every later one. */
  lemma BackoffPositive(c: Curve, n: int)
    requires Sane(c)
    ensures Backoff(c, n) > 0 <==> n >= 2
  {
  }

  lemma Powers()
    ensures Pow2(0) == 1 && Pow2(1) == 2 && Pow2(2) == 4 && Pow2(3) == 8 && Pow2(4) == 16 && Pow2(5) == 32
    ensures Pow2(6) == 64 && Pow2(7) == 128 && Pow2(8) == 256 && Pow2(9) == 512 && Pow2(10) == 1024
  {
    assert Pow2(2) == 4;
    assert Pow2(4) == 16;
    assert Pow2(6) == 64;
    assert Pow2(8) == 256;
  }

  /** In seconds: nothing, 1, 2, 4 and so on to 512, then fifteen minutes every time. */
  lemma ProductionCurve(n: int)
    ensures n <= 1 ==> Backoff(PRODUCTION, n) == 0
    ensures n == 2 ==> Backoff(PRODUCTION, n) == 1_000_000_000
    ensures n == 3 ==> Backoff(PRODUCTION, n) == 2_000_000_000
    ensures n == 4 ==> Backoff(PRODUCTION, n) == 4_000_000_000
    ensures n == 11 ==> Backoff(PRODUCTION, n) == 512_000_000_000
    ensures n >= 12 ==> Backoff(PRODUCTION, n) == 900_000_000_000
  {
    Powers();
    if n >= 12 { Pow2Grows(10, n - 2); }
  }

  /** The loop doubles in 64 bits without ever overflowing. */
  method ComputeBackoff(base: Duration, cap: Duration, failures: int) returns (wait: Duration)
    requires Sane(Curve(base as int, cap as int))
    ensures wait as int == Backoff(Curve(base as int, cap as int), failures)
  {
    var c := Curve(base as int, cap as int);
    if failures <= 1 { return 0; }
    wait := base;
    var i := 2;
    while i < failures
      invariant 2 <= i <= failures
      invariant wait as int == c.base * Pow2(i - 2) && (i > 2 ==> wait < cap)
      invariant wait < 0x4000_0000_0000_0000
    {
      wait := wait * 2;
      assert wait as int == c.base * Pow2(i - 1);
      if wait >= cap {
        Pow2Grows(i - 1, failures - 2);
        Scale(c.base, Pow2(i - 1), Pow2(failures - 2));
        return cap;
      }
      i := i + 1;
    }
    if wait > cap { return cap; }
  }

  // ----- The limiter --------------------------------------------------------------------

  function Wait(s: Entries, key: string, now: int): int {
    if key in s && s[key].blockedUntil > now then s[key].blockedUntil - now else 0
  }

  function Bumped(c: Curve, s: Entries, key: string, now: int): Entries {
    var n := if key in s then s[key].failures + 1 else 1;
    s[key := Entry(n, now + Backoff(c, n))]
  }

  function Failed(c: Curve, s: Entries, keys: seq<string>, now: int): Entries {
    if keys == [] then s else Bumped(c, Failed(c, s, keys[..|keys| - 1], now), keys[|keys| - 1], now)
  }

  function Cleared(s: Entries, keys: seq<string>): Entries {
    map k | k in s && k !in keys :: s[k]
  }

  function Swept(s: Entries, now: int): Entries {
    map k | k in s && s[k].blockedUntil > now :: s[k]
  }

  class Limiter {
    var entries: Entries
    const base: Duration
    const cap: Duration

    function Settings(): Curve { Curve(base as int, cap as int) }

    constructor ()
      ensures entries == map[] && Settings() == PRODUCTION && Sane(Settings())
    {
      entries := map[];
      base := 1_000_000_000;
      cap := 900_000_000_000;
    }

    method RetryAfter(key: string, now: int) returns (d: int)
      ensures d == Wait(entries, key, now)
      ensures d >= 0 && (d > 0 ==> key in entries && now + d == entries[key].blockedUntil)
      ensures key in entries && now < entries[key].blockedUntil ==> d > 0
    {
      if key !in entries { return 0; }
      d := entries[key].blockedUntil - now;
      if d <= 0 { d := 0; }
    }

    /** The longest wait over the keys. */
    method MaxRetryAfter(keys: seq<string>, now: int) returns (longest: int)
      ensures forall k :: k in keys ==> Wait(entries, k, now) <= longest
      ensures longest == 0 || exists k :: k in keys && Wait(entries, k, now) == longest
      ensures longest == 0 <==> forall k :: k in keys ==> Wait(entries, k, now) == 0
    {
      longest := 0;
      for i := 0 to |keys|
        invariant longest >= 0 && forall k :: k in keys[..i] ==> Wait(entries, k, now) <= longest
        invariant longest == 0 || exists k :: k in keys && Wait(entries, k, now) == longest
      {
        var d := RetryAfter(keys[i], now);
        if d > longest { longest := d; }
      }
      assert keys[..|keys|] == keys;
    }

    method RecordFailure(keys: seq<string>, now: int)
      requires Sane(Settings())
      modifies this
      ensures entries == Failed(Settings(), old(entries), keys, now)
    {
      for i := 0 to |keys|
        invariant entries == Failed(Settings(), old(entries), keys[..i], now)
      {
        var k := keys[i];
        var failures := if k in entries then entries[k].failures + 1 else 1;
        var wait := ComputeBackoff(base, cap, failures);
        assert keys[..i + 1][..i] == keys[..i];
        entries := entries[k := Entry(failures, now + wait as int)];
      }
      assert keys[..|keys|] == keys;
    }

    method RecordSuccess(keys: seq<string>)
      modifies this
      ensures entries == Cleared(old(entries), keys)
      ensures forall k :: k in keys ==> k !in entries
      ensures forall k :: k !in keys ==>
                (k in entries <==> k in old(entries)) && (k in entries ==> entries[k] == old(entries)[k])
    {
      for i := 0 to |keys|
        invariant entries == Cleared(old(entries), keys[..i])
      {
        entries := entries - {keys[i]};
      }
      assert keys[..|keys|] == keys;
    }

    method EvictExpired(now: int)
      modifies this
      ensures entries == Swept(old(entries), now)
      ensures forall k :: k in entries <==> k in old(entries) && now < old(entries)[k].blockedUntil
      ensures forall k :: k in entries ==> entries[k] == old(entries)[k]
    {
      var todo := entries.Keys;
      while todo != {}
        invariant todo <= entries.Keys <= old(entries).Keys
        invariant forall k :: k in entries ==> entries[k] == old(entries)[k]
        invariant forall k :: k in old(entries) && k !in todo ==> (k in entries <==> old(entries)[k].blockedUntil > now)
        decreases todo
      {
        var k :| k in todo;
        if entries[k].blockedUntil <= now { entries := entries - {k}; }
        todo := todo - {k};
      }
    }
  }

  // ----- Whole runs -----------------------------------------------------------------------

  datatype Event = Failure(keys: seq<string>) | Success(keys: seq<string>) | Evict

  datatype Tick = Tick(event: Event, now: int)

  function Step(c: Curve, s: Entries, t: Tick): Entries {
    match t.event
    case Failure(keys) => Failed(c, s, keys, t.now)
    case Success(keys) => Cleared(s, keys)
    case Evict => Swept(s, t.now)
  }

  /** The limiter after a run, from the empty limiter. */
  function StateAfter(c: Curve, ticks: seq<Tick>): Entries {
    if ticks == [] then map[] else Step(c, StateAfter(c, ticks[..|ticks| - 1]), ticks[|ticks| - 1])
  }

  function Times(keys: seq<string>, key: string, now: int): seq<int> {
    if keys == [] then [] else Times(keys[..|keys| - 1], key, now) + if keys[|keys| - 1] == key then [now] else []
  }

  predicate Elapsed(c: Curve, h: seq<int>, now: int) {
    h != [] && h[|h| - 1] + Backoff(c, |h|) <= now
  }

  /** The times of the key's consecutive failures: since its last success, or the last sweep that
      found its wait over. */
  function History(c: Curve, ticks: seq<Tick>, key: string): seq<int> {
    if ticks == [] then []
    else
      var h, t := History(c, ticks[..|ticks| - 1], key), ticks[|ticks| - 1];
      match t.event
      case Failure(keys) => h + Times(keys, key, t.now)
      case Success(keys) => if key in keys then [] else h
      case Evict => if Elapsed(c, h, t.now) then [] else h
  }

  /** The entry says no more and no less than the key's failure history. */
  predicate Records(c: Curve, s: Entries, key: string, h: seq<int>) {
    if h == [] then key !in s else key in s && s[key] == Entry(|h|, h[|h| - 1] + Backoff(c, |h|))
  }

  lemma {:induction false} FailedRecords(c: Curve, s: Entries, keys: seq<string>, now: int, key: string, h: seq<int>)
    requires Records(c, s, key, h)
    ensures Records(c, Failed(c, s, keys, now), key, h + Times(keys, key, now))
  {
    if keys == [] {
      assert h + [] == h;
    } else {
      var first := keys[..|keys| - 1];
      FailedRecords(c, s, first, now, key, h);
      assert h + Times(keys, key, now) == (h + Times(first, key, now)) + if keys[|keys| - 1] == key then [now] else [];
    }
  }

  /** In every run the limiter's state is exactly the recent failure history of each key. */
  lemma {:induction false} StateIsHistory(c: Curve, ticks: seq<Tick>, key: string)
    ensures Records(c, StateAfter(c, ticks), key, History(c, ticks, key))
  {
    if ticks == [] {
    } else {
      var first, t := ticks[..|ticks| - 1], ticks[|ticks| - 1];
      StateIsHistory(c, first, key);
      if t.event.Failure? { FailedRecords(c, StateAfter(c, first), t.event.keys, t.now, key, History(c, first, key)); }
    }
  }

  /** Only ever delayed: at any time, a key waits at most until its last failure plus the cap, and
      a key with no recent failure does not wait. */
  lemma NeverLocked(c: Curve, ticks: seq<Tick>, key: string, now: int)
    requires Sane(c)
    ensures var h := History(c, ticks, key);
            && (h == [] ==> Wait(StateAfter(c, ticks), key, now) == 0)
            && 0 <= Wait(StateAfter(c, ticks), key, now)
            && (h != [] && Wait(StateAfter(c, ticks), key, now) > 0 ==>
                  now + Wait(StateAfter(c, ticks), key, now) <= h[|h| - 1] + c.cap)
  {
    StateIsHistory(c, ticks, key);
    BackoffMonotone(c, |History(c, ticks, key)|, |History(c, ticks, key)|);
  }

  // ----- Eviction ---------------------------------------------------------------------------

  /** A sweep changes no answer then or later; the next failure tells it apart exactly when the
      sweep dropped the key. */
  lemma EvictionShows(c: Curve, s: Entries, key: string, now: int, later: int)
    requires Sane(c) && now <= later && (key in s ==> s[key].failures >= 1)
    ensures Wait(Swept(s, now), key, later) == Wait(s, key, later)
    ensures Wait(Failed(c, Swept(s, now), [key], later), key, later) == Wait(Failed(c, s, [key], later), key, later)
            <==> (key in s ==> s[key].blockedUntil > now)
  {
  }

  lemma OneFailure(c: Curve, s: Entries, key: string, now: int)
    ensures Failed(c, s, [key], now) == Bumped(c, s, key, now)
  {
    assert [key][..0] == [];
  }

  lemma NextState(c: Curve, ticks: seq<Tick>, t: Tick)
    ensures StateAfter(c, ticks + [t]) == Step(c, StateAfter(c, ticks), t)
  {
    assert (ticks + [t])[..|ticks|] == ticks;
  }

  /** Three failures of one key: the third costs two seconds, or nothing if a sweep came after the
      second one's wait. */
  lemma SweepRestartsCurve()
    ensures var two := [Tick(Failure(["k"]), 0)] + [Tick(Failure(["k"]), 0)];
            var sweep, third := Tick(Evict, 2 * SECOND), Tick(Failure(["k"]), 3 * SECOND);
            && Wait(StateAfter(PRODUCTION, two + [third]), "k", 3 * SECOND) == 2 * SECOND
            && Wait(StateAfter(PRODUCTION, two + [sweep] + [third]), "k", 3 * SECOND) == 0
  {
    var first := Tick(Failure(["k"]), 0);
    var sweep, third := Tick(Evict, 2 * SECOND), Tick(Failure(["k"]), 3 * SECOND);
    var s1 := map["k" := Entry(1, 0)];
    var s2 := map["k" := Entry(2, SECOND)];
    assert [first] == [] + [first];
    NextState(PRODUCTION, [], first);
    OneFailure(PRODUCTION, map[], "k", 0);
    NextState(PRODUCTION, [first], first);
    OneFailure(PRODUCTION, s1, "k", 0);
    assert StateAfter(PRODUCTION, [first] + [first]) == s2;
    NextState(PRODUCTION, [first] + [first], third);
    OneFailure(PRODUCTION, s2, "k", 3 * SECOND);
    NextState(PRODUCTION, [first] + [first], sweep);
    NextState(PRODUCTION, [first] + [first] + [sweep], third);
    OneFailure(PRODUCTION, map[], "k", 3 * SECOND);
  }

  // ----- Guessing ---------------------------------------------------------------------------

  predicate Distinct(keys: seq<string>) {
    forall i, j :: 0 <= i < j < |keys| ==> keys[i] != keys[j]
  }

  /** Attempts are made only when every key's wait is over, each with distinct keys. */
  ghost predicate Gated(c: Curve, ticks: seq<Tick>) {
    ticks != [] ==>
      var first, t := ticks[..|ticks| - 1], ticks[|ticks| - 1];
      && Gated(c, first)
      && (t.event.Failure? ==>
            Distinct(t.event.keys) && forall k :: k in t.event.keys ==> Wait(StateAfter(c, first), k, t.now) == 0)
  }

  ghost predicate Spaced(c: Curve, h: seq<int>) {
    forall i :: 0 <= i < |h| - 1 ==> h[i + 1] - h[i] >= Backoff(c, i + 1)
  }

  lemma {:induction false} TimesOnce(keys: seq<string>, key: string, now: int)
    requires Distinct(keys)
    ensures Times(keys, key, now) == if key in keys then [now] else []
  {
    if keys == [] {
    } else {
      var first := keys[..|keys| - 1];
      TimesOnce(first, key, now);
      assert keys == first + [keys[|keys| - 1]];
    }
  }

  /** In a gated run consecutive failures of a key are at least the backoff apart. */
  lemma {:induction false} FailuresAreSpaced(c: Curve, ticks: seq<Tick>, key: string)
    requires Gated(c, ticks)
    ensures Spaced(c, History(c, ticks, key))
  {
    if ticks == [] {
    } else {
      var first, t := ticks[..|ticks| - 1], ticks[|ticks| - 1];
      FailuresAreSpaced(c, first, key);
      StateIsHistory(c, first, key);
      if t.event.Failure? { TimesOnce(t.event.keys, key, t.now); }
    }
  }

  /** backoff(1) + ... + backoff(n). */
  function TotalBackoff(c: Curve, n: nat): int {
    if n == 0 then 0 else TotalBackoff(c, n - 1) + Backoff(c, n)
  }

  lemma {:induction false} SpacedTotal(c: Curve, h: seq<int>, k: nat)
    requires Spaced(c, h) && 1 <= k <= |h|
    ensures h[k - 1] - h[0] >= TotalBackoff(c, k - 1)
  {
    if k <= 1 {
    } else {
      SpacedTotal(c, h, k - 1);
    }
  }

  /** Below the cap the total doubles with every failure. */
  lemma {:induction false} TotalClosedForm(c: Curve, k: nat)
    requires Sane(c) && k >= 2 && (k >= 3 ==> c.base * Pow2(k - 3) <= c.cap)
    ensures TotalBackoff(c, k - 1) == c.base * (Pow2(k - 2) - 1)
  {
    if k == 2 {
      assert TotalBackoff(c, 1) == TotalBackoff(c, 0) + Backoff(c, 1);
    } else {
      if k >= 4 { Scale(c.base, Pow2(k - 4), Pow2(k - 3)); }
      TotalClosedForm(c, k - 1);
    }
  }

  lemma CappedFrom(c: Curve, k: nat, n: nat)
    requires Sane(c) && 2 <= k <= n && c.base * Pow2(k - 2) >= c.cap
    ensures Backoff(c, n) == c.cap
  {
    Pow2Grows(k - 2, n - 2);
    Scale(c.base, Pow2(k - 2), Pow2(n - 2));
  }

  lemma OneMore(n: int, cap: int)
    ensures n * cap == (n - 1) * cap + cap
  {
  }

  /** Once the curve has reached the cap, every further failure costs a full cap. */
  lemma {:induction false} FlatRate(c: Curve, h: seq<int>, k: nat, n: nat)
    requires Sane(c) && Spaced(c, h) && 2 <= k && k + n <= |h| && c.base * Pow2(k - 2) >= c.cap
    ensures h[k + n - 1] - h[k - 1] >= n * c.cap
  {
    if n == 0 {
    } else {
      hide Sane, Pow2, Backoff;
      FlatRate(c, h, k, n - 1);
      CappedFrom(c, k, k + n - 1);
      assert h[k + n - 1] - h[k + n - 2] >= Backoff(c, k + n - 1);
      OneMore(n, c.cap);
    }
  }

  /** The k-th consecutive failure of a key comes at least the sum of the backoffs after the
      first: base * (2^(k-2) - 1) while below the cap, and a cap apiece from there on. */
  lemma GuessingBound(c: Curve, ticks: seq<Tick>, key: string, k: nat)
    requires Sane(c) && Gated(c, ticks) && 1 <= k <= |History(c, ticks, key)|
    ensures var h := History(c, ticks, key);
            && h[k - 1] - h[0] >= TotalBackoff(c, k - 1)
            && (k >= 2 && (k >= 3 ==> c.base * Pow2(k - 3) <= c.cap) ==> h[k - 1] - h[0] >= c.base * (Pow2(k - 2) - 1))
            && (k >= 2 && c.base * Pow2(k - 2) >= c.cap ==> h[|h| - 1] - h[k - 1] >= (|h| - k) * c.cap)
  {
    FailuresAreSpaced(c, ticks, key);
    if k >= 2 && c.base * Pow2(k - 2) >= c.cap { FlatRate(c, History(c, ticks, key), k, |History(c, ticks, key)| - k); }
    SpacedTotal(c, History(c, ticks, key), k);
    if k >= 2 && (k >= 3 ==> c.base * Pow2(k - 3) <= c.cap) { TotalClosedForm(c, k); }
  }
}
