/** A fixed-window quota per key in a bounded table. */
module RateLimit {
  import opened Collections
  import opened Options

  datatype Config = Config(limit: nat, window: real, maxKeys: nat)
  {
    predicate Bounded() { window >= 1.0 && maxKeys >= 1 }

    predicate Valid() { limit >= 1 && Bounded() }
  }

  /** When the key's window opened, and how many attempts it has counted. */
  datatype Slot = Slot(start: real, count: nat)

  type Table = map<string, Slot>

  function Lookup(hits: Table, key: string): Option<Slot> { if key in hits then Some(hits[key]) else None }

  predicate Dead(cfg: Config, slot: Slot, now: real) { now - slot.start >= cfg.window }

  /** One attempt against a key's slot. */
  function Count(cfg: Config, slot: Option<Slot>, now: real): (Slot, bool) {
    if slot.None? || Dead(cfg, slot.value, now) then (Slot(now, 1), true)
    else if slot.value.count >= cfg.limit then (slot.value, false)
    else (slot.value.(count := slot.value.count + 1), true)
  }

  function Counted(cfg: Config, hits: Table, key: string, now: real): Table {
    hits[key := Count(cfg, Lookup(hits, key), now).0]
  }

  function Live(cfg: Config, hits: Table, now: real): Table {
    map k | k in hits && !Dead(cfg, hits[k], now) :: hits[k]
  }

  /** `kept` is `live` less its oldest windows beyond the cap. */
  ghost predicate Capped(cfg: Config, live: Table, kept: Table) {
    && (forall k | k in kept :: k in live && kept[k] == live[k])
    && |kept| == (if |live| <= cfg.maxKeys then |live| else cfg.maxKeys)
    && (forall e, k | e in live && e !in kept && k in kept :: live[e].start <= live[k].start)
  }

  function Truncate(x: real): int { if x >= 0.0 then x.Floor else -((-x).Floor) }

  /** Whole seconds a caller is told to wait. */
  function RetryAfter(cfg: Config, slot: Option<Slot>, now: real): int {
    if slot.None? then 1
    else
      var s := Truncate(cfg.window - (now - slot.value.start)) + 1;
      if s < 1 then 1 else s
  }

  /** Waiting that long always suffices, and for a live window it is at most a second too long. */
  lemma RetryAfterSuffices(cfg: Config, slot: Option<Slot>, now: real, later: real)
    requires cfg.Valid() && later >= now + RetryAfter(cfg, slot, now) as real
    ensures Count(cfg, slot, later).1
    ensures slot.Some? && !Dead(cfg, slot.value, now) ==>
      slot.value.start + cfg.window < now + RetryAfter(cfg, slot, now) as real <= slot.value.start + cfg.window + 1.0
  {
  }

  // ---- the sliding bound, on the times a key was admitted ----------------------

  /** Index of the admission that opened the window the last one falls in. */
  function Opener(w: real, a: seq<real>): (p: nat)
    requires a != []
    ensures p < |a|
  {
    var n := |a| - 1;
    if n == 0 then 0
    else
      var p := Opener(w, a[..n]);
      if a[n] - a[p] >= w then n else p
  }

  ghost predicate Sorted(a: seq<real>) { forall i, j | 0 <= i < j < |a| :: a[i] <= a[j] }

  /** At most `limit` admissions in every window. */
  ghost predicate WithinQuota(cfg: Config, a: seq<real>) {
    a != [] ==> |a| - Opener(cfg.window, a) <= cfg.limit && WithinQuota(cfg, a[..|a| - 1])
  }

  lemma {:induction false} QuotaOfPrefix(cfg: Config, a: seq<real>, n: nat)
    requires WithinQuota(cfg, a) && 1 <= n <= |a|
    ensures n - Opener(cfg.window, a[..n]) <= cfg.limit
    decreases |a|
  {
    if n < |a| {
      QuotaOfPrefix(cfg, a[..|a| - 1], n);
      assert a[..|a| - 1][..n] == a[..n];
    } else {
      assert a[..n] == a;
    }
  }

  lemma {:induction false} OpenerFacts(w: real, a: seq<real>)
    requires a != [] && Sorted(a) && w > 0.0
    ensures var p := Opener(w, a);
      && (forall m | p <= m < |a| :: a[m] - a[p] < w)
      && (p > 0 ==> a[p] - a[Opener(w, a[..p])] >= w && a[p - 1] < a[p])
  {
    var n := |a| - 1;
    if n > 0 {
      OpenerFacts(w, a[..n]);
      var p := Opener(w, a[..n]);
      assert p > 0 ==> a[..n][..p] == a[..p];
    }
  }

  /** The window of the n-th admission: within quota, and a whole window after the one before it opened. */
  lemma WindowAt(cfg: Config, a: seq<real>, n: nat) returns (p: nat)
    requires cfg.Valid() && Sorted(a) && WithinQuota(cfg, a) && 1 <= n <= |a|
    ensures p < n && n - p <= cfg.limit && p == Opener(cfg.window, a[..n])
    ensures p > 0 ==> a[p - 1] < a[p] && a[p] - a[Opener(cfg.window, a[..p])] >= cfg.window
  {
    QuotaOfPrefix(cfg, a, n);
    OpenerFacts(cfg.window, a[..n]);
    p := Opener(cfg.window, a[..n]);
    assert a[..n][..p] == a[..p];
  }

  lemma TwoWindows(a: seq<real>, w: real, limit: nat, i: nat, j: nat, p: nat, q: nat)
    requires Sorted(a) && i < p <= j < |a| && q < p && w > 0.0 && a[j] - a[i] <= w
    requires j + 1 - p <= limit && p - q <= limit && a[p] - a[q] >= w && (q > 0 ==> a[q - 1] < a[q])
    ensures j - i + 1 <= 2 * limit
  {
    assert a[p] <= a[j];
    assert q > 0 ==> forall m | 0 <= m < q :: a[m] <= a[q - 1];
  }

  /** Any span of one window length, wherever it lies, holds at most twice the limit. */
  lemma SlidingBound(cfg: Config, a: seq<real>, i: nat, j: nat)
    requires cfg.Valid() && Sorted(a) && WithinQuota(cfg, a)
    requires i <= j < |a| && a[j] - a[i] <= cfg.window
    ensures j - i + 1 <= 2 * cfg.limit
  {
    var p := WindowAt(cfg, a, j + 1);
    if i < p {
      var q := WindowAt(cfg, a, p);
      TwoWindows(a, cfg.window, cfg.limit, i, j, p, q);
    }
  }

  // ---- runs ----------------------------------------------------------------------

  datatype Attempt = Attempt(key: string, at: real, ok: bool)

  /** The limiter with its record: all attempts, the keys whose live window was ever evicted, and the clock. */
  datatype Limiter = Limiter(hits: Table, log: seq<Attempt>, evicted: set<string>, now: real)

  function Admitted(log: seq<Attempt>, key: string): seq<real> {
    if log == [] then []
    else
      var x := log[|log| - 1];
      Admitted(log[..|log| - 1], key) + (if x.key == key && x.ok then [x.at] else [])
  }

  ghost predicate Step(cfg: Config, s: Limiter, key: string, now: real, t: Limiter) {
    var counted := Counted(cfg, s.hits, key, now);
    var live := Live(cfg, counted, now);
    && t.now == now
    && Capped(cfg, live, t.hits)
    && t.log == s.log + [Attempt(key, now, Count(cfg, Lookup(s.hits, key), now).1)]
    && t.evicted == s.evicted + (live.Keys - t.hits.Keys)
  }

  /** The key's slot is what its admissions say it should be. */
  ghost predicate Tracks(cfg: Config, slot: Option<Slot>, a: seq<real>, now: real) {
    && Sorted(a) && WithinQuota(cfg, a) && (a != [] ==> a[|a| - 1] <= now)
    && (slot.Some? ==> a != [] && slot.value == Slot(a[Opener(cfg.window, a)], |a| - Opener(cfg.window, a)))
    && (slot.None? && a != [] ==> now - a[Opener(cfg.window, a)] >= cfg.window)
  }

  ghost predicate Sound(cfg: Config, s: Limiter) {
    |s.hits| <= cfg.maxKeys &&
    forall key | key !in s.evicted :: Tracks(cfg, Lookup(s.hits, key), Admitted(s.log, key), s.now)
  }

  lemma OpenerSnoc(w: real, a: seq<real>, at: real)
    ensures Opener(w, a + [at]) == if a != [] && at - a[Opener(w, a)] < w then Opener(w, a) else |a|
  {
    assert (a + [at])[..|a|] == a;
  }

  /** One more admission: it opens a window or, within quota, joins the current one. */
  lemma QuotaSnoc(cfg: Config, a: seq<real>, at: real)
    requires cfg.Valid() && Sorted(a) && WithinQuota(cfg, a) && (a != [] ==> a[|a| - 1] <= at)
    requires a != [] && at - a[Opener(cfg.window, a)] < cfg.window ==>
      |a| - Opener(cfg.window, a) < cfg.limit
    ensures Sorted(a + [at]) && WithinQuota(cfg, a + [at])
  {
    var b := a + [at];
    OpenerSnoc(cfg.window, a, at);
    hide Opener;
    assert b[..|b| - 1] == a;
  }

  lemma CountTracks(cfg: Config, slot: Option<Slot>, a: seq<real>, now: real, later: real)
    requires cfg.Valid() && Tracks(cfg, slot, a, now) && now <= later
    ensures var (k, ok) := Count(cfg, slot, later);
      Tracks(cfg, Some(k), if ok then a + [later] else a, later)
  {
    if Count(cfg, slot, later).1 {
      QuotaSnoc(cfg, a, later);
      OpenerSnoc(cfg.window, a, later);
    }
  }

  /** Another key's slot just ages: it stays while its window lives, unless it is evicted. */
  lemma WaitingTracks(cfg: Config, slot: Option<Slot>, a: seq<real>, now: real, later: real)
    requires cfg.Valid() && Tracks(cfg, slot, a, now) && now <= later
    ensures Tracks(cfg, slot, a, later)
    ensures slot.Some? && Dead(cfg, slot.value, later) ==> Tracks(cfg, None, a, later)
  {
  }

  lemma CountedIsLive(cfg: Config, slot: Option<Slot>, now: real)
    requires cfg.Valid()
    ensures !Dead(cfg, Count(cfg, slot, now).0, now)
  {
  }

  /** What a key's slot becomes, if it is not evicted. */
  lemma SlotAfter(cfg: Config, s: Limiter, key: string, now: real, t: Limiter, k: string)
    requires cfg.Valid() && Step(cfg, s, key, now, t) && k !in t.evicted
    ensures k == key ==> Lookup(t.hits, k) == Some(Count(cfg, Lookup(s.hits, key), now).0)
    ensures k != key ==>
      Lookup(t.hits, k) == if k in s.hits && !Dead(cfg, s.hits[k], now) then Lookup(s.hits, k) else None
  {
    CountedIsLive(cfg, Lookup(s.hits, key), now);
    var live := Live(cfg, Counted(cfg, s.hits, key, now), now);
    assert k in live ==> k in t.hits;
  }

  lemma StepKeepsSound(cfg: Config, s: Limiter, key: string, now: real, t: Limiter)
    requires cfg.Valid() && Sound(cfg, s) && Step(cfg, s, key, now, t) && s.now <= now
    ensures Sound(cfg, t)
  {
    var ok := Count(cfg, Lookup(s.hits, key), now).1;
    assert t.log[..|s.log|] == s.log;
    forall k | k !in t.evicted ensures Tracks(cfg, Lookup(t.hits, k), Admitted(t.log, k), t.now) {
      var slot, a := Lookup(s.hits, k), Admitted(s.log, k);
      assert Tracks(cfg, slot, a, s.now);
      SlotAfter(cfg, s, key, now, t, k);
      assert Admitted(t.log, k) == if k == key && ok then a + [now] else a;
      if k == key {
        CountTracks(cfg, slot, a, s.now, now);
      } else {
        WaitingTracks(cfg, slot, a, s.now, now);
      }
    }
  }

  ghost predicate IsRun(cfg: Config, states: seq<Limiter>, keys: seq<string>) {
    && |states| == |keys| + 1 && states[0] == Limiter(map[], [], {}, states[0].now)
    && forall n | 0 <= n < |keys| ::
         states[n].now <= states[n + 1].now && Step(cfg, states[n], keys[n], states[n + 1].now, states[n + 1])
  }

  lemma {:induction false} RunIsSound(cfg: Config, states: seq<Limiter>, keys: seq<string>, n: nat)
    requires cfg.Valid() && IsRun(cfg, states, keys) && n < |states|
    ensures Sound(cfg, states[n])
  {
    if n > 0 {
      RunIsSound(cfg, states, keys, n - 1);
      StepKeepsSound(cfg, states[n - 1], keys[n - 1], states[n].now, states[n]);
    }
  }

  /**
    Over any run on a clock that never runs back, the table never ends a call above its cap, and a key whose live
    window was never evicted gets at most `limit` admissions in each window it opens and at most 2 * limit in any
    span of one window length.
   */
  lemma QuotaHolds(cfg: Config, states: seq<Limiter>, keys: seq<string>, n: nat, key: string, i: nat, j: nat)
    requires cfg.Valid() && IsRun(cfg, states, keys) && n < |states| && key !in states[n].evicted
    ensures |states[n].hits| <= cfg.maxKeys
    ensures WithinQuota(cfg, Admitted(states[n].log, key))
    ensures var a := Admitted(states[n].log, key);
      i <= j < |a| && a[j] - a[i] <= cfg.window ==> j - i + 1 <= 2 * cfg.limit
  {
    RunIsSound(cfg, states, keys, n);
    var a := Admitted(states[n].log, key);
    assert Tracks(cfg, Lookup(states[n].hits, key), a, states[n].now);
    if i <= j < |a| && a[j] - a[i] <= cfg.window { SlidingBound(cfg, a, i, j); }
  }

  /** A live window is dropped only from a full table, and only if it opened no later than all that are kept. */
  lemma OldestIsEvicted(cfg: Config, s: Limiter, key: string, now: real, t: Limiter, k: string)
    requires cfg.Valid() && Step(cfg, s, key, now, t) && k in t.evicted && k !in s.evicted
    ensures |t.hits| == cfg.maxKeys && k !in t.hits
    ensures k != key ==> k in s.hits && now - s.hits[k].start < cfg.window
    ensures var start := if k in s.hits && now - s.hits[k].start < cfg.window then s.hits[k].start else now;
      forall j | j in t.hits :: start <= t.hits[j].start
  {
    var live := Live(cfg, Counted(cfg, s.hits, key, now), now);
    assert k in live && k !in t.hits;
    SubsetSize(t.hits.Keys, live.Keys - {k});
  }

  // ---- the limiter in its own form -------------------------------------------------

  class RateLimiter {
    const cfg: Config
    var hits: Table
    ghost var log: seq<Attempt>
    ghost var evicted: set<string>
    ghost var clock: real

    ghost function View(): Limiter
      reads this
    {
      Limiter(hits, log, evicted, clock)
    }

    ghost predicate Valid()
      reads this
    {
      cfg.Bounded() && |hits| <= cfg.maxKeys
    }

    /** The slots say what the admissions on the record say. */
    ghost predicate InStep()
      reads this
    {
      cfg.limit >= 1 ==> Sound(cfg, View())
    }

    /** Nonsensical settings are pulled into range; a limit of 0 switches the limiter off. */
    constructor (limit: int, window: real, maxKeys: int, ghost now: real)
      ensures Valid() && InStep() && View() == Limiter(map[], [], {}, now)
      ensures cfg.limit == (if limit < 0 then 0 else limit)
      ensures cfg.window == MaxReal(window, 1.0) && cfg.maxKeys == if maxKeys < 1 then 1 else maxKeys
    {
      cfg := Config(if limit < 0 then 0 else limit, MaxReal(window, 1.0), if maxKeys < 1 then 1 else maxKeys);
      hits, log, evicted, clock := map[], [], {}, now;
    }

    /** Drops dead windows, then the oldest ones beyond the cap. */
    method Prune(now: real)
      modifies this`hits
      ensures Capped(cfg, Live(cfg, old(hits), now), hits)
    {
      hits := map k | k in hits && !Dead(cfg, hits[k], now) :: hits[k];
      ghost var live := hits;
      while |hits| > cfg.maxKeys
        invariant forall k | k in hits :: k in live && hits[k] == live[k]
        invariant |live| <= cfg.maxKeys ==> hits == live
        invariant |live| >= cfg.maxKeys ==> |hits| >= cfg.maxKeys
        invariant forall e, k | e in live && e !in hits && k in hits :: live[e].start <= live[k].start
        decreases |hits|
      {
        OldestExists(hits, hits.Keys);
        var oldest :| oldest in hits && forall k | k in hits :: hits[oldest].start <= hits[k].start;
        ghost var before := hits;
        hits := hits - {oldest};
        assert before.Keys == hits.Keys + {oldest};
        assert |before| == |before.Keys| && |hits| == |hits.Keys|;
      }
    }

    /**
      One attempt, at a time read before the lock was taken: two threads may enter with times in either order. What
      the quota rests on is kept as long as the times do not run back.
     */
    method Allow(key: string, now: real) returns (ok: bool)
      requires Valid()
      modifies this
      ensures Valid()
      ensures old(InStep()) && old(clock) <= now ==> InStep()
      ensures cfg.limit == 0 ==> ok && View() == old(View())
      ensures cfg.limit >= 1 ==>
        Step(cfg, old(View()), key, now, View()) && ok == Count(cfg, Lookup(old(hits), key), now).1
    {
      if cfg.limit == 0 { return true; }
      ghost var s := View();
      if key !in hits || now - hits[key].start >= cfg.window {
        hits := hits[key := Slot(now, 1)];
        ok := true;
      } else if hits[key].count >= cfg.limit {
        ok := false;
      } else {
        hits := hits[key := hits[key].(count := hits[key].count + 1)];
        ok := true;
      }
      assert hits == Counted(cfg, s.hits, key, now);
      Prune(now);
      log, clock := log + [Attempt(key, now, ok)], now;
      evicted := evicted + (Live(cfg, Counted(cfg, s.hits, key, now), now).Keys - hits.Keys);
      if Sound(cfg, s) && s.now <= now { StepKeepsSound(cfg, s, key, now, View()); }
    }

    method WaitFor(key: string, now: real) returns (seconds: int)
      ensures seconds == RetryAfter(cfg, Lookup(hits, key), now) && seconds >= 1
    {
      if key !in hits { return 1; }
      seconds := Truncate(cfg.window - (now - hits[key].start)) + 1;
      if seconds < 1 { seconds := 1; }
    }
  }

  lemma {:induction false} OldestExists(hits: Table, keys: set<string>)
    requires keys != {} && keys <= hits.Keys
    ensures exists e :: e in keys && forall k | k in keys :: hits[e].start <= hits[k].start
    decreases keys
  {
    var x :| x in keys;
    var rest := keys - {x};
    if rest == {} {
      assert keys == {x};
    } else {
      OldestExists(hits, rest);
      var e :| e in rest && forall k | k in rest :: hits[e].start <= hits[k].start;
      var oldest := if hits[x].start < hits[e].start then x else e;
      assert forall k | k in keys :: k == x || k in rest;
      assert oldest in keys && forall k | k in keys :: hits[oldest].start <= hits[k].start;
    }
  }

  // ---- a refusal has its reason ------------------------------------------------------

  /**
    A key whose live window was never evicted is refused only if its last `limit` attempts admitted all lie within a
    window of the time of the refusal.
   */
  lemma RefusedAtLimit(cfg: Config, s: Limiter, key: string, now: real)
    requires cfg.Valid() && Sound(cfg, s) && key !in s.evicted && !Count(cfg, Lookup(s.hits, key), now).1
    ensures var a := Admitted(s.log, key);
      |a| >= cfg.limit && forall m | |a| - cfg.limit <= m < |a| :: now - a[m] < cfg.window
  {
    var a := Admitted(s.log, key);
    assert Tracks(cfg, Lookup(s.hits, key), a, s.now);
    var p := Opener(cfg.window, a);
    assert forall m | p <= m < |a| :: a[p] <= a[m];
  }

  /** So over any run an attempt is admitted while fewer than `limit` of the key's were, within a window of it. */
  lemma AdmittedBelowLimit(cfg: Config, states: seq<Limiter>, keys: seq<string>, n: nat)
    requires cfg.Valid() && IsRun(cfg, states, keys) && n < |keys| && keys[n] !in states[n].evicted
    requires var a := Admitted(states[n].log, keys[n]);
      |a| < cfg.limit || states[n + 1].now - a[|a| - cfg.limit] >= cfg.window
    ensures states[n + 1].log == states[n].log + [Attempt(keys[n], states[n + 1].now, true)]
  {
    RunIsSound(cfg, states, keys, n);
    assert Step(cfg, states[n], keys[n], states[n + 1].now, states[n + 1]);
    if !Count(cfg, Lookup(states[n].hits, keys[n]), states[n + 1].now).1 {
      RefusedAtLimit(cfg, states[n], keys[n], states[n + 1].now);
    }
  }
}
