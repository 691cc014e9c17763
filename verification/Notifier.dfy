/** The dispatcher: new events are announced once on every channel, alone or in one digest. */
module Notifier {
  import opened Collections
  import opened Options
  import opened ReliableDelivery

  const DIGEST_THRESHOLD := 5

  /** The events nobody was told about yet. */
  function NewEvents(seen: set<string>, events: seq<Event>): seq<Event> {
    if events == [] then []
    else
      var e := events[|events| - 1];
      NewEvents(seen, events[..|events| - 1]) + (if e.key in seen then [] else [e])
  }

  function KeySet(events: seq<Event>): set<string> { set e | e in events :: e.key }

  function OneByOne(events: seq<Event>): seq<Item> {
    seq(|events|, i requires 0 <= i < |events| => One(events[i]))
  }

  /** The messages one dispatch hands to every channel. */
  function Announce(unseen: seq<Event>): seq<Item> {
    if |unseen| > DIGEST_THRESHOLD then [Digest(unseen)] else OneByOne(unseen)
  }

  function EventsOf(item: Item): seq<Event> {
    match item
    case One(e) => [e]
    case Digest(es) => es
    case Text(_) => []
  }

  function AllEvents(items: seq<Item>): seq<Event> {
    if items == [] then [] else AllEvents(items[..|items| - 1]) + EventsOf(items[|items| - 1])
  }

  // ---- runs of polls -----------------------------------------------------------

  /** What is seen, and what every channel was given, after a run of polls. */
  function SeenAfter(seen: set<string>, polls: seq<seq<Event>>): set<string> {
    if polls == [] then seen else SeenAfter(seen, polls[..|polls| - 1]) + KeySet(polls[|polls| - 1])
  }

  function GivenAfter(seen: set<string>, polls: seq<seq<Event>>): seq<Item> {
    if polls == [] then []
    else
      var front := polls[..|polls| - 1];
      GivenAfter(seen, front) + Announce(NewEvents(SeenAfter(seen, front), polls[|polls| - 1]))
  }

  ghost predicate DistinctKeys(events: seq<Event>) {
    forall i, j | 0 <= i < j < |events| :: events[i].key != events[j].key
  }

  lemma {:induction false} AllEventsConcat(a: seq<Item>, b: seq<Item>)
    ensures AllEvents(a + b) == AllEvents(a) + AllEvents(b)
    decreases |b|
  {
    if b == [] {
      assert a + b == a;
    } else {
      AllEventsConcat(a, b[..|b| - 1]);
      assert (a + b)[..|a + b| - 1] == a + b[..|b| - 1];
    }
  }

  lemma {:induction false} OneByOneIsAll(events: seq<Event>)
    ensures AllEvents(OneByOne(events)) == events
    decreases |events|
  {
    if events != [] {
      var front := events[..|events| - 1];
      OneByOneIsAll(front);
      assert OneByOne(events)[..|events| - 1] == OneByOne(front);
      assert events == front + [events[|events| - 1]];
    }
  }

  lemma AnnounceIsAll(events: seq<Event>)
    ensures AllEvents(Announce(events)) == events
  {
    OneByOneIsAll(events);
    assert [Digest(events)][..0] == [];
  }

  /** Up to five new events are announced one by one, more in one digest. */
  lemma AnnounceShape(unseen: seq<Event>)
    ensures |unseen| > 5 ==> Announce(unseen) == [Digest(unseen)]
    ensures |unseen| <= 5 ==>
      |Announce(unseen)| == |unseen| && forall i | 0 <= i < |unseen| :: Announce(unseen)[i] == One(unseen[i])
  {
  }

  lemma AnnounceNothing()
    ensures Announce([]) == []
  {
  }

  lemma KeySetConcat(a: seq<Event>, b: seq<Event>)
    ensures KeySet(a + b) == KeySet(a) + KeySet(b)
  {
  }

  lemma DistinctSnoc(a: seq<Event>, e: Event)
    requires DistinctKeys(a) && e.key !in KeySet(a)
    ensures DistinctKeys(a + [e])
  {
    forall i | 0 <= i < |a| ensures a[i].key != e.key { assert a[i].key in KeySet(a); }
  }

  lemma DistinctFront(a: seq<Event>, e: Event)
    requires DistinctKeys(a + [e])
    ensures DistinctKeys(a) && e.key !in KeySet(a)
  {
    var all := a + [e];
    forall i, j | 0 <= i < j < |a| ensures a[i].key != a[j].key { assert all[i].key != all[j].key; }
    forall i | 0 <= i < |a| ensures a[i].key != e.key { assert all[i].key != all[|a|].key; }
  }

  lemma {:induction false} NewEventsAre(seen: set<string>, events: seq<Event>)
    ensures KeySet(NewEvents(seen, events)) == KeySet(events) - seen
    ensures forall e | e in NewEvents(seen, events) :: e in events
    decreases |events|
  {
    if events != [] {
      var front, last := events[..|events| - 1], events[|events| - 1];
      NewEventsAre(seen, front);
      assert events == front + [last];
      KeySetConcat(front, [last]);
      KeySetConcat(NewEvents(seen, front), [last]);
      assert last.key in seen ==> NewEvents(seen, events) == NewEvents(seen, front);
    }
  }

  lemma NewEventsSnoc(seen: set<string>, events: seq<Event>, n: nat)
    requires |events| == n + 1
    ensures events == events[..n] + [events[n]] && forall i | 0 <= i < n :: events[..n][i] == events[i]
    ensures NewEvents(seen, events) == NewEvents(seen, events[..n]) + if events[n].key !in seen then [events[n]] else []
  {
  }

  /** The new events of a poll are exactly those under an unseen key, in order. */
  lemma {:induction false} NewEventsExactly(seen: set<string>, events: seq<Event>) returns (at: seq<nat>)
    ensures Picks(events, at, NewEvents(seen, events))
    ensures forall i | 0 <= i < |events| :: i in at <==> events[i].key !in seen
    decreases |events|
  {
    if events == [] {
      at := [];
    } else {
      hide *;
      var n := |events| - 1;
      var before := NewEventsExactly(seen, events[..n]);
      var taken := events[n].key !in seen;
      NewEventsSnoc(seen, events, n);
      PicksSnoc(events[..n], events[n], before, NewEvents(seen, events[..n]), taken);
      at := before + if taken then [n] else [];
      forall i | 0 <= i < n ensures i in at <==> events[i].key !in seen {
        assert i in at <==> i in before;
        assert events[..n][i] == events[i];
      }
    }
  }

  /** No two events of the poll share a key nobody had seen. */
  ghost predicate NoTwins(seen: set<string>, events: seq<Event>) {
    forall i, j | 0 <= i < j < |events| && events[i].key == events[j].key :: events[i].key in seen
  }

  lemma DistinctSnocExactly(a: seq<Event>, e: Event)
    ensures DistinctKeys(a + [e]) <==> (DistinctKeys(a) && e.key !in KeySet(a))
  {
    if DistinctKeys(a + [e]) { DistinctFront(a, e); }
    if DistinctKeys(a) && e.key !in KeySet(a) { DistinctSnoc(a, e); }
  }

  lemma TwinsSnoc(seen: set<string>, a: seq<Event>, e: Event)
    ensures NoTwins(seen, a + [e]) <==> (NoTwins(seen, a) && (e.key in seen || e.key !in KeySet(a)))
  {
    var all := a + [e];
    if NoTwins(seen, all) {
      forall i, j | 0 <= i < j < |a| && a[i].key == a[j].key ensures a[i].key in seen {
        assert all[i].key == all[j].key;
      }
      if e.key in KeySet(a) {
        var i :| 0 <= i < |a| && a[i].key == e.key;
        assert all[i].key == all[|a|].key;
      }
    }
    if NoTwins(seen, a) && (e.key in seen || e.key !in KeySet(a)) {
      forall i, j | 0 <= i < j < |all| && all[i].key == all[j].key ensures all[i].key in seen {
        if j == |a| { assert a[i].key in KeySet(a); }
      }
    }
  }

  lemma {:induction false} NewAreDistinct(seen: set<string>, events: seq<Event>)
    ensures DistinctKeys(NewEvents(seen, events)) <==> NoTwins(seen, events)
    decreases |events|
  {
    if events != [] {
      var front, last := events[..|events| - 1], events[|events| - 1];
      NewAreDistinct(seen, front);
      NewEventsAre(seen, front);
      assert events == front + [last];
      TwinsSnoc(seen, front, last);
      DistinctSnocExactly(NewEvents(seen, front), last);
      assert last.key in seen ==> NewEvents(seen, events) == NewEvents(seen, front);
    }
  }

  lemma DistinctConcat(a: seq<Event>, b: seq<Event>)
    requires KeySet(a) !! KeySet(b)
    ensures DistinctKeys(a + b) <==> (DistinctKeys(a) && DistinctKeys(b))
  {
    var all := a + b;
    if DistinctKeys(all) {
      forall i, j | 0 <= i < j < |a| ensures a[i].key != a[j].key { assert all[i].key != all[j].key; }
      forall i, j | 0 <= i < j < |b| ensures b[i].key != b[j].key {
        assert all[|a| + i].key != all[|a| + j].key;
      }
    }
    if DistinctKeys(a) && DistinctKeys(b) {
      forall i, j | 0 <= i < j < |all| ensures all[i].key != all[j].key {
        if i < |a| <= j { assert a[i].key in KeySet(a) && b[j - |a|].key in KeySet(b); }
      }
    }
  }

  /** No poll holds two events under one key that was unseen before that poll. */
  ghost predicate TwinFree(seen: set<string>, polls: seq<seq<Event>>) {
    forall n | 0 <= n < |polls| :: NoTwins(SeenAfter(seen, polls[..n]), polls[n])
  }

  lemma TwinFreeSnoc(seen: set<string>, polls: seq<seq<Event>>)
    requires polls != []
    ensures var front := polls[..|polls| - 1];
      TwinFree(seen, polls) <==> (TwinFree(seen, front) && NoTwins(SeenAfter(seen, front), polls[|polls| - 1]))
  {
    hide NoTwins, SeenAfter;
    var front := polls[..|polls| - 1];
    assert forall n | 0 <= n <= |front| :: front[..n] == polls[..n];
  }

  lemma {:induction false} SeenGrows(seen: set<string>, polls: seq<seq<Event>>)
    ensures seen <= SeenAfter(seen, polls)
  {
    if polls != [] { SeenGrows(seen, polls[..|polls| - 1]); }
  }

  /** The keys a channel is given in a run are those that came to be seen in it, and every event given was polled. */
  lemma {:induction false} GivenAre(seen: set<string>, polls: seq<seq<Event>>)
    ensures var given := AllEvents(GivenAfter(seen, polls));
      && KeySet(given) == SeenAfter(seen, polls) - seen
      && forall e | e in given :: exists p :: p in polls && e in p
    decreases |polls|
  {
    if polls != [] {
      var front, p := polls[..|polls| - 1], polls[|polls| - 1];
      GivenAre(seen, front);
      GivenSnoc(seen, polls);
      SeenGrows(seen, front);
      var was, more := AllEvents(GivenAfter(seen, front)), NewEvents(SeenAfter(seen, front), p);
      NewEventsAre(SeenAfter(seen, front), p);
      KeySetConcat(was, more);
      forall e | e in was + more ensures exists q :: q in polls && e in q {
        if e in was { var q :| q in front && e in q; assert q in polls; } else { assert p in polls; }
      }
    }
  }

  lemma GivenSnoc(seen: set<string>, polls: seq<seq<Event>>)
    requires polls != []
    ensures var front := polls[..|polls| - 1];
      AllEvents(GivenAfter(seen, polls)) ==
      AllEvents(GivenAfter(seen, front)) + NewEvents(SeenAfter(seen, front), polls[|polls| - 1])
  {
    var front := polls[..|polls| - 1];
    var more := NewEvents(SeenAfter(seen, front), polls[|polls| - 1]);
    AllEventsConcat(GivenAfter(seen, front), Announce(more));
    AnnounceIsAll(more);
  }

  /**
    Over any run of polls every channel is given exactly the keys that were not seen at the start, each exactly once
    if and only if no poll holds two events under one key that was unseen before it: within one poll the events are
    not compared with each other.
   */
  lemma {:induction false} ExactlyOnce(seen: set<string>, polls: seq<seq<Event>>)
    ensures var given := AllEvents(GivenAfter(seen, polls));
      && KeySet(given) == SeenAfter(seen, polls) - seen
      && (DistinctKeys(given) <==> TwinFree(seen, polls))
    decreases |polls|
  {
    GivenAre(seen, polls);
    if polls != [] {
      var front, p := polls[..|polls| - 1], polls[|polls| - 1];
      ExactlyOnce(seen, front);
      TwinFreeSnoc(seen, polls);
      GivenSnoc(seen, polls);
      var was, known := AllEvents(GivenAfter(seen, front)), SeenAfter(seen, front);
      NewEventsAre(known, p);
      NewAreDistinct(known, p);
      DistinctConcat(was, NewEvents(known, p));
      hide AllEvents, GivenAfter, NoTwins, TwinFree, DistinctKeys, NewEvents;
    }
  }

  /** Within one poll the events are not compared with each other: a repeated unseen key is announced twice. */
  lemma RepeatedKeyIsAnnouncedTwice(seen: set<string>, a: Event, b: Event)
    requires a.key == b.key && a.key !in seen
    ensures AllEvents(Announce(NewEvents(seen, [a, b]))) == [a, b]
  {
    AnnounceIsAll(NewEvents(seen, [a, b]));
    assert [a, b][..1] == [a] && [a][..0] == [];
    assert NewEvents(seen, [a]) == [a];
  }

  /** The channel was flushed at some time since, and the clock has gone on. */
  ghost predicate Flushed(cfg: Config, inner: Inner, was: Channel, now: Channel) {
    exists t :: was.now <= t <= now.now && now == Flush(cfg, inner, was.(now := t)).(now := now.now)
  }

  lemma FlushedLater(cfg: Config, inner: Inner, was: Channel, now: Channel, later: real)
    requires Flushed(cfg, inner, was, now) && now.now <= later
    ensures Flushed(cfg, inner, was, now.(now := later))
  {
    var t :| was.now <= t <= now.now && now == Flush(cfg, inner, was.(now := t)).(now := now.now);
    hide Flush;
  }

  lemma FlushedNow(cfg: Config, inner: Inner, was: Channel, t: real)
    requires was.now <= t && Forwards(inner) && cfg.Valid() && Guarded(cfg, was.(now := t))
    ensures Flushed(cfg, inner, was, Flush(cfg, inner, was.(now := t)))
  {
    FlushGuarded(cfg, inner, was.(now := t));
    hide Flush, Guarded;
  }

  // ---- the objects ---------------------------------------------------------------

  class Clock {
    var now: real
    constructor (now: real)
      ensures this.now == now
    {
      this.now := now;
    }
  }

  class ReliableChannel {
    const cfg: Config
    const inner: Inner
    const clock: Clock
    var pending: seq<Item>
    var failures: nat
    var openUntil: Option<real>
    var callCount: nat
    ghost var calls: seq<Call>
    ghost var outcomes: seq<Outcome>
    ghost var barred: Option<real>
    ghost var submitted: seq<Item>
    ghost var retired: seq<(Item, Fate)>

    ghost function View(): Channel
      reads this, clock
    {
      Channel(pending, failures, openUntil, clock.now, calls, outcomes, barred, submitted, retired)
    }

    ghost predicate Counted()
      reads this
    {
      callCount == |calls|
    }

    /** The queue loses nothing and the breaker bars what it should. */
    ghost predicate Valid()
      reads this, clock
    {
      && cfg.Valid() && Forwards(inner) && Counted()
      && NothingLost(View()) && |pending| <= cfg.maxPending && Guarded(cfg, View()) && Accounted(cfg, View())
    }

    constructor (cfg: Config, inner: Inner, clock: Clock)
      requires cfg.Valid() && Forwards(inner)
      ensures Valid() && View() == Start(clock.now)
      ensures this.cfg == cfg && this.inner == inner && this.clock == clock
    {
      this.cfg, this.inner, this.clock := cfg, inner, clock;
      pending, failures, openUntil, callCount := [], 0, None, 0;
      calls, outcomes, barred, submitted, retired := [], [], None, [], [];
    }

    method ProbeCircuit() returns (open: bool)
      modifies this`openUntil
      ensures open == CircuitOpen(old(View())) && View() == Probe(old(View()))
    {
      if openUntil.None? { return false; }
      if clock.now >= openUntil.value {
        openUntil := None;
        return false;
      }
      return true;
    }

    method RecordFinalFailure()
      modifies this`failures, this`openUntil, this`outcomes, this`barred
      ensures View() == RecordFailure(cfg, old(View()))
    {
      failures := failures + 1;
      outcomes := outcomes + [Outcome(clock.now, false)];
      if failures >= cfg.threshold && openUntil.None? {
        openUntil := Some(clock.now + cfg.pause);
        barred := openUntil;
      }
    }

    method Deliver(item: Item) returns (ok: bool)
      requires Counted()
      modifies this`callCount, this`calls, clock
      ensures Counted() && View() == CallInner(inner, old(View()), item) && ok == inner(old(callCount)).ok
    {
      var t := inner(callCount);
      calls := calls + [Call(clock.now, barred, item, t.ok)];
      callCount := callCount + 1;
      clock.now := clock.now + t.took;
      ok := t.ok;
    }

    /** One delivery with its retries. */
    method AttemptDelivery(item: Item) returns (ok: bool)
      requires Counted()
      modifies this`callCount, this`calls, this`failures, this`openUntil, this`outcomes, this`barred, clock
      ensures Counted() && (View(), ok) == Attempt(cfg, inner, old(View()), item, 0)
    {
      hide CallInner, RecordFailure;
      for i := 0 to |cfg.delays| + 1
        invariant Counted()
        invariant i <= |cfg.delays| ==>
          Attempt(cfg, inner, View(), item, i) == Attempt(cfg, inner, old(View()), item, 0)
        invariant i > |cfg.delays| ==>
          Attempt(cfg, inner, old(View()), item, 0) == (RecordFailure(cfg, View()), false)
      {
        var delivered := Deliver(item);
        if delivered {
          failures := 0;
          outcomes := outcomes + [Outcome(clock.now, true)];
          return true;
        }
        if i < |cfg.delays| { clock.now := clock.now + cfg.delays[i]; }
      }
      RecordFinalFailure();
      return false;
    }

    method Keep(item: Item)
      requires cfg.maxPending >= 1
      modifies this`pending, this`retired
      ensures View() == Enqueue(cfg, old(View()), item)
    {
      if |pending| >= cfg.maxPending {
        retired := retired + [(pending[0], Evicted(|pending|))];
        pending := pending[1..];
      }
      pending := pending + [item];
    }

    /** Retries the queue in order until it is empty, an item fails, or the circuit is open. */
    method FlushQueue()
      requires Counted()
      modifies this, clock
      ensures Counted() && View() == Flush(cfg, inner, old(View()))
    {
      while pending != []
        invariant Counted() && Flush(cfg, inner, View()) == Flush(cfg, inner, old(View()))
        decreases |pending|
      {
        ghost var s := View();
        var open := ProbeCircuit();
        if open { return; }
        AttemptFrame(cfg, inner, Probe(s), pending[0], 0);
        var ok := AttemptDelivery(pending[0]);
        if !ok { return; }
        retired := retired + [(pending[0], Delivered)];
        pending := pending[1..];
      }
    }

    method Submit(item: Item)
      requires Valid()
      modifies this, clock
      ensures Valid() && View() == SendItem(cfg, inner, old(View()), item)
      ensures submitted == old(submitted) + [item] && clock.now >= old(clock.now)
    {
      SendKeepsOrder(cfg, inner, View(), item);
      SendGuarded(cfg, inner, View(), item);
      SendAccounts(cfg, inner, View(), item);
      submitted := submitted + [item];
      var open := ProbeCircuit();
      if open {
        Keep(item);
        return;
      }
      if pending != [] { FlushQueue(); }
      if pending != [] {
        Keep(item);
        return;
      }
      AttemptFrame(cfg, inner, View(), item, 0);
      var ok := AttemptDelivery(item);
      if ok { retired := retired + [(item, Delivered)]; } else { Keep(item); }
    }
  }

  class Dispatcher {
    const channels: seq<ReliableChannel>
    const clock: Clock
    var seen: set<string>

    /** The channels are different objects on one clock, and each is in order. */
    ghost predicate Valid()
      reads this, channels, clock
    {
      && (forall i, j | 0 <= i < j < |channels| :: channels[i] != channels[j])
      && (forall i | 0 <= i < |channels| :: channels[i].clock == clock && channels[i].Valid())
    }

    constructor (channels: seq<ReliableChannel>, clock: Clock, seen: set<string>)
      requires forall i, j | 0 <= i < j < |channels| :: channels[i] != channels[j]
      requires forall i | 0 <= i < |channels| :: channels[i].clock == clock && channels[i].Valid()
      ensures Valid() && this.channels == channels && this.clock == clock && this.seen == seen
    {
      this.channels, this.clock, this.seen := channels, clock, seen;
    }

    /** While one channel is busy, time passes for the others. */
    twostate lemma OthersWait(k: nat)
      requires k < |channels| && old(Valid()) && old(clock.now) <= clock.now
      requires channels[k].Valid()
      requires forall i | 0 <= i < |channels| && i != k :: unchanged(channels[i])
      ensures Valid()
    {
      forall i | 0 <= i < |channels| && i != k ensures channels[i].Valid() {
        LaterGuarded(channels[i].cfg, old(channels[i].View()), clock.now);
        LaterAccounted(channels[i].cfg, old(channels[i].View()), clock.now);
      }
    }

    method FlushChannels()
      requires Valid()
      modifies channels, clock
      ensures Valid() && forall i | 0 <= i < |channels| :: channels[i].submitted == old(channels[i].submitted)
      ensures forall i | 0 <= i < |channels| ::
        Flushed(channels[i].cfg, channels[i].inner, old(channels[i].View()), channels[i].View())
    {
      hide Flushed, Flush;
      for k := 0 to |channels|
        invariant Valid() && old(clock.now) <= clock.now
        invariant forall i | 0 <= i < |channels| :: channels[i].submitted == old(channels[i].submitted)
        invariant forall i | k <= i < |channels| :: channels[i].View() == old(channels[i].View()).(now := clock.now)
        invariant forall i | 0 <= i < k ::
          Flushed(channels[i].cfg, channels[i].inner, old(channels[i].View()), channels[i].View())
      {
        label before:
        FlushedNow(channels[k].cfg, channels[k].inner, old(channels[k].View()), clock.now);
        FlushOne(k);
        forall i | 0 <= i < k
          ensures Flushed(channels[i].cfg, channels[i].inner, old(channels[i].View()), channels[i].View())
        {
          FlushedLater(channels[i].cfg, channels[i].inner, old(channels[i].View()), old@before(channels[i].View()),
                       clock.now);
        }
      }
    }

    /** One channel flushes; for the others only time passes. */
    method FlushOne(k: nat)
      requires Valid() && k < |channels|
      modifies channels[k], clock
      ensures Valid() && old(clock.now) <= clock.now && channels[k].submitted == old(channels[k].submitted)
      ensures channels[k].View() == Flush(channels[k].cfg, channels[k].inner, old(channels[k].View()))
      ensures forall i | 0 <= i < |channels| && i != k ::
        channels[i].View() == old(channels[i].View()).(now := clock.now)
    {
      var c := channels[k];
      FlushKeepsOrder(c.cfg, c.inner, c.View());
      FlushGuarded(c.cfg, c.inner, c.View());
      FlushAccounts(c.cfg, c.inner, c.View());
      label before:
      c.FlushQueue();
      OthersWait@before(k);
    }

    method Broadcast(item: Item)
      requires Valid()
      modifies channels, clock
      ensures Valid() && forall i | 0 <= i < |channels| :: channels[i].submitted == old(channels[i].submitted) + [item]
    {
      for k := 0 to |channels|
        invariant Valid()
        invariant forall i | 0 <= i < |channels| ::
          channels[i].submitted == old(channels[i].submitted) + if i < k then [item] else []
      {
        label before:
        channels[k].Submit(item);
        OthersWait@before(k);
      }
    }

    method BroadcastAll(news: seq<Event>)
      requires Valid()
      modifies channels, clock
      ensures Valid()
      ensures forall i | 0 <= i < |channels| ::
        channels[i].submitted == old(channels[i].submitted) + OneByOne(news)
    {
      for n := 0 to |news|
        invariant Valid()
        invariant forall i | 0 <= i < |channels| ::
          channels[i].submitted == old(channels[i].submitted) + OneByOne(news[..n])
      {
        Broadcast(One(news[n]));
        assert OneByOne(news[..n + 1]) == OneByOne(news[..n]) + [One(news[n])];
      }
      assert news[..|news|] == news;
    }

    /** One poll's events: retry what is queued, then hand every channel what nobody was told about yet. */
    method Dispatch(events: seq<Event>) returns (news: seq<Event>)
      requires Valid()
      modifies this`seen, channels, clock
      ensures Valid() && news == NewEvents(old(seen), events) && seen == old(seen) + KeySet(events)
      ensures forall i | 0 <= i < |channels| ::
        channels[i].submitted == old(channels[i].submitted) + Announce(news)
      ensures news == [] ==> forall i | 0 <= i < |channels| ::
        Flushed(channels[i].cfg, channels[i].inner, old(channels[i].View()), channels[i].View())
    {
      hide Announce, NewEvents, Flushed;
      FlushChannels();
      news := FilterSeen(events);
      NewEventsAre(seen, events);
      assert seen + KeySet(news) == seen + KeySet(events);
      if news == [] {
        AnnounceNothing();
        return;
      }
      seen := seen + KeySet(news);
      BroadcastNews(news);
    }

    method BroadcastNews(news: seq<Event>)
      requires Valid()
      modifies channels, clock
      ensures Valid()
      ensures forall i | 0 <= i < |channels| :: channels[i].submitted == old(channels[i].submitted) + Announce(news)
    {
      hide OneByOne;
      if |news| > DIGEST_THRESHOLD {
        Broadcast(Digest(news));
      } else {
        BroadcastAll(news);
      }
    }

    /** A run of polls: what each channel was handed is what the specification of the run says. */
    method DispatchAll(polls: seq<seq<Event>>)
      requires Valid()
      modifies this`seen, channels, clock
      ensures Valid() && seen == SeenAfter(old(seen), polls)
      ensures forall i | 0 <= i < |channels| ::
        channels[i].submitted == old(channels[i].submitted) + GivenAfter(old(seen), polls)
    {
      hide NewEvents, Announce;
      for n := 0 to |polls|
        invariant Valid() && seen == SeenAfter(old(seen), polls[..n])
        invariant forall i | 0 <= i < |channels| ::
          channels[i].submitted == old(channels[i].submitted) + GivenAfter(old(seen), polls[..n])
      {
        var news := Dispatch(polls[n]);
        assert polls[..n + 1][..n] == polls[..n];
      }
      assert polls[..|polls|] == polls;
    }

    method FilterSeen(events: seq<Event>) returns (news: seq<Event>)
      ensures news == NewEvents(seen, events)
    {
      news := [];
      for n := 0 to |events|
        invariant news == NewEvents(seen, events[..n])
      {
        assert events[..n + 1][..n] == events[..n];
        if events[n].key !in seen { news := news + [events[n]]; }
      }
      assert events[..|events|] == events;
    }
  }
}
