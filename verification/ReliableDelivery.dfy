/** A delivery channel with retries, a capped queue and a circuit breaker, driven by a clock. */
module ReliableDelivery {
  import opened Collections
  import opened Options

  datatype Event = Event(key: string, text: string)

  datatype Item = One(event: Event) | Digest(events: seq<Event>) | Text(text: string)

  /** One call of the inner channel: whether it took the message, and how long it was busy. */
  datatype Try = Try(ok: bool, took: real)

  /** What the inner channel does on its n-th call, whatever it is asked to deliver. */
  type Inner = nat -> Try

  datatype Config = Config(delays: seq<real>, threshold: nat, pause: real, maxPending: nat)
  {
    ghost predicate Valid() {
      && (forall i | 0 <= i < |delays| :: delays[i] >= 0.0)
      && threshold >= 1 && pause > 0.0 && maxPending >= 1
    }
  }

  ghost predicate Forwards(inner: Inner) { forall n :: inner(n).took >= 0.0 }

  /** How an item left the queue; an evicted one left when so many were queued. */
  datatype Fate = Delivered | Evicted(queued: nat)

  /** A call of the inner channel: when it began, until when calls had last been forbidden, what for, whether taken. */
  datatype Call = Call(at: real, barredUntil: Option<real>, item: Item, ok: bool)

  /** The final outcome of an item's attempts. */
  datatype Outcome = Outcome(at: real, ok: bool)

  /** The channel with its clock, and the record of what it was given, what became of it and what it did. */
  datatype Channel = Channel(
    pending: seq<Item>,
    failures: nat,
    openUntil: Option<real>,
    now: real,
    calls: seq<Call>,
    outcomes: seq<Outcome>,
    barred: Option<real>,
    submitted: seq<Item>,
    retired: seq<(Item, Fate)>)

  function Start(now: real): Channel { Channel([], 0, None, now, [], [], None, [], []) }

  // ---- operations ------------------------------------------------------------

  predicate CircuitOpen(s: Channel) { s.openUntil.Some? && s.now < s.openUntil.value }

  /** Asking whether the circuit is open closes it again once the pause is over. */
  function Probe(s: Channel): Channel { if CircuitOpen(s) then s else s.(openUntil := None) }

  function RecordFailure(cfg: Config, s: Channel): Channel {
    var k := s.(failures := s.failures + 1, outcomes := s.outcomes + [Outcome(s.now, false)]);
    if k.failures >= cfg.threshold && k.openUntil.None? then
      k.(openUntil := Some(k.now + cfg.pause), barred := Some(k.now + cfg.pause))
    else k
  }

  function RecordSuccess(s: Channel): Channel {
    s.(failures := 0, outcomes := s.outcomes + [Outcome(s.now, true)])
  }

  function CallInner(inner: Inner, s: Channel, item: Item): Channel {
    var t := inner(|s.calls|);
    s.(calls := s.calls + [Call(s.now, s.barred, item, t.ok)], now := s.now + t.took)
  }

  /** Tries i, i + 1, ... of one item, with a pause after each that fails. */
  function Attempt(cfg: Config, inner: Inner, s: Channel, item: Item, i: nat): (Channel, bool)
    requires i <= |cfg.delays|
    decreases |cfg.delays| - i
  {
    var k := CallInner(inner, s, item);
    if inner(|s.calls|).ok then (RecordSuccess(k), true)
    else if i < |cfg.delays| then Attempt(cfg, inner, k.(now := k.now + cfg.delays[i]), item, i + 1)
    else (RecordFailure(cfg, k), false)
  }

  function Enqueue(cfg: Config, s: Channel, item: Item): Channel
    requires cfg.maxPending >= 1
  {
    if |s.pending| >= cfg.maxPending then
      s.(pending := s.pending[1..] + [item], retired := s.retired + [(s.pending[0], Evicted(|s.pending|))])
    else s.(pending := s.pending + [item])
  }

  function RetireFront(s: Channel): Channel
    requires s.pending != []
  {
    s.(pending := s.pending[1..], retired := s.retired + [(s.pending[0], Delivered)])
  }

  function Flush(cfg: Config, inner: Inner, s: Channel): Channel
    decreases |s.pending|
  {
    if s.pending == [] then s
    else if CircuitOpen(s) then s
    else
      AttemptFrame(cfg, inner, Probe(s), s.pending[0], 0);
      var (k, ok) := Attempt(cfg, inner, Probe(s), s.pending[0], 0);
      if ok then Flush(cfg, inner, RetireFront(k)) else k
  }

  lemma {:induction false} AttemptFrame(cfg: Config, inner: Inner, s: Channel, item: Item, i: nat)
    requires i <= |cfg.delays|
    ensures var k := Attempt(cfg, inner, s, item, i).0;
      k.pending == s.pending && k.submitted == s.submitted && k.retired == s.retired
    decreases |cfg.delays| - i
  {
    if i < |cfg.delays| {
      var k := CallInner(inner, s, item);
      AttemptFrame(cfg, inner, k.(now := k.now + cfg.delays[i]), item, i + 1);
    }
  }

  /** What happens to a new item once the queue has had its turn. */
  function SendNow(cfg: Config, inner: Inner, s: Channel, item: Item): Channel
    requires cfg.maxPending >= 1
  {
    if s.pending != [] then Enqueue(cfg, s, item)
    else
      var (k, ok) := Attempt(cfg, inner, s, item, 0);
      if ok then k.(retired := k.retired + [(item, Delivered)]) else Enqueue(cfg, k, item)
  }

  function SendItem(cfg: Config, inner: Inner, s: Channel, item: Item): Channel
    requires cfg.maxPending >= 1
  {
    var given := s.(submitted := s.submitted + [item]);
    if CircuitOpen(given) then Enqueue(cfg, given, item)
    else
      var probed := Probe(given);
      SendNow(cfg, inner, if probed.pending != [] then Flush(cfg, inner, probed) else probed, item)
  }

  // ---- no loss, in order -------------------------------------------------------

  function Items(retired: seq<(Item, Fate)>): seq<Item> {
    seq(|retired|, i requires 0 <= i < |retired| => retired[i].0)
  }

  /** Everything submitted was retired or waits, in the order of submission. */
  predicate NothingLost(s: Channel) { s.submitted == Items(s.retired) + s.pending }

  lemma RetireKeepsOrder(s: Channel)
    requires NothingLost(s) && s.pending != []
    ensures NothingLost(RetireFront(s))
  {
  }

  lemma EnqueueKeepsOrder(cfg: Config, s: Channel, item: Item)
    requires cfg.maxPending >= 1 && |s.pending| <= cfg.maxPending
    requires s.submitted == Items(s.retired) + s.pending + [item]
    ensures NothingLost(Enqueue(cfg, s, item)) && |Enqueue(cfg, s, item).pending| <= cfg.maxPending
  {
  }

  lemma {:induction false} FlushKeepsOrder(cfg: Config, inner: Inner, s: Channel)
    requires NothingLost(s)
    ensures var k := Flush(cfg, inner, s);
      NothingLost(k) && k.submitted == s.submitted && |k.pending| <= |s.pending|
      && |k.retired| >= |s.retired| && k.retired[..|s.retired|] == s.retired
      && forall i | |s.retired| <= i < |k.retired| :: k.retired[i].1 == Delivered
    decreases |s.pending|
  {
    if s.pending != [] && !CircuitOpen(s) {
      AttemptFrame(cfg, inner, Probe(s), s.pending[0], 0);
      var (k, ok) := Attempt(cfg, inner, Probe(s), s.pending[0], 0);
      if ok {
        RetireKeepsOrder(k);
        FlushKeepsOrder(cfg, inner, RetireFront(k));
        var f := Flush(cfg, inner, RetireFront(k));
        assert f.retired[..|s.retired| + 1][..|s.retired|] == f.retired[..|s.retired|];
        assert f.retired[|s.retired|] == f.retired[..|s.retired| + 1][|s.retired|];
      }
    }
  }

  /** An item is dropped only to make room at the cap, one for one, and only the oldest. */
  lemma SendKeepsOrder(cfg: Config, inner: Inner, s: Channel, item: Item)
    requires cfg.maxPending >= 1 && NothingLost(s) && |s.pending| <= cfg.maxPending
    ensures var k := SendItem(cfg, inner, s, item);
      && NothingLost(k) && |k.pending| <= cfg.maxPending && k.submitted == s.submitted + [item]
      && |k.retired| >= |s.retired| && k.retired[..|s.retired|] == s.retired
      && forall i | |s.retired| <= i < |k.retired| && k.retired[i].1.Evicted? ::
           i == |k.retired| - 1 && |k.pending| == cfg.maxPending
  {
    var given := s.(submitted := s.submitted + [item]);
    if CircuitOpen(given) {
      EnqueueKeepsOrder(cfg, given, item);
    } else {
      var probed := Probe(given);
      var clear := Probe(s);
      FlushIgnoresSubmitted(cfg, inner, clear, probed.submitted);
      FlushKeepsOrder(cfg, inner, clear);
      var f := if probed.pending != [] then Flush(cfg, inner, probed) else probed;
      assert f.submitted == Items(f.retired) + f.pending + [item];
      if f.pending != [] {
        EnqueueKeepsOrder(cfg, f, item);
      } else {
        AttemptFrame(cfg, inner, f, item, 0);
        var (k, ok) := Attempt(cfg, inner, f, item, 0);
        if !ok { EnqueueKeepsOrder(cfg, k, item); }
      }
    }
  }

  lemma {:induction false} AttemptIgnoresSubmitted(
      cfg: Config, inner: Inner, s: Channel, item: Item, i: nat, sub: seq<Item>)
    requires i <= |cfg.delays|
    ensures var (k, ok) := Attempt(cfg, inner, s, item, i);
      Attempt(cfg, inner, s.(submitted := sub), item, i) == (k.(submitted := sub), ok)
    decreases |cfg.delays| - i
  {
    var k := CallInner(inner, s, item);
    if !inner(|s.calls|).ok && i < |cfg.delays| {
      AttemptIgnoresSubmitted(cfg, inner, k.(now := k.now + cfg.delays[i]), item, i + 1, sub);
    }
  }

  lemma {:induction false} FlushIgnoresSubmitted(cfg: Config, inner: Inner, s: Channel, sub: seq<Item>)
    ensures Flush(cfg, inner, s.(submitted := sub)) == Flush(cfg, inner, s).(submitted := sub)
    decreases |s.pending|
  {
    if s.pending != [] && !CircuitOpen(s) {
      AttemptFrame(cfg, inner, Probe(s), s.pending[0], 0);
      AttemptIgnoresSubmitted(cfg, inner, Probe(s), s.pending[0], 0, sub);
      var (k, ok) := Attempt(cfg, inner, Probe(s), s.pending[0], 0);
      if ok { FlushIgnoresSubmitted(cfg, inner, RetireFront(k), sub); }
    }
  }

  // ---- what was delivered, what was dropped -----------------------------------

  /** The items the inner channel took, in the order of its calls. */
  function Taken(calls: seq<Call>): seq<Item> {
    if calls == [] then []
    else
      var c := calls[|calls| - 1];
      Taken(calls[..|calls| - 1]) + if c.ok then [c.item] else []
  }

  /** The items that were retired as delivered, in order. */
  function DeliveredOf(retired: seq<(Item, Fate)>): seq<Item> {
    if retired == [] then []
    else
      var (item, fate) := retired[|retired| - 1];
      DeliveredOf(retired[..|retired| - 1]) + if fate == Delivered then [item] else []
  }

  /** Retired as delivered is what the inner channel took, and the rest was dropped from a full queue. */
  ghost predicate Accounted(cfg: Config, s: Channel) {
    && DeliveredOf(s.retired) == Taken(s.calls)
    && forall i | 0 <= i < |s.retired| && s.retired[i].1.Evicted? :: s.retired[i].1.queued == cfg.maxPending
  }

  lemma TakenSnoc(calls: seq<Call>, c: Call)
    ensures Taken(calls + [c]) == Taken(calls) + if c.ok then [c.item] else []
  {
    assert (calls + [c])[..|calls|] == calls;
  }

  lemma DeliveredSnoc(retired: seq<(Item, Fate)>, item: Item, fate: Fate)
    ensures DeliveredOf(retired + [(item, fate)]) == DeliveredOf(retired) + if fate == Delivered then [item] else []
  {
    assert (retired + [(item, fate)])[..|retired|] == retired;
  }

  /** Of all the tries of an item only the last can succeed, and does exactly if the attempt reports success. */
  lemma {:induction false} AttemptTakes(cfg: Config, inner: Inner, s: Channel, item: Item, i: nat)
    requires i <= |cfg.delays|
    ensures var (k, ok) := Attempt(cfg, inner, s, item, i);
      Taken(k.calls) == Taken(s.calls) + if ok then [item] else []
    decreases |cfg.delays| - i
  {
    var k := CallInner(inner, s, item);
    TakenSnoc(s.calls, k.calls[|s.calls|]);
    if i < |cfg.delays| { AttemptTakes(cfg, inner, k.(now := k.now + cfg.delays[i]), item, i + 1); }
  }

  lemma {:induction false} FlushAccounts(cfg: Config, inner: Inner, s: Channel)
    requires Accounted(cfg, s)
    ensures Accounted(cfg, Flush(cfg, inner, s))
    decreases |s.pending|
  {
    if s.pending != [] && !CircuitOpen(s) {
      AttemptFrame(cfg, inner, Probe(s), s.pending[0], 0);
      AttemptTakes(cfg, inner, Probe(s), s.pending[0], 0);
      var (k, ok) := Attempt(cfg, inner, Probe(s), s.pending[0], 0);
      if ok {
        DeliveredSnoc(k.retired, s.pending[0], Delivered);
        FlushAccounts(cfg, inner, RetireFront(k));
      }
    }
  }

  lemma EnqueueAccounts(cfg: Config, s: Channel, item: Item)
    requires cfg.maxPending >= 1 && Accounted(cfg, s) && |s.pending| <= cfg.maxPending
    ensures Accounted(cfg, Enqueue(cfg, s, item))
  {
    if |s.pending| >= cfg.maxPending { DeliveredSnoc(s.retired, s.pending[0], Evicted(|s.pending|)); }
  }

  lemma SendAccounts(cfg: Config, inner: Inner, s: Channel, item: Item)
    requires cfg.maxPending >= 1 && Accounted(cfg, s) && NothingLost(s) && |s.pending| <= cfg.maxPending
    ensures Accounted(cfg, SendItem(cfg, inner, s, item))
  {
    hide Flush, Attempt, Enqueue;
    var given := s.(submitted := s.submitted + [item]);
    if CircuitOpen(given) {
      EnqueueAccounts(cfg, given, item);
    } else {
      var probed := Probe(given);
      FlushIgnoresSubmitted(cfg, inner, Probe(s), probed.submitted);
      FlushKeepsOrder(cfg, inner, Probe(s));
      FlushAccounts(cfg, inner, probed);
      var f := if probed.pending != [] then Flush(cfg, inner, probed) else probed;
      if f.pending != [] {
        EnqueueAccounts(cfg, f, item);
      } else {
        AttemptFrame(cfg, inner, f, item, 0);
        AttemptTakes(cfg, inner, f, item, 0);
        var (k, ok) := Attempt(cfg, inner, f, item, 0);
        if ok { DeliveredSnoc(k.retired, item, Delivered); } else { EnqueueAccounts(cfg, k, item); }
      }
    }
  }

  // ---- what an attempt, a flush and a send amount to ---------------------------------

  /** So many calls in a row for the item, the j-th of them the (n + j)-th of the inner channel, all failing. */
  ghost predicate AllFail(inner: Inner, calls: seq<Call>, item: Item, n: nat) {
    forall j | 0 <= j < |calls| :: calls[j].item == item && !calls[j].ok && !inner(n + j).ok
  }

  /** The j-th call begins a delay after the one before it was over. */
  ghost predicate AfterDelay(cfg: Config, inner: Inner, calls: seq<Call>, n: nat, i: nat, j: nat)
    requires 1 <= j < |calls| && i + |calls| <= |cfg.delays| + 1
  {
    calls[j].at == calls[j - 1].at + inner(n + j - 1).took + cfg.delays[i + j - 1]
  }

  /** Tries i, i + 1, ... for the item from `start`, the first being the n-th call: all fail but possibly the last. */
  ghost predicate Tries(
      cfg: Config, inner: Inner, calls: seq<Call>, item: Item, n: nat, start: real, i: nat, ok: bool) {
    && 1 <= |calls| && i + |calls| <= |cfg.delays| + 1 && calls[0].at == start
    && (forall j | 1 <= j < |calls| :: AfterDelay(cfg, inner, calls, n, i, j))
    && AllFail(inner, calls[..|calls| - 1], item, n)
    && calls[|calls| - 1].item == item && calls[|calls| - 1].ok == ok == inner(n + |calls| - 1).ok
    && (!ok ==> i + |calls| == |cfg.delays| + 1)
  }

  lemma FailBefore(inner: Inner, c: Call, more: seq<Call>, item: Item, n: nat)
    requires c.item == item && !c.ok && !inner(n).ok && AllFail(inner, more, item, n + 1)
    ensures AllFail(inner, [c] + more, item, n)
  {
    forall j | 0 <= j < |[c] + more|
      ensures var d := ([c] + more)[j]; d.item == item && !d.ok && !inner(n + j).ok
    {
      if j > 0 { assert more[j - 1].item == item && !inner(n + 1 + (j - 1)).ok; }
    }
  }

  lemma DelaysBefore(cfg: Config, inner: Inner, c: Call, more: seq<Call>, n: nat, i: nat, j: nat)
    requires 1 <= j <= |more| && i + 1 + |more| <= |cfg.delays| + 1
    requires more[0].at == c.at + inner(n).took + cfg.delays[i]
    requires j > 1 ==> AfterDelay(cfg, inner, more, n + 1, i + 1, j - 1)
    ensures AfterDelay(cfg, inner, [c] + more, n, i, j)
  {
    var all := [c] + more;
    assert all[j] == more[j - 1] && all[j - 1] == if j > 1 then more[j - 2] else c;
    assert n + j - 1 == n + 1 + (j - 1) - 1 && i + j - 1 == i + 1 + (j - 1) - 1;
  }

  lemma TriesBefore(cfg: Config, inner: Inner, c: Call, more: seq<Call>, item: Item, n: nat, i: nat, ok: bool)
    requires i < |cfg.delays| && c.item == item && !c.ok && !inner(n).ok
    requires Tries(cfg, inner, more, item, n + 1, c.at + inner(n).took + cfg.delays[i], i + 1, ok)
    ensures Tries(cfg, inner, [c] + more, item, n, c.at, i, ok)
  {
    var all := [c] + more;
    FailBefore(inner, c, more[..|more| - 1], item, n);
    assert all[..|all| - 1] == [c] + more[..|more| - 1];
    forall j | 1 <= j < |all| ensures AfterDelay(cfg, inner, all, n, i, j) {
      DelaysBefore(cfg, inner, c, more, n, i, j);
    }
    assert n + |all| - 1 == n + 1 + |more| - 1;
    hide AllFail, AfterDelay;
  }

  /** What an attempt does to the breaker: success clears the count, the `threshold`-th failure bars for a pause. */
  predicate BreakerAfter(cfg: Config, s: Channel, k: Channel, ok: bool) {
    if ok then k.failures == 0 && k.openUntil == s.openUntil
    else
      && k.failures == s.failures + 1
      && k.openUntil == if s.openUntil.None? && s.failures + 1 >= cfg.threshold then Some(k.now + cfg.pause)
                        else s.openUntil
  }

  lemma OneTry(cfg: Config, inner: Inner, c: Call, item: Item, n: nat, i: nat)
    requires i <= |cfg.delays| && c.item == item && c.ok == inner(n).ok && (!c.ok ==> i == |cfg.delays|)
    ensures Tries(cfg, inner, [c], item, n, c.at, i, c.ok)
  {
    assert [c][..0] == [];
  }

  /**
    An attempt makes calls for its item, each a delay after the last was over, until one succeeds or all |delays| + 1
    have failed, and says which.
   */
  lemma {:induction false} AttemptCalls(cfg: Config, inner: Inner, s: Channel, item: Item, i: nat)
    requires i <= |cfg.delays|
    ensures var (k, ok) := Attempt(cfg, inner, s, item, i);
      && s.calls <= k.calls && Tries(cfg, inner, k.calls[|s.calls|..], item, |s.calls|, s.now, i, ok)
      && BreakerAfter(cfg, s, k, ok)
    decreases |cfg.delays| - i
  {
    hide Tries, AllFail;
    var n := |s.calls|;
    var k := CallInner(inner, s, item);
    var c := k.calls[n];
    if inner(n).ok || i == |cfg.delays| {
      assert k.calls[n..] == [c];
      OneTry(cfg, inner, c, item, n, i);
    } else {
      var later := k.(now := k.now + cfg.delays[i]);
      AttemptCalls(cfg, inner, later, item, i + 1);
      var (end, ok) := Attempt(cfg, inner, later, item, i + 1);
      NextCalls(s.calls, c, end.calls);
      TriesBefore(cfg, inner, c, end.calls[n + 1..], item, n, i, ok);
    }
  }

  lemma NextCalls(was: seq<Call>, c: Call, calls: seq<Call>)
    requires was + [c] <= calls
    ensures was <= calls && calls[|was|..] == [c] + calls[|was| + 1..]
  {
    assert calls[|was|] == (was + [c])[|was|];
    assert was == (was + [c])[..|was|] == calls[..|was| + 1][..|was|];
  }

  /** The item at the front of the queue after all the calls of an attempt for it have failed. */
  ghost predicate FrontFailed(cfg: Config, inner: Inner, k: Channel) {
    && k.pending != [] && |k.calls| > |cfg.delays|
    && AllFail(inner, k.calls[|k.calls| - |cfg.delays| - 1..], k.pending[0], |k.calls| - |cfg.delays| - 1)
  }

  lemma AllTriesFailed(cfg: Config, inner: Inner, s: Channel, k: Channel, item: Item)
    requires s.calls <= k.calls && Tries(cfg, inner, k.calls[|s.calls|..], item, |s.calls|, s.now, 0, false)
    ensures |k.calls| - |s.calls| == |cfg.delays| + 1
    ensures AllFail(inner, k.calls[|k.calls| - |cfg.delays| - 1..], item, |k.calls| - |cfg.delays| - 1)
  {
    var calls := k.calls[|s.calls|..];
    assert k.calls[|k.calls| - |cfg.delays| - 1..] == calls;
    forall j | 0 <= j < |calls| ensures calls[j].item == item && !calls[j].ok && !inner(|s.calls| + j).ok {
      if j < |calls| - 1 {
        var failed := calls[..|calls| - 1];
        assert failed[j] == calls[j] && failed[j].item == item;
      }
    }
    assert AllFail(inner, calls, item, |s.calls|);
    assert |k.calls| - |cfg.delays| - 1 == |s.calls|;
  }

  /** The items so retired, as delivered. */
  function AllDelivered(items: seq<Item>): seq<(Item, Fate)> {
    seq(|items|, i requires 0 <= i < |items| => (items[i], Delivered))
  }

  /**
    A flush does nothing while the breaker bars calls. Otherwise it delivers items from the front of the queue, in
    order, until the queue is empty or all the calls of an attempt for the item at the front have failed; just these
    are retired. If every call from now on succeeds the whole queue is delivered.
   */
  lemma {:induction false} FlushEnds(cfg: Config, inner: Inner, s: Channel) returns (m: nat)
    ensures m <= |s.pending|
    ensures var k := Flush(cfg, inner, s);
      && k.pending == s.pending[m..] && k.retired == s.retired + AllDelivered(s.pending[..m])
      && k.submitted == s.submitted && s.calls <= k.calls
      && (CircuitOpen(s) ==> k == s)
      && (!CircuitOpen(s) ==> k.pending == [] || FrontFailed(cfg, inner, k))
      && (!CircuitOpen(s) && (forall n | n >= |s.calls| :: inner(n).ok) ==> k.pending == [])
    decreases |s.pending|
  {
    m := 0;
    assert AllDelivered(s.pending[..0]) == [] && s.retired + [] == s.retired;
    if s.pending != [] && !CircuitOpen(s) {
      var p, item := Probe(s), s.pending[0];
      AttemptFrame(cfg, inner, p, item, 0);
      AttemptCalls(cfg, inner, p, item, 0);
      var (k, ok) := Attempt(cfg, inner, p, item, 0);
      if ok {
        var rest := FlushEnds(cfg, inner, RetireFront(k));
        m := rest + 1;
        DeliveredOneMore(s.pending, rest);
        Regroup(s.retired, [(item, Delivered)], AllDelivered(s.pending[1..][..rest]));
      } else {
        AllTriesFailed(cfg, inner, p, k, item);
      }
      hide Tries, AllFail, Attempt;
    }
  }

  /** A send with nothing queued and nothing barred. */
  lemma SendAlone(cfg: Config, inner: Inner, f: Channel, item: Item)
    requires cfg.maxPending >= 1 && f.pending == []
    ensures var k := SendNow(cfg, inner, f, item);
      && k.submitted == f.submitted
      && (if k.pending == [] then k.retired == f.retired + [(item, Delivered)]
          else k.pending == [item] && k.retired == f.retired && FrontFailed(cfg, inner, k))
      && ((forall n | n >= |f.calls| :: inner(n).ok) ==> k.pending == [])
  {
    hide Tries, AllFail, Attempt;
    AttemptFrame(cfg, inner, f, item, 0);
    AttemptCalls(cfg, inner, f, item, 0);
    var (k, ok) := Attempt(cfg, inner, f, item, 0);
    if !ok { AllTriesFailed(cfg, inner, f, k, item); }
    if forall n | n >= |f.calls| :: inner(n).ok { NoTryFails(cfg, inner, f, k, item, ok); }
  }

  lemma SendBehind(cfg: Config, inner: Inner, f: Channel, item: Item)
    requires cfg.maxPending >= 1 && f.pending != []
    ensures SendNow(cfg, inner, f, item) == Enqueue(cfg, f, item)
  {
  }

  /**
    A send makes no call while the breaker bars it: the item waits at the end of the queue, out of which the oldest is
    dropped at the cap. With nothing queued the item is delivered, or waits because all |delays| + 1 calls for it have
    failed. If every call from now on succeeds it is delivered together with all that was queued before it.
   */
  lemma SendEnds(cfg: Config, inner: Inner, s: Channel, item: Item)
    requires cfg.maxPending >= 1
    ensures var k := SendItem(cfg, inner, s, item);
      && k.submitted == s.submitted + [item]
      && (CircuitOpen(s) ==>
            && k.calls == s.calls && k.now == s.now
            && k.pending == (if |s.pending| >= cfg.maxPending then s.pending[1..] else s.pending) + [item])
      && (!CircuitOpen(s) && s.pending == [] ==>
            if k.pending == [] then k.retired == s.retired + [(item, Delivered)]
            else k.pending == [item] && k.retired == s.retired && FrontFailed(cfg, inner, k))
      && (!CircuitOpen(s) && (forall n | n >= |s.calls| :: inner(n).ok) ==>
            k.pending == [] && k.retired == s.retired + AllDelivered(s.pending + [item]))
  {
    hide SendNow, Flush, FrontFailed, AllDelivered;
    var given := s.(submitted := s.submitted + [item]);
    if !CircuitOpen(given) {
      var probed := Probe(given);
      var f := if probed.pending != [] then Flush(cfg, inner, probed) else probed;
      AfterFlush(cfg, inner, probed, f);
      if f.pending != [] {
        SendBehind(cfg, inner, f, item);
      } else {
        SendAlone(cfg, inner, f, item);
        OneMoreDelivered(s.retired, s.pending, item);
      }
    }
  }

  lemma AfterFlush(cfg: Config, inner: Inner, p: Channel, f: Channel)
    requires !CircuitOpen(p) && f == if p.pending != [] then Flush(cfg, inner, p) else p
    ensures f.submitted == p.submitted && |f.calls| >= |p.calls|
    ensures (forall n | n >= |p.calls| :: inner(n).ok) ==>
      && f.pending == [] && f.retired == p.retired + AllDelivered(p.pending)
      && forall n | n >= |f.calls| :: inner(n).ok
  {
    hide Flush, FrontFailed;
    var m := FlushEnds(cfg, inner, p);
    if m == |p.pending| { assert p.pending[..m] == p.pending; }
    assert p.retired + AllDelivered([]) == p.retired;
  }

  lemma OneMoreDelivered(retired: seq<(Item, Fate)>, items: seq<Item>, item: Item)
    ensures retired + AllDelivered(items) + [(item, Delivered)] == retired + AllDelivered(items + [item])
  {
    assert AllDelivered(items + [item]) == AllDelivered(items) + [(item, Delivered)];
  }

  lemma NoTryFails(cfg: Config, inner: Inner, s: Channel, k: Channel, item: Item, ok: bool)
    requires s.calls <= k.calls && Tries(cfg, inner, k.calls[|s.calls|..], item, |s.calls|, s.now, 0, ok)
    requires forall n | n >= |s.calls| :: inner(n).ok
    ensures ok
  {
  }

  lemma DeliveredOneMore(items: seq<Item>, n: nat)
    requires n < |items|
    ensures items[1..][..n] == items[1..n + 1] && items[1..][n..] == items[n + 1..]
    ensures [(items[0], Delivered)] + AllDelivered(items[1..][..n]) == AllDelivered(items[..n + 1])
  {
  }

  // ---- the breaker -------------------------------------------------------------

  /** Failures since the last success. */
  function Trailing(o: seq<Outcome>): nat {
    if o == [] || o[|o| - 1].ok then 0 else Trailing(o[..|o| - 1]) + 1
  }

  /** Once `threshold` failures stand in a row, the next outcome is at least a pause away. */
  ghost predicate Follows(cfg: Config, past: seq<Outcome>, at: real) {
    past != [] ==>
      && past[|past| - 1].at <= at
      && (Trailing(past) >= cfg.threshold ==> at >= past[|past| - 1].at + cfg.pause)
  }

  ghost predicate Spaced(cfg: Config, o: seq<Outcome>) {
    forall k | 0 <= k < |o| :: Follows(cfg, o[..k], o[k].at)
  }

  ghost predicate Guarded(cfg: Config, s: Channel) {
    && (s.openUntil.Some? ==> s.barred == s.openUntil)
    && (s.openUntil.None? && s.barred.Some? ==> s.barred.value <= s.now)
    && (forall c | c in s.calls && c.barredUntil.Some? :: c.barredUntil.value <= c.at)
    && s.failures == Trailing(s.outcomes)
    && (s.outcomes != [] ==> s.outcomes[|s.outcomes| - 1].at <= s.now)
    && (s.failures >= cfg.threshold && s.outcomes != [] ==>
          s.barred == Some(s.outcomes[|s.outcomes| - 1].at + cfg.pause))
    && Spaced(cfg, s.outcomes)
  }

  lemma OutcomeSpaced(cfg: Config, s: Channel, at: real, ok: bool)
    requires Guarded(cfg, s) && s.openUntil.None? && s.now <= at
    ensures var o := s.outcomes + [Outcome(at, ok)];
      Spaced(cfg, o) && Trailing(o) == if ok then 0 else s.failures + 1
  {
    SpacedSnoc(cfg, s.outcomes, Outcome(at, ok));
  }

  lemma SpacedSnoc(cfg: Config, past: seq<Outcome>, last: Outcome)
    requires Spaced(cfg, past) && Follows(cfg, past, last.at)
    ensures Spaced(cfg, past + [last]) && Trailing(past + [last]) == if last.ok then 0 else Trailing(past) + 1
  {
    var o := past + [last];
    assert o[..|past|] == past;
    hide Follows;
    forall k | 0 <= k < |o|
      ensures Follows(cfg, o[..k], o[k].at)
    {
      if k < |past| { assert o[..k] == past[..k]; }
    }
  }

  lemma CallGuarded(cfg: Config, inner: Inner, s: Channel, item: Item)
    requires Forwards(inner) && Guarded(cfg, s) && s.openUntil.None?
    ensures var k := CallInner(inner, s, item); Guarded(cfg, k) && k.openUntil.None? && s.now <= k.now
  {
    var k := CallInner(inner, s, item);
    forall c | c in k.calls && c.barredUntil.Some? ensures c.barredUntil.value <= c.at {
      assert c in s.calls || c == Call(s.now, s.barred, item, inner(|s.calls|).ok);
    }
  }

  lemma SuccessGuarded(cfg: Config, s: Channel)
    requires cfg.Valid() && Guarded(cfg, s) && s.openUntil.None?
    ensures Guarded(cfg, RecordSuccess(s))
  {
    OutcomeSpaced(cfg, s, s.now, true);
    hide Spaced, Trailing;
  }

  lemma FailureGuarded(cfg: Config, s: Channel)
    requires cfg.Valid() && Guarded(cfg, s) && s.openUntil.None?
    ensures Guarded(cfg, RecordFailure(cfg, s))
  {
    OutcomeSpaced(cfg, s, s.now, false);
    hide Spaced, Trailing;
  }

  lemma {:induction false} AttemptGuarded(cfg: Config, inner: Inner, s: Channel, item: Item, i: nat)
    requires cfg.Valid() && Forwards(inner) && i <= |cfg.delays| && Guarded(cfg, s) && s.openUntil.None?
    ensures var (k, ok) := Attempt(cfg, inner, s, item, i);
      Guarded(cfg, k) && s.now <= k.now && (ok ==> k.openUntil.None?)
    decreases |cfg.delays| - i
  {
    var k := CallInner(inner, s, item);
    CallGuarded(cfg, inner, s, item);
    if inner(|s.calls|).ok {
      SuccessGuarded(cfg, k);
    } else if i < |cfg.delays| {
      LaterGuarded(cfg, k, k.now + cfg.delays[i]);
      AttemptGuarded(cfg, inner, k.(now := k.now + cfg.delays[i]), item, i + 1);
    } else {
      FailureGuarded(cfg, k);
    }
  }

  lemma LaterGuarded(cfg: Config, s: Channel, now: real)
    requires Guarded(cfg, s) && s.now <= now
    ensures Guarded(cfg, s.(now := now))
  {
  }

  /** The breaker does not care what waits, what was given and what became of it. */
  lemma QueueAside(cfg: Config, s: Channel, t: Channel)
    requires Guarded(cfg, s) && t == s.(pending := t.pending, submitted := t.submitted, retired := t.retired)
    ensures Guarded(cfg, t)
  {
  }

  lemma ProbeGuarded(cfg: Config, s: Channel)
    requires Guarded(cfg, s)
    ensures Guarded(cfg, Probe(s))
  {
  }

  lemma {:induction false} FlushGuarded(cfg: Config, inner: Inner, s: Channel)
    requires cfg.Valid() && Forwards(inner) && Guarded(cfg, s)
    ensures var k := Flush(cfg, inner, s);
      Guarded(cfg, k) && s.now <= k.now && (s.openUntil.None? && k.pending == [] ==> k.openUntil.None?)
    decreases |s.pending|
  {
    if s.pending != [] && !CircuitOpen(s) {
      ProbeGuarded(cfg, s);
      AttemptFrame(cfg, inner, Probe(s), s.pending[0], 0);
      AttemptGuarded(cfg, inner, Probe(s), s.pending[0], 0);
      var (k, ok) := Attempt(cfg, inner, Probe(s), s.pending[0], 0);
      if ok {
        QueueAside(cfg, k, RetireFront(k));
        FlushGuarded(cfg, inner, RetireFront(k));
      }
    }
  }

  lemma SendNowGuarded(cfg: Config, inner: Inner, s: Channel, item: Item)
    requires cfg.Valid() && Forwards(inner) && Guarded(cfg, s) && (s.pending == [] ==> s.openUntil.None?)
    ensures Guarded(cfg, SendNow(cfg, inner, s, item)) && s.now <= SendNow(cfg, inner, s, item).now
  {
    var end := SendNow(cfg, inner, s, item);
    if s.pending != [] {
      QueueAside(cfg, s, end);
    } else {
      AttemptGuarded(cfg, inner, s, item, 0);
      QueueAside(cfg, Attempt(cfg, inner, s, item, 0).0, end);
    }
  }

  lemma SendGuarded(cfg: Config, inner: Inner, s: Channel, item: Item)
    requires cfg.Valid() && Forwards(inner) && Guarded(cfg, s)
    ensures Guarded(cfg, SendItem(cfg, inner, s, item)) && s.now <= SendItem(cfg, inner, s, item).now
  {
    var given := s.(submitted := s.submitted + [item]);
    QueueAside(cfg, s, given);
    if CircuitOpen(given) {
      QueueAside(cfg, given, Enqueue(cfg, given, item));
    } else {
      var probed := Probe(given);
      ProbeGuarded(cfg, given);
      FlushGuarded(cfg, inner, probed);
      SendNowGuarded(cfg, inner, if probed.pending != [] then Flush(cfg, inner, probed) else probed, item);
    }
  }

  /** n failures in a row take at least (n - threshold) pauses. */
  ghost function Pauses(n: int, pause: real): real { n as real * pause }

  lemma OnePauseMore(n: int, pause: real)
    ensures Pauses(n + 1, pause) == Pauses(n, pause) + pause && Pauses(0, pause) == 0.0
  {
    assert (n + 1) as real == n as real + 1.0;
  }

  lemma {:induction false} FailuresTakeTime(cfg: Config, o: seq<Outcome>, i: nat, j: nat)
    requires cfg.Valid() && Spaced(cfg, o) && i < j <= |o| && forall k | i <= k < j :: !o[k].ok
    ensures j - i <= Trailing(o[..j])
    ensures o[i].at <= o[j - 1].at
    ensures j - i > cfg.threshold ==> o[j - 1].at - o[i].at >= Pauses(j - i - cfg.threshold, cfg.pause)
    decreases j
  {
    hide Pauses;
    assert o[..j][..j - 1] == o[..j - 1];
    if i < j - 1 {
      assert Follows(cfg, o[..j - 1], o[j - 1].at);
      FailuresTakeTime(cfg, o, i, j - 1);
      OnePauseMore(j - 1 - i - cfg.threshold, cfg.pause);
    }
  }

  // ---- runs --------------------------------------------------------------------

  datatype Op = Send(item: Item) | Retry | Wait(seconds: real)

  function Do(cfg: Config, inner: Inner, s: Channel, op: Op): Channel
    requires cfg.maxPending >= 1
  {
    match op
    case Send(item) => SendItem(cfg, inner, s, item)
    case Retry => Flush(cfg, inner, s)
    case Wait(d) => s.(now := s.now + d)
  }

  function Run(cfg: Config, inner: Inner, start: real, ops: seq<Op>): Channel
    requires cfg.maxPending >= 1
  {
    if ops == [] then Start(start) else Do(cfg, inner, Run(cfg, inner, start, ops[..|ops| - 1]), ops[|ops| - 1])
  }

  function Sent(ops: seq<Op>): seq<Item> {
    if ops == [] then []
    else Sent(ops[..|ops| - 1]) + (if ops[|ops| - 1].Send? then [ops[|ops| - 1].item] else [])
  }

  lemma {:induction false} RunHolds(cfg: Config, inner: Inner, start: real, ops: seq<Op>)
    requires cfg.Valid() && Forwards(inner) && forall op | op in ops && op.Wait? :: op.seconds >= 0.0
    ensures var s := Run(cfg, inner, start, ops);
      && NothingLost(s) && |s.pending| <= cfg.maxPending && Guarded(cfg, s) && Accounted(cfg, s)
      && s.submitted == Sent(ops)
    decreases |ops|
  {
    hide SendItem, Flush, Guarded, Accounted;
    if ops == [] {
      StartHolds(cfg, start);
    } else {
      var front, op := ops[..|ops| - 1], ops[|ops| - 1];
      RunHolds(cfg, inner, start, front);
      var s := Run(cfg, inner, start, front);
      match op
      case Send(item) =>
        SendKeepsOrder(cfg, inner, s, item);
        SendGuarded(cfg, inner, s, item);
        SendAccounts(cfg, inner, s, item);
      case Retry =>
        FlushKeepsOrder(cfg, inner, s);
        FlushGuarded(cfg, inner, s);
        FlushAccounts(cfg, inner, s);
      case Wait(d) =>
        LaterGuarded(cfg, s, s.now + d);
        LaterAccounted(cfg, s, s.now + d);
    }
  }

  lemma StartHolds(cfg: Config, start: real)
    ensures Guarded(cfg, Start(start)) && Accounted(cfg, Start(start))
  {
  }

  lemma LaterAccounted(cfg: Config, s: Channel, now: real)
    requires Accounted(cfg, s)
    ensures Accounted(cfg, s.(now := now))
  {
  }

  /**
    Over any run, whatever the inner channel does: first in, first out, and nothing gone but what was retired. What
    was retired as delivered is, in order, exactly what the inner channel took, and the rest was dropped as the oldest
    of a queue at its cap.
   */
  lemma FifoNoLoss(cfg: Config, inner: Inner, start: real, ops: seq<Op>)
    requires cfg.Valid() && Forwards(inner) && forall op | op in ops && op.Wait? :: op.seconds >= 0.0
    ensures var s := Run(cfg, inner, start, ops);
      && Sent(ops) == Items(s.retired) + s.pending && |s.pending| <= cfg.maxPending
      && DeliveredOf(s.retired) == Taken(s.calls)
      && forall i | 0 <= i < |s.retired| :: s.retired[i].1 in {Delivered, Evicted(cfg.maxPending)}
  {
    hide Run, Sent, Guarded, Items, DeliveredOf, Taken;
    RunHolds(cfg, inner, start, ops);
    var s := Run(cfg, inner, start, ops);
    forall i | 0 <= i < |s.retired| ensures s.retired[i].1 in {Delivered, Evicted(cfg.maxPending)} {
      assert s.retired[i].1.Evicted? || s.retired[i].1 == Delivered;
    }
  }

  /**
    Over any run the inner channel is never called while the breaker bars it, and in any stretch of outcomes
    without a success that spans T seconds there are at most threshold + floor(T / pause) final failures.
   */
  lemma BreakerBound(cfg: Config, inner: Inner, start: real, ops: seq<Op>, i: nat, j: nat)
    requires cfg.Valid() && Forwards(inner) && forall op | op in ops && op.Wait? :: op.seconds >= 0.0
    requires var o := Run(cfg, inner, start, ops).outcomes; i < j <= |o| && forall k | i <= k < j :: !o[k].ok
    ensures var s := Run(cfg, inner, start, ops);
      && (forall c | c in s.calls && c.barredUntil.Some? :: c.barredUntil.value <= c.at)
      && j - i <= cfg.threshold + ((s.outcomes[j - 1].at - s.outcomes[i].at) / cfg.pause).Floor
  {
    hide Run, Sent, NothingLost, Accounted, Pauses, Spaced, Trailing;
    RunHolds(cfg, inner, start, ops);
    var o := Run(cfg, inner, start, ops).outcomes;
    FailuresTakeTime(cfg, o, i, j);
    PausesBound(cfg, j - i, o[j - 1].at - o[i].at);
  }

  lemma PausesBound(cfg: Config, failures: nat, span: real)
    requires cfg.Valid() && span >= 0.0
    requires failures > cfg.threshold ==> span >= Pauses(failures - cfg.threshold, cfg.pause)
    ensures failures <= cfg.threshold + (span / cfg.pause).Floor
  {
    DivideBound(span, cfg.pause, if failures > cfg.threshold then failures - cfg.threshold else 0);
  }

  lemma DivideBound(span: real, pause: real, n: nat)
    requires pause > 0.0 && span >= Pauses(n, pause)
    ensures (span / pause).Floor >= n
  {
    assert span / pause >= (n as real * pause) / pause == n as real;
  }
}
