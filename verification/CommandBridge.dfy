/** The command bridge: a poll thread and a state-message thread share two tables under one lock. */
module CommandBridge {
  import opened Collections
  import opened Options

  /** An approved command as the poll fetched it; `siteOk` says whether the row belongs to this bridge's site. */
  datatype Row = Row(id: string, cmd: string, robot: string, siteOk: bool)

  /** A terminal actionState: FINISHED is ok, FAILED is not. */
  datatype Ack = Ack(id: string, ok: bool)

  /** A successful status update of a command row: executed or failed, by a robot's ack or by the poll itself. */
  datatype Closing = Closing(id: string, ok: bool, byRobot: bool)

  /** Where the poll thread stands between two of its atomic actions. */
  datatype PollPc =
    | Resting
    | Looking(rows: seq<Row>)
    | Claimed(row: Row, rest: seq<Row>)
    | Refused(row: Row, rest: seq<Row>)
    | Sent(row: Row, rest: seq<Row>)

  /** Where the state thread stands. */
  datatype StatePc =
    | Waiting
    | Reading(acks: seq<Ack>)
    | Matched(ack: Ack, rest: seq<Ack>)
    | Patched(ack: Ack, rest: seq<Ack>)

  datatype Bridge = Bridge(
    pending: map<string, string>,
    done: set<string>,
    published: seq<string>,
    closings: seq<Closing>,
    reported: set<Ack>,
    poll: PollPc,
    state: StatePc)

  predicate Supported(cmd: string) { cmd in {"pause", "resume", "charge", "estop"} }

  function SiteRows(rows: seq<Row>): seq<Row> {
    if rows == [] then [] else (if rows[0].siteOk then [rows[0]] else []) + SiteRows(rows[1..])
  }

  /** The rows of this bridge's site, all of them, in order. */
  lemma {:induction false} SiteRowsExactly(rows: seq<Row>) returns (at: seq<nat>)
    ensures Picks(rows, at, SiteRows(rows))
    ensures forall i | 0 <= i < |rows| :: i in at <==> rows[i].siteOk
  {
    if rows == [] {
      at := [];
    } else {
      var rest := SiteRowsExactly(rows[1..]);
      var moved := seq(|rest|, j requires 0 <= j < |rest| => rest[j] + 1);
      at := (if rows[0].siteOk then [0] else []) + moved;
      LaterBy(rows[0], rows[1..], rest, moved, SiteRows(rows[1..]), rows[0].siteOk);
      LaterMembers(rest, moved, at, rows[0].siteOk);
      assert rows == [rows[0]] + rows[1..];
      forall i | 0 < i < |rows| ensures i in at <==> rows[i].siteOk { assert rows[1..][i - 1] == rows[i]; }
    }
  }

  const Start := Bridge(map[], {}, [], [], {}, Resting, Waiting)

  /** Everything either thread does between releasing and taking the lock again is one of these. */
  datatype Action =
    | Fetch(rows: seq<Row>) | Skip | Claim | Refuse(patched: bool) | MarkRefused | GiveUp | Publish | MarkPending | Rest
    | Receive(acks: seq<Ack>) | Ignore | Match | PatchOk | PatchFail | Close | Finish

  predicate ByPoll(a: Action) {
    || a.Fetch? || a.Skip? || a.Claim? || a.Refuse? || a.MarkRefused? || a.GiveUp? || a.Publish? || a.MarkPending?
    || a.Rest?
  }

  predicate Known(s: Bridge, id: string) { id in s.pending || id in s.done }

  predicate Enabled(s: Bridge, a: Action) {
    match a
    case Fetch(_) => s.poll.Resting?
    case Skip => s.poll.Looking? && s.poll.rows != [] && (s.poll.rows[0].id == "" || Known(s, s.poll.rows[0].id))
    case Claim => s.poll.Looking? && s.poll.rows != [] && s.poll.rows[0].id != "" && !Known(s, s.poll.rows[0].id)
    case Refuse(_) => s.poll.Claimed? && !Supported(s.poll.row.cmd)
    case MarkRefused => s.poll.Refused?
    case GiveUp => s.poll.Claimed? && Supported(s.poll.row.cmd)
    case Publish => s.poll.Claimed? && Supported(s.poll.row.cmd)
    case MarkPending => s.poll.Sent?
    case Rest => s.poll.Looking? && s.poll.rows == []
    case Receive(_) => s.state.Waiting?
    case Ignore => s.state.Reading? && s.state.acks != [] && s.state.acks[0].id !in s.pending
    case Match => s.state.Reading? && s.state.acks != [] && s.state.acks[0].id in s.pending
    case PatchOk => s.state.Matched?
    case PatchFail => s.state.Matched?
    case Close => s.state.Patched?
    case Finish => s.state.Reading? && s.state.acks == []
  }

  function Do(s: Bridge, a: Action): Bridge
    requires Enabled(s, a)
  {
    match a
    case Fetch(rows) => s.(poll := Looking(SiteRows(rows)))
    case Skip => s.(poll := Looking(s.poll.rows[1..]))
    case Claim => s.(poll := Claimed(s.poll.rows[0], s.poll.rows[1..]))
    case Refuse(patched) =>
      s.(poll := Refused(s.poll.row, s.poll.rest),
         closings := if patched then s.closings + [Closing(s.poll.row.id, false, false)] else s.closings)
    case MarkRefused => s.(poll := Looking(s.poll.rest), done := s.done + {s.poll.row.id})
    case GiveUp => s.(poll := Looking(s.poll.rest))
    case Publish => s.(poll := Sent(s.poll.row, s.poll.rest), published := s.published + [s.poll.row.id])
    case MarkPending =>
      s.(poll := Looking(s.poll.rest), pending := s.pending[s.poll.row.id := s.poll.row.robot])
    case Rest => s.(poll := Resting)
    case Receive(acks) => s.(state := Reading(acks), reported := s.reported + set x | x in acks)
    case Ignore => s.(state := Reading(s.state.acks[1..]))
    case Match => s.(state := Matched(s.state.acks[0], s.state.acks[1..]))
    case PatchOk =>
      s.(state := Patched(s.state.ack, s.state.rest),
         closings := s.closings + [Closing(s.state.ack.id, s.state.ack.ok, true)])
    case PatchFail => s.(state := Reading(s.state.rest))
    case Close =>
      s.(state := Reading(s.state.rest), pending := s.pending - {s.state.ack.id}, done := s.done + {s.state.ack.id})
    case Finish => s.(state := Waiting)
  }

  // ---- the invariant ---------------------------------------------------------

  ghost predicate IsClosed(closings: seq<Closing>, id: string) {
    exists i :: 0 <= i < |closings| && closings[i].id == id
  }

  /** A command keeps the verb it was queued with. */
  ghost predicate FixedVerbs(cmdOf: string -> string, rows: seq<Row>) {
    forall i | 0 <= i < |rows| :: rows[i].cmd == cmdOf(rows[i].id)
  }

  ghost predicate PollFits(cmdOf: string -> string, s: Bridge) {
    match s.poll
    case Resting => true
    case Looking(rows) => FixedVerbs(cmdOf, rows)
    case Claimed(row, rest) =>
      && FixedVerbs(cmdOf, [row] + rest) && row.id != "" && !Known(s, row.id)
      && row.id !in s.published && !IsClosed(s.closings, row.id)
    case Refused(row, rest) =>
      FixedVerbs(cmdOf, [row] + rest) && !Known(s, row.id) && row.id !in s.published && !Supported(row.cmd)
    case Sent(row, rest) =>
      FixedVerbs(cmdOf, [row] + rest) && !Known(s, row.id) && row.id in s.published && !IsClosed(s.closings, row.id)
  }

  ghost predicate StateFits(s: Bridge) {
    match s.state
    case Waiting => true
    case Reading(acks) => forall a | a in acks :: a in s.reported
    case Matched(ack, rest) =>
      (forall a | a in [ack] + rest :: a in s.reported) && ack.id in s.pending && !IsClosed(s.closings, ack.id)
    case Patched(ack, rest) =>
      (forall a | a in [ack] + rest :: a in s.reported) && ack.id in s.pending && IsClosed(s.closings, ack.id)
  }

  ghost predicate Justified(cmdOf: string -> string, s: Bridge, c: Closing) {
    if c.byRobot then c.id in s.published && Ack(c.id, c.ok) in s.reported
    else c.id !in s.published && !c.ok && !Supported(cmdOf(c.id))
  }

  ghost predicate Safe(cmdOf: string -> string, s: Bridge) {
    && s.pending.Keys !! s.done
    && Distinct(s.published)
    && (forall id | id in s.published ::
          Supported(cmdOf(id)) && (Known(s, id) || (s.poll.Sent? && s.poll.row.id == id)))
    && (forall id | id in s.pending :: id in s.published)
    && (forall id | id in s.pending && IsClosed(s.closings, id) :: s.state.Patched? && s.state.ack.id == id)
    && (forall id | IsClosed(s.closings, id) :: Known(s, id) || (s.poll.Refused? && s.poll.row.id == id))
    && (forall i | 0 <= i < |s.closings| :: Justified(cmdOf, s, s.closings[i]))
    && (forall i, j | 0 <= i < j < |s.closings| :: s.closings[i].id != s.closings[j].id)
    && (forall id | id in s.done && Supported(cmdOf(id)) :: IsClosed(s.closings, id))
    && PollFits(cmdOf, s) && StateFits(s)
  }

  lemma {:induction false} SiteRowsKeepVerbs(cmdOf: string -> string, rows: seq<Row>)
    requires FixedVerbs(cmdOf, rows)
    ensures FixedVerbs(cmdOf, SiteRows(rows))
    ensures forall row | row in SiteRows(rows) :: row in rows && row.siteOk
  {
    if rows != [] { SiteRowsKeepVerbs(cmdOf, rows[1..]); }
  }

  /** Actions that only move a program counter. */
  lemma MoveKeepsSafe(cmdOf: string -> string, s: Bridge, t: Bridge)
    requires Safe(cmdOf, s) && t == s.(poll := t.poll, state := t.state)
    requires s.poll == t.poll || (!s.poll.Sent? && !s.poll.Refused?)
    requires s.state == t.state || !s.state.Patched?
    requires PollFits(cmdOf, t) && StateFits(t)
    ensures Safe(cmdOf, t)
  {
  }

  lemma PollMovesKeepSafe(cmdOf: string -> string, s: Bridge, a: Action)
    requires Safe(cmdOf, s) && Enabled(s, a) && (a.Fetch? || a.Skip? || a.Claim? || a.GiveUp? || a.Rest?)
    requires a.Fetch? ==> FixedVerbs(cmdOf, a.rows)
    ensures Safe(cmdOf, Do(s, a))
  {
    if a.Fetch? { SiteRowsKeepVerbs(cmdOf, a.rows); }
    if a.Claim? {
      var row := s.poll.rows[0];
      assert row.id !in s.published && !IsClosed(s.closings, row.id);
      assert [row] + s.poll.rows[1..] == s.poll.rows;
    }
    if a.GiveUp? { assert s.poll.rest == ([s.poll.row] + s.poll.rest)[1..]; }
    MoveKeepsSafe(cmdOf, s, Do(s, a));
  }

  lemma StateMovesKeepSafe(cmdOf: string -> string, s: Bridge, a: Action)
    requires Safe(cmdOf, s) && Enabled(s, a) && (a.Ignore? || a.Match? || a.PatchFail? || a.Finish?)
    ensures Safe(cmdOf, Do(s, a))
  {
    if a.Match? { assert [s.state.acks[0]] + s.state.acks[1..] == s.state.acks; }
    MoveKeepsSafe(cmdOf, s, Do(s, a));
  }

  lemma ReceiveKeepsSafe(cmdOf: string -> string, s: Bridge, acks: seq<Ack>)
    requires Safe(cmdOf, s) && s.state.Waiting?
    ensures Safe(cmdOf, Do(s, Receive(acks)))
  {
    var t := Do(s, Receive(acks));
    forall i | 0 <= i < |t.closings| ensures Justified(cmdOf, t, t.closings[i]) {
      assert Justified(cmdOf, s, s.closings[i]);
    }
  }

  lemma ClosedAfter(closings: seq<Closing>, c: Closing, id: string)
    ensures IsClosed(closings + [c], id) <==> IsClosed(closings, id) || id == c.id
  {
    var more := closings + [c];
    if IsClosed(closings, id) {
      var i :| 0 <= i < |closings| && closings[i].id == id;
      assert more[i].id == id;
    }
    assert more[|closings|] == c;
  }

  /** A new closing of a command that had none, by whoever stands at it. */
  lemma ClosingKeepsOnce(cmdOf: string -> string, s: Bridge, c: Closing)
    requires Safe(cmdOf, s) && !IsClosed(s.closings, c.id) && Justified(cmdOf, s, c)
    ensures var t := s.(closings := s.closings + [c]);
      && (forall i | 0 <= i < |t.closings| :: Justified(cmdOf, t, t.closings[i]))
      && (forall i, j | 0 <= i < j < |t.closings| :: t.closings[i].id != t.closings[j].id)
      && (forall id :: IsClosed(t.closings, id) <==> IsClosed(s.closings, id) || id == c.id)
  {
    var t := s.(closings := s.closings + [c]);
    forall id ensures IsClosed(t.closings, id) <==> IsClosed(s.closings, id) || id == c.id {
      ClosedAfter(s.closings, c, id);
    }
    forall i | 0 <= i < |t.closings| ensures Justified(cmdOf, t, t.closings[i]) {
      assert i < |s.closings| ==> Justified(cmdOf, s, s.closings[i]);
    }
  }

  lemma RefuseKeepsSafe(cmdOf: string -> string, s: Bridge, patched: bool)
    requires Safe(cmdOf, s) && Enabled(s, Refuse(patched))
    ensures Safe(cmdOf, Do(s, Refuse(patched)))
  {
    var row, t := s.poll.row, Do(s, Refuse(patched));
    assert ([row] + s.poll.rest)[0] == row;
    if patched {
      ClosingKeepsOnce(cmdOf, s, Closing(row.id, false, false));
    }
    assert forall i | 0 <= i < |t.closings| ::
      Justified(cmdOf, t, t.closings[i]) <==> Justified(cmdOf, s.(closings := t.closings), t.closings[i]);
  }

  lemma PatchKeepsSafe(cmdOf: string -> string, s: Bridge)
    requires Safe(cmdOf, s) && Enabled(s, PatchOk)
    ensures Safe(cmdOf, Do(s, PatchOk))
  {
    var t := Do(s, PatchOk);
    assert ([s.state.ack] + s.state.rest)[0] == s.state.ack;
    ClosingKeepsOnce(cmdOf, s, Closing(s.state.ack.id, s.state.ack.ok, true));
    assert forall i | 0 <= i < |t.closings| ::
      Justified(cmdOf, t, t.closings[i]) <==> Justified(cmdOf, s.(closings := t.closings), t.closings[i]);
  }

  /** The bookkeeping under the lock: the same closings, published ids and reports, other tables. */
  lemma TablesKeepJustified(cmdOf: string -> string, s: Bridge, t: Bridge)
    requires Safe(cmdOf, s) && t.closings == s.closings && s.reported == t.reported && t.published == s.published
    ensures forall i | 0 <= i < |t.closings| :: Justified(cmdOf, t, t.closings[i])
  {
    forall i | 0 <= i < |t.closings| ensures Justified(cmdOf, t, t.closings[i]) {
      assert Justified(cmdOf, s, s.closings[i]);
    }
  }

  lemma MarksKeepSafe(cmdOf: string -> string, s: Bridge, a: Action)
    requires Safe(cmdOf, s) && Enabled(s, a) && (a.MarkRefused? || a.MarkPending? || a.Close?)
    ensures Safe(cmdOf, Do(s, a))
  {
    var t := Do(s, a);
    TablesKeepJustified(cmdOf, s, t);
    if !a.Close? {
      assert s.poll.rest == ([s.poll.row] + s.poll.rest)[1..] && ([s.poll.row] + s.poll.rest)[0] == s.poll.row;
    } else { assert forall x | x in s.state.rest :: x in [s.state.ack] + s.state.rest; }
  }

  lemma PublishKeepsSafe(cmdOf: string -> string, s: Bridge)
    requires Safe(cmdOf, s) && Enabled(s, Publish)
    ensures Safe(cmdOf, Do(s, Publish))
  {
    var row, t := s.poll.row, Do(s, Publish);
    assert ([row] + s.poll.rest)[0] == row;
    forall i | 0 <= i < |t.closings| ensures Justified(cmdOf, t, t.closings[i]) {
      assert Justified(cmdOf, s, s.closings[i]);
      if s.closings[i].id == row.id { assert false; }
    }
  }

  lemma ActionKeepsSafe(cmdOf: string -> string, s: Bridge, a: Action)
    requires Safe(cmdOf, s) && Enabled(s, a) && (a.Fetch? ==> FixedVerbs(cmdOf, a.rows))
    ensures Safe(cmdOf, Do(s, a))
  {
    hide Safe, Do;
    match a
    case Refuse(patched) => RefuseKeepsSafe(cmdOf, s, patched);
    case Publish => PublishKeepsSafe(cmdOf, s);
    case PatchOk => PatchKeepsSafe(cmdOf, s);
    case MarkRefused => MarksKeepSafe(cmdOf, s, a);
    case MarkPending => MarksKeepSafe(cmdOf, s, a);
    case Close => MarksKeepSafe(cmdOf, s, a);
    case Receive(acks) => ReceiveKeepsSafe(cmdOf, s, acks);
    case _ => if ByPoll(a) { PollMovesKeepSafe(cmdOf, s, a); } else { StateMovesKeepSafe(cmdOf, s, a); }
  }

  // ---- every interleaving ----------------------------------------------------

  /** Where an interleaving leads from the start, if each of its actions is enabled when its turn comes. */
  function Play(acts: seq<Action>): Option<Bridge> {
    if acts == [] then Some(Start)
    else
      var s := Play(acts[..|acts| - 1]);
      if s.Some? && Enabled(s.value, acts[|acts| - 1]) then Some(Do(s.value, acts[|acts| - 1])) else None
  }

  ghost predicate AllFixedVerbs(cmdOf: string -> string, acts: seq<Action>) {
    forall a | a in acts && a.Fetch? :: FixedVerbs(cmdOf, a.rows)
  }

  lemma {:induction false} EveryInterleavingIsSafe(cmdOf: string -> string, acts: seq<Action>)
    requires Play(acts).Some? && AllFixedVerbs(cmdOf, acts)
    ensures Safe(cmdOf, Play(acts).value)
    decreases |acts|
  {
    if acts == [] {
      assert Safe(cmdOf, Start);
    } else {
      EveryInterleavingIsSafe(cmdOf, acts[..|acts| - 1]);
      ActionKeepsSafe(cmdOf, Play(acts[..|acts| - 1]).value, acts[|acts| - 1]);
    }
  }

  /**
    In every interleaving of the two threads, from whatever snapshots the poll was given: no command is published
    twice; nothing is both pending and done; what is pending was published; no row is closed twice; a row is closed
    by a robot only for a published command and with a status that robot reported, by the poll only as an
    unsupported command that was never published; and a supported command is done only once its row is closed.
   */
  lemma BridgeProtocol(cmdOf: string -> string, acts: seq<Action>)
    requires Play(acts).Some? && AllFixedVerbs(cmdOf, acts)
    ensures var s := Play(acts).value;
      && Distinct(s.published)
      && s.pending.Keys !! s.done
      && (forall id | id in s.pending :: id in s.published)
      && (forall i, j | 0 <= i < j < |s.closings| :: s.closings[i].id != s.closings[j].id)
      && (forall c | c in s.closings ::
            if c.byRobot then c.id in s.published && Ack(c.id, c.ok) in s.reported
            else c.id !in s.published && !c.ok && !Supported(cmdOf(c.id)))
      && (forall id | id in s.done && Supported(cmdOf(id)) :: IsClosed(s.closings, id))
  {
    EveryInterleavingIsSafe(cmdOf, acts);
    var s := Play(acts).value;
    forall c | c in s.closings
      ensures if c.byRobot then c.id in s.published && Ack(c.id, c.ok) in s.reported
              else c.id !in s.published && !c.ok && !Supported(cmdOf(c.id))
    {
      var i :| 0 <= i < |s.closings| && s.closings[i] == c;
      assert Justified(cmdOf, s, s.closings[i]);
    }
  }

  // ---- a refusal that is never recorded ----------------------------------------

  /** Whether an unsupported command's row is closed is decided by the one update the poll attempts. */
  lemma RefusalIsOneShot(cmdOf: string -> string, s: Bridge, patched: bool)
    requires Safe(cmdOf, s) && Enabled(s, Refuse(patched))
    ensures var t := Do(Do(s, Refuse(patched)), MarkRefused);
      s.poll.row.id in t.done && (IsClosed(t.closings, s.poll.row.id) <==> patched)
  {
    if patched { ClosedAfter(s.closings, Closing(s.poll.row.id, false, false), s.poll.row.id); }
  }

  lemma LostRefusalStays(cmdOf: string -> string, s: Bridge, a: Action, id: string)
    requires Safe(cmdOf, s) && Enabled(s, a) && id in s.done && !IsClosed(s.closings, id)
    ensures id in Do(s, a).done && !IsClosed(Do(s, a).closings, id)
  {
    if a.Refuse? && a.patched { ClosedAfter(s.closings, Closing(s.poll.row.id, false, false), id); }
    if a.PatchOk? { ClosedAfter(s.closings, Closing(s.state.ack.id, s.state.ack.ok, true), id); }
  }

  /** If it failed, no continuation of either thread ever closes the row: it stays approved in the table. */
  lemma {:induction false} LostRefusalIsForever(
      cmdOf: string -> string, acts: seq<Action>, more: seq<Action>, id: string)
    requires Play(acts + more).Some? && AllFixedVerbs(cmdOf, acts + more)
    requires Play(acts).Some? && id in Play(acts).value.done && !IsClosed(Play(acts).value.closings, id)
    ensures id in Play(acts + more).value.done && !IsClosed(Play(acts + more).value.closings, id)
    decreases |more|
  {
    if more == [] {
      assert acts + more == acts;
    } else {
      var before := acts + more[..|more| - 1];
      assert (acts + more)[..|acts + more| - 1] == before;
      LostRefusalIsForever(cmdOf, acts, more[..|more| - 1], id);
      EveryInterleavingIsSafe(cmdOf, before);
      LostRefusalStays(cmdOf, Play(before).value, more[|more| - 1], id);
    }
  }

  lemma PatchedIsPending(cmdOf: string -> string, s: Bridge)
    requires Safe(cmdOf, s) && s.state.Patched?
    ensures s.state.ack.id in s.pending
  {
  }

  // ---- what one message closes ---------------------------------------------------

  /** The closings the poll made itself. */
  ghost function ByPollOnly(closings: seq<Closing>): seq<Closing> {
    if closings == [] then []
    else
      var last := closings[|closings| - 1];
      ByPollOnly(closings[..|closings| - 1]) + if last.byRobot then [] else [last]
  }

  lemma OneMoreClosing(closings: seq<Closing>, c: Closing)
    ensures ByPollOnly(closings + [c]) == ByPollOnly(closings) + if c.byRobot then [] else [c]
    ensures closings + [] == closings
  {
    assert (closings + [c])[..|closings|] == closings;
  }

  ghost function AcksOf(closings: seq<Closing>): seq<Ack> {
    seq(|closings|, i requires 0 <= i < |closings| => Ack(closings[i].id, closings[i].ok))
  }

  /** Among the first n acknowledgements is one of that command whose update succeeds. */
  predicate Confirmed(acks: seq<Ack>, updates: seq<bool>, n: nat, id: string)
    requires n <= |acks| == |updates|
  {
    exists i :: 0 <= i < n && updates[i] && acks[i].id == id
  }

  /** The i-th acknowledgement is the first of a pending command whose update succeeds. */
  predicate ClosesAt(pending: set<string>, acks: seq<Ack>, updates: seq<bool>, i: nat)
    requires i < |acks| == |updates|
  {
    updates[i] && acks[i].id in pending && !Confirmed(acks, updates, i, acks[i].id)
  }

  ghost predicate HandledUpTo(s: Bridge, t: Bridge, acks: seq<Ack>, updates: seq<bool>, n: nat, at: seq<nat>)
    requires n <= |acks| == |updates|
  {
    && s.closings <= t.closings && (forall c | c in t.closings[|s.closings|..] :: c.byRobot)
    && Picks(acks, at, AcksOf(t.closings[|s.closings|..])) && (forall i | i in at :: i < n)
    && (forall i | 0 <= i < n :: i in at <==> ClosesAt(s.pending.Keys, acks, updates, i))
    && (forall id :: id in t.done <==> id in s.done || (id in s.pending && Confirmed(acks, updates, n, id)))
    && t.pending == map id | id in s.pending && !Confirmed(acks, updates, n, id) :: s.pending[id]
  }

  lemma ConfirmedNext(acks: seq<Ack>, updates: seq<bool>, n: nat, id: string)
    requires n < |acks| == |updates|
    ensures Confirmed(acks, updates, n + 1, id) <==> Confirmed(acks, updates, n, id) || (updates[n] && acks[n].id == id)
  {
    if updates[n] && acks[n].id == id { assert Confirmed(acks, updates, n + 1, id); }
    if i :| 0 <= i < n && updates[i] && acks[i].id == id { assert Confirmed(acks, updates, n + 1, id); }
  }

  lemma ClosedOneMore(was: seq<Closing>, now: seq<Closing>, c: Closing, acks: seq<Ack>, at: seq<nat>, n: nat)
    requires was <= now && Picks(acks, at, AcksOf(now[|was|..])) && (forall i | i in at :: i < n)
    requires n < |acks| && acks[n] == Ack(c.id, c.ok)
    ensures was <= now + [c] && (now + [c])[|was|..] == now[|was|..] + [c]
    ensures Picks(acks, at + [n], AcksOf((now + [c])[|was|..]))
  {
    var tail := now[|was|..];
    assert (now + [c])[|was|..] == tail + [c];
    assert AcksOf(tail + [c]) == AcksOf(tail) + [acks[n]];
    assert forall j | 0 <= j < |at| :: at[j] in at;
  }

  lemma TablesOneMore(s: Bridge, t: Bridge, u: Bridge, acks: seq<Ack>, updates: seq<bool>, n: nat)
    requires n < |acks| == |updates|
    requires forall id :: id in t.done <==> id in s.done || (id in s.pending && Confirmed(acks, updates, n, id))
    requires t.pending == map id | id in s.pending && !Confirmed(acks, updates, n, id) :: s.pending[id]
    requires var closes := updates[n] && acks[n].id in t.pending;
      && u.pending == (if closes then t.pending - {acks[n].id} else t.pending)
      && u.done == if closes then t.done + {acks[n].id} else t.done
    ensures forall id :: id in u.done <==> id in s.done || (id in s.pending && Confirmed(acks, updates, n + 1, id))
    ensures u.pending == map id | id in s.pending && !Confirmed(acks, updates, n + 1, id) :: s.pending[id]
    ensures updates[n] && acks[n].id in t.pending <==> ClosesAt(s.pending.Keys, acks, updates, n)
  {
    forall id ensures Confirmed(acks, updates, n + 1, id) <==>
                      Confirmed(acks, updates, n, id) || (updates[n] && acks[n].id == id) {
      ConfirmedNext(acks, updates, n, id);
    }
    hide Confirmed;
    var next := map id | id in s.pending && !Confirmed(acks, updates, n + 1, id) :: s.pending[id];
    assert u.pending.Keys == next.Keys;
    assert forall id | id in next :: u.pending[id] == next[id];
  }

  lemma HandledOneMore(s: Bridge, t: Bridge, u: Bridge, acks: seq<Ack>, updates: seq<bool>, n: nat, at: seq<nat>)
    requires n < |acks| == |updates| && HandledUpTo(s, t, acks, updates, n, at)
    requires var ack := acks[n]; var closes := updates[n] && ack.id in t.pending;
      && u.closings == t.closings + (if closes then [Closing(ack.id, ack.ok, true)] else [])
      && u.pending == (if closes then t.pending - {ack.id} else t.pending)
      && u.done == if closes then t.done + {ack.id} else t.done
    ensures HandledUpTo(s, u, acks, updates, n + 1, if updates[n] && acks[n].id in t.pending then at + [n] else at)
  {
    hide Confirmed, Picks, AcksOf, ClosesAt;
    TablesOneMore(s, t, u, acks, updates, n);
    var ack := acks[n];
    if updates[n] && ack.id in t.pending {
      ClosedOneMore(s.closings, t.closings, Closing(ack.id, ack.ok, true), acks, at, n);
    } else {
      assert t.closings + [] == t.closings;
    }
  }

  // ---- the publisher in its own form -------------------------------------------

  /**
    The publisher object. `pending` and `done` are its two tables and are only touched under the lock; `pollPc`
    and `statePc` are the two threads' places in their code. The ghost fields record the world outside.
   */
  class CommandPublisher {
    ghost const cmdOf: string -> string
    var pending: map<string, string>
    var done: set<string>
    var statePc: StatePc
    ghost var pollPc: PollPc
    ghost var published: seq<string>
    ghost var closings: seq<Closing>
    ghost var reported: set<Ack>
    ghost var trace: seq<Action>

    ghost function View(): Bridge
      reads this
    {
      Bridge(pending, done, published, closings, reported, pollPc, statePc)
    }

    /** The ids the publisher will not look at again. */
    function KnownIds(): set<string>
      reads this`pending, this`done
    {
      pending.Keys + done
    }

    /** The object is where its trace of atomic actions leads. */
    ghost predicate Valid()
      reads this
    {
      Play(trace) == Some(View()) && AllFixedVerbs(cmdOf, trace)
    }

    constructor (ghost cmdOf: string -> string)
      ensures Valid() && this.cmdOf == cmdOf && View() == Start
    {
      this.cmdOf := cmdOf;
      pending, done, statePc := map[], {}, Waiting;
      pollPc, published, closings, reported, trace := Resting, [], [], {}, [];
    }

    lemma TraceGrows(before: Bridge, a: Action)
      requires Play(trace) == Some(before) && AllFixedVerbs(cmdOf, trace) && Enabled(before, a)
      requires a.Fetch? ==> FixedVerbs(cmdOf, a.rows)
      ensures Play(trace + [a]) == Some(Do(before, a)) && AllFixedVerbs(cmdOf, trace + [a])
    {
      assert (trace + [a])[..|trace|] == trace;
    }

    /**
      One atomic action of the state thread, by its place in the code: a message is taken in, an acknowledgement is
      looked up, the row of a pending command is updated, and the command is closed only if that succeeded.
     */
    method StateAction(incoming: seq<Ack>, patchOk: bool)
      requires Valid()
      modifies this`pending, this`done, this`statePc, this`closings, this`reported, this`trace
      ensures Valid() && old(trace) <= trace && pollPc == old(pollPc) && published == old(published)
      ensures KnownIds() == old(KnownIds())
      ensures old(statePc).Waiting? ==>
        View() == old(View()).(state := Reading(incoming), reported := old(reported) + set x | x in incoming)
      ensures old(statePc).Reading? ==>
        var acks := old(statePc).acks;
        View() == old(View()).(state := if acks == [] then Waiting
                                        else if acks[0].id in old(pending) then Matched(acks[0], acks[1..])
                                        else Reading(acks[1..]))
      ensures old(statePc).Matched? ==>
        var ack, rest := old(statePc).ack, old(statePc).rest;
        View() == old(View()).(state := if patchOk then Patched(ack, rest) else Reading(rest),
                               closings := old(closings) + if patchOk then [Closing(ack.id, ack.ok, true)] else [])
      ensures old(statePc).Patched? ==>
        var ack, rest := old(statePc).ack, old(statePc).rest;
        View() == old(View()).(state := Reading(rest), pending := old(pending) - {ack.id}, done := old(done) + {ack.id})
    {
      hide Play, AllFixedVerbs;
      match statePc {
        case Waiting => TakeIn(incoming);
        case Reading(_) => LookUp();
        case Matched(_, _) => UpdateRow(patchOk);
        case Patched(_, _) => CloseCommand();
      }
    }

    method TakeIn(incoming: seq<Ack>)
      requires Valid() && statePc.Waiting?
      modifies this`statePc, this`reported, this`trace
      ensures Valid() && old(trace) <= trace
      ensures View() == old(View()).(state := Reading(incoming), reported := old(reported) + set x | x in incoming)
    {
      hide Play, AllFixedVerbs;
      TraceGrows(View(), Receive(incoming));
      trace := trace + [Receive(incoming)];
      reported := reported + set x | x in incoming;
      statePc := Reading(incoming);
    }

    /** The next acknowledgement, if there is one, is held against the pending commands. */
    method LookUp()
      requires Valid() && statePc.Reading?
      modifies this`statePc, this`trace
      ensures Valid() && old(trace) <= trace
      ensures
        var acks := old(statePc).acks;
        View() == old(View()).(state := if acks == [] then Waiting
                                        else if acks[0].id in pending then Matched(acks[0], acks[1..])
                                        else Reading(acks[1..]))
    {
      hide Play, AllFixedVerbs;
      var acks := statePc.acks;
      if acks == [] {
        TraceGrows(View(), Finish);
        trace := trace + [Finish];
        statePc := Waiting;
      } else if acks[0].id !in pending {
        TraceGrows(View(), Ignore);
        trace := trace + [Ignore];
        statePc := Reading(acks[1..]);
      } else {
        TraceGrows(View(), Match);
        trace := trace + [Match];
        statePc := Matched(acks[0], acks[1..]);
      }
    }

    /** The row of the command is updated, with the lock free; `patchOk` says whether that succeeds. */
    method UpdateRow(patchOk: bool)
      requires Valid() && statePc.Matched?
      modifies this`statePc, this`closings, this`trace
      ensures Valid() && old(trace) <= trace
      ensures
        var ack, rest := old(statePc).ack, old(statePc).rest;
        View() == old(View()).(state := if patchOk then Patched(ack, rest) else Reading(rest),
                               closings := old(closings) + if patchOk then [Closing(ack.id, ack.ok, true)] else [])
    {
      hide Play, AllFixedVerbs;
      var ack, rest := statePc.ack, statePc.rest;
      if patchOk {
        TraceGrows(View(), PatchOk);
        trace := trace + [PatchOk];
        closings := closings + [Closing(ack.id, ack.ok, true)];
        statePc := Patched(ack, rest);
      } else {
        TraceGrows(View(), PatchFail);
        trace := trace + [PatchFail];
        statePc := Reading(rest);
      }
    }

    /** The command moves from pending to done. */
    method CloseCommand()
      requires Valid() && statePc.Patched?
      modifies this`pending, this`done, this`statePc, this`trace
      ensures Valid() && old(trace) <= trace && KnownIds() == old(KnownIds())
      ensures
        var ack, rest := old(statePc).ack, old(statePc).rest;
        View() == old(View()).(state := Reading(rest), pending := old(pending) - {ack.id}, done := old(done) + {ack.id})
    {
      EveryInterleavingIsSafe(cmdOf, trace);
      PatchedIsPending(cmdOf, View());
      hide Play, AllFixedVerbs, Safe;
      var ack, rest := statePc.ack, statePc.rest;
      TraceGrows(View(), Close);
      trace := trace + [Close];
      pending := pending - {ack.id};
      done := done + {ack.id};
      statePc := Reading(rest);
    }

    /** Whatever the state thread happens to do while the poll thread does not hold the lock. */
    method StateThreadRuns()
      requires Valid()
      modifies this`pending, this`done, this`statePc, this`closings, this`reported, this`trace
      ensures Valid() && old(trace) <= trace && pollPc == old(pollPc) && published == old(published)
      ensures KnownIds() == old(KnownIds()) && ByPollOnly(closings) == ByPollOnly(old(closings))
    {
      hide Play, AllFixedVerbs;
      var steps :| 0 <= steps;
      for n := 0 to steps
        invariant Valid() && old(trace) <= trace && pollPc == old(pollPc) && published == old(published)
        invariant KnownIds() == old(KnownIds()) && ByPollOnly(closings) == ByPollOnly(old(closings))
      {
        var incoming: seq<Ack>, patchOk: bool := *, *;
        if statePc.Matched? { OneMoreClosing(closings, Closing(statePc.ack.id, statePc.ack.ok, true)); }
        assert closings + [] == closings;
        StateAction(incoming, patchOk);
      }
    }

    /**
      A whole state message, while the poll thread is elsewhere; `updates` says for each acknowledgement whether the
      update of the command's row succeeds. Exactly the acknowledged commands that were pending and whose update
      succeeded are closed, each once and with the first status so recorded; every other command is left alone.
     */
    method HandleState(incoming: seq<Ack>, updates: seq<bool>) returns (ghost at: seq<nat>)
      requires Valid() && statePc == Waiting && |updates| == |incoming|
      modifies this`pending, this`done, this`statePc, this`closings, this`reported, this`trace
      ensures Valid() && statePc == Waiting && pollPc == old(pollPc) && published == old(published)
      ensures reported == old(reported) + set x | x in incoming
      ensures forall i | 0 <= i < |incoming| :: i in at <==> ClosesAt(old(pending.Keys), incoming, updates, i)
      ensures old(closings) <= closings && Picks(incoming, at, AcksOf(closings[|old(closings)|..]))
      ensures forall c | c in closings[|old(closings)|..] :: c.byRobot
      ensures forall id :: id in done <==>
        id in old(done) || (id in old(pending) && Confirmed(incoming, updates, |incoming|, id))
      ensures pending
        == map id | id in old(pending) && !Confirmed(incoming, updates, |incoming|, id) :: old(pending)[id]
    {
      hide Play, AllFixedVerbs;
      at := [];
      StateAction(incoming, false);
      ghost var heard := reported;
      for i := 0 to |incoming|
        invariant Valid() && statePc == Reading(incoming[i..]) && pollPc == old(pollPc) && published == old(published)
        invariant reported == heard
        invariant HandledUpTo(old(View()), View(), incoming, updates, i, at)
      {
        hide HandledUpTo, Confirmed, ClosesAt, Picks, AcksOf;
        ghost var before := View();
        HandleAck(updates[i]);
        HandledOneMore(old(View()), before, View(), incoming, updates, i, at);
        if updates[i] && incoming[i].id in before.pending { at := at + [i]; }
      }
      StateAction([], false);
    }

    /** One acknowledgement: its command is closed if it is pending and its row can be updated. */
    method HandleAck(patchOk: bool)
      requires Valid() && statePc.Reading? && statePc.acks != []
      modifies this`pending, this`done, this`statePc, this`closings, this`reported, this`trace
      ensures Valid() && pollPc == old(pollPc) && published == old(published) && reported == old(reported)
      ensures statePc == Reading(old(statePc).acks[1..])
      ensures var ack := old(statePc).acks[0]; var closes := patchOk && ack.id in old(pending);
        && closings == old(closings) + (if closes then [Closing(ack.id, ack.ok, true)] else [])
        && pending == (if closes then old(pending) - {ack.id} else old(pending))
        && done == if closes then old(done) + {ack.id} else old(done)
    {
      hide Play, AllFixedVerbs;
      StateAction([], false);
      if statePc.Matched? {
        StateAction([], patchOk);
        if statePc.Patched? { StateAction([], false); }
      }
    }

    ghost method PollStep(a: Action)
      requires Valid() && Enabled(View(), a) && ByPoll(a) && !a.MarkPending? && !a.MarkRefused?
      requires a.Fetch? ==> FixedVerbs(cmdOf, a.rows)
      modifies this`pollPc, this`published, this`closings, this`trace
      ensures Valid() && View() == Do(old(View()), a) && trace == old(trace) + [a]
      ensures published == old(published) + (if a.Publish? then [old(pollPc).row.id] else [])
    {
      var t := Do(View(), a);
      TraceGrows(View(), a);
      trace := trace + [a];
      pollPc, published, closings := t.poll, t.published, t.closings;
    }

    method RefuseRow(row: Row, ghost rest: seq<Row>, patchOk: bool)
      requires Valid() && pollPc == Claimed(row, rest) && !Supported(row.cmd)
      modifies this
      ensures Valid() && old(trace) <= trace && pollPc == Looking(rest) && published == old(published)
      ensures row.id in done && KnownIds() == old(KnownIds()) + {row.id}
      ensures ByPollOnly(closings)
        == ByPollOnly(old(closings)) + if patchOk then [Closing(row.id, false, false)] else []
    {
      hide Play, AllFixedVerbs;
      OneMoreClosing(closings, Closing(row.id, false, false));
      PollStep(Refuse(patchOk));
      StateThreadRuns();
      TraceGrows(View(), MarkRefused);
      done := done + {row.id};
      trace, pollPc := trace + [MarkRefused], Looking(rest);
    }

    method SendRow(row: Row, ghost rest: seq<Row>)
      requires Valid() && pollPc == Claimed(row, rest) && Supported(row.cmd)
      modifies this
      ensures Valid() && old(trace) <= trace && pollPc == Looking(rest) && published == old(published) + [row.id]
      ensures row.id in pending && pending[row.id] == row.robot && KnownIds() == old(KnownIds()) + {row.id}
      ensures ByPollOnly(closings) == ByPollOnly(old(closings))
    {
      hide Play, AllFixedVerbs;
      PollStep(Publish);
      StateThreadRuns();
      TraceGrows(View(), MarkPending);
      pending := pending[row.id := row.robot];
      trace, pollPc := trace + [MarkPending], Looking(rest);
    }

    /** A row nobody has dealt with yet: refused, left for the next poll, or published. */
    method HandleClaimed(row: Row, ghost rest: seq<Row>, routed: bool, patchOk: bool) returns (sent: bool)
      requires Valid() && pollPc == Claimed(row, rest)
      modifies this
      ensures Valid() && old(trace) <= trace && pollPc == Looking(rest)
      ensures published == old(published) + if sent then [row.id] else []
      ensures sent <==> routed && row.cmd in {"pause", "resume", "charge", "estop"}
      ensures sent ==> row.id in pending && pending[row.id] == row.robot
      ensures
        var refused := row.cmd !in {"pause", "resume", "charge", "estop"};
        && (refused ==> row.id in done)
        && KnownIds() == old(KnownIds()) + (if sent || refused then {row.id} else {})
        && ByPollOnly(closings) == ByPollOnly(old(closings))
                                   + if refused && patchOk then [Closing(row.id, false, false)] else []
    {
      hide Play, AllFixedVerbs, ByPollOnly;
      StateThreadRuns();
      if !Supported(row.cmd) {
        RefuseRow(row, rest, patchOk);
        return false;
      }
      if !routed {
        PollStep(GiveUp);
        return false;
      }
      SendRow(row, rest);
      return true;
    }

    /**
      One fetched row, with the state thread running wherever the lock is free. `routed` says whether the robot's
      manufacturer is known and the message goes out, `patchOk` whether the refusal of an unsupported verb is
      recorded in the table.
     */
    method PollRow(row: Row, ghost rest: seq<Row>, routed: bool, patchOk: bool) returns (sent: bool)
      requires Valid() && pollPc == Looking([row] + rest)
      modifies this
      ensures Valid() && old(trace) <= trace && pollPc == Looking(rest)
      ensures published == old(published) + if sent then [row.id] else []
      ensures sent <==> row.id != "" && row.id !in old(KnownIds()) && routed
                        && row.cmd in {"pause", "resume", "charge", "estop"}
      ensures sent ==> row.id in pending && pending[row.id] == row.robot
      ensures
        var refused :=
          row.id != "" && row.id !in old(KnownIds()) && row.cmd !in {"pause", "resume", "charge", "estop"};
        && (refused ==> row.id in done)
        && KnownIds() == old(KnownIds()) + (if sent || refused then {row.id} else {})
        && ByPollOnly(closings) == ByPollOnly(old(closings))
                                   + if refused && patchOk then [Closing(row.id, false, false)] else []
    {
      hide Play, AllFixedVerbs;
      StateThreadRuns();
      assert ([row] + rest)[0] == row && ([row] + rest)[1..] == rest;
      if row.id == "" || row.id in pending || row.id in done {
        PollStep(Skip);
        return false;
      }
      PollStep(Claim);
      sent := HandleClaimed(row, rest, routed, patchOk);
    }

    /** The fetched rows of this site one by one. */
    method PollRows(mine: seq<Row>, routed: Row -> bool) returns (sent: nat)
      requires Valid() && pollPc == Looking(mine)
      modifies this
      ensures Valid() && old(trace) <= trace && pollPc == Looking([])
      ensures |published| == |old(published)| + sent
      ensures forall row | row in mine ::
        row.id == "" || row.id in KnownIds() || (Supported(row.cmd) && !routed(row))
    {
      hide Play, AllFixedVerbs, Do, Enabled;
      sent := 0;
      for n := 0 to |mine|
        invariant Valid() && old(trace) <= trace && pollPc == Looking(mine[n..])
        invariant |published| == |old(published)| + sent
        invariant forall i | 0 <= i < n ::
          mine[i].id == "" || mine[i].id in KnownIds() || (Supported(mine[i].cmd) && !routed(mine[i]))
      {
        var patchOk: bool := *;
        assert mine[n..] == [mine[n]] + mine[n + 1..];
        var out := PollRow(mine[n], mine[n + 1..], routed(mine[n]), patchOk);
        if out { sent := sent + 1; }
      }
    }

    /** One poll: every row of this site is published, known already, refused, or left for the next poll. */
    method Poll(rows: seq<Row>, routed: Row -> bool) returns (sent: nat)
      requires Valid() && pollPc == Resting && FixedVerbs(cmdOf, rows)
      modifies this
      ensures Valid() && old(trace) <= trace && pollPc == Resting
      ensures |published| == |old(published)| + sent
      ensures forall i | 0 <= i < |rows| && rows[i].siteOk ::
        rows[i].id == "" || rows[i].id in KnownIds()
        || (rows[i].cmd in {"pause", "resume", "charge", "estop"} && !routed(rows[i]))
    {
      ghost var at := SiteRowsExactly(rows);
      PollStep(Fetch(rows));
      sent := PollRows(SiteRows(rows), routed);
      PollStep(Rest);
      forall i | 0 <= i < |rows| && rows[i].siteOk
        ensures rows[i].id == "" || rows[i].id in KnownIds() || (Supported(rows[i].cmd) && !routed(rows[i]))
      {
        var j :| 0 <= j < |at| && at[j] == i;
        assert SiteRows(rows)[j] in SiteRows(rows);
      }
    }
  }
}
