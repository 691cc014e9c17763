/** The detector and its table: over any run and any crash they agree, up to the first colliding incident id. */
module IncidentTable {
  import opened Collections
  import opened Options
  import opened IncidentEngine
  import opened IncidentSlots

  type Table = map<string, TableRow>

  /** An upsert or a partial update, both keyed by id; a patch of a missing row changes nothing. */
  function ApplyAction(t: Table, a: Action): Table {
    match a
    case Open(id, row) => t[id := row]
    case Patch(id, state, dur) =>
      if id !in t then t
      else t[id := t[id].(dur := dur, open := if state.Some? then state.value else t[id].open)]
  }

  function ApplyActions(t: Table, acts: seq<Action>): Table {
    if acts == [] then t else ApplyAction(ApplyActions(t, acts[..|acts| - 1]), acts[|acts| - 1])
  }

  lemma {:induction false} ApplyConcat(t: Table, a: seq<Action>, b: seq<Action>)
    ensures ApplyActions(t, a + b) == ApplyActions(ApplyActions(t, a), b)
    decreases |b|
  {
    if b == [] {
      assert a + b == a;
    } else {
      assert (a + b)[..|a + b| - 1] == a + b[..|b| - 1];
      ApplyConcat(t, a, b[..|b| - 1]);
    }
  }

  // ---- agreement -----------------------------------------------------------

  /** The open incident is an open row of the table, with the same opening time and duration. */
  predicate Backed(t: Table, rid: string, inc: Incident) {
    && inc.robot == rid && rid != "" && inc.resolvedAt.None?
    && inc.id in t && t[inc.id] == TableRow(rid, t[inc.id].sev, true, inc.openedAt, inc.lastDur)
  }

  predicate Closed(t: Table, rid: string, inc: Incident) {
    && inc.robot == rid && rid != "" && inc.resolvedAt.Some?
    && inc.id in t && t[inc.id].src == rid && !t[inc.id].open && t[inc.id].createdAt == inc.openedAt
  }

  /** Every open row is the open incident of the robot it names. */
  ghost predicate OpenRowsHeld(e: Engine, t: Table) {
    forall id | id in t && t[id].open :: t[id].src in e.open && e.open[t[id].src].id == id
  }

  ghost predicate Agrees(e: Engine, t: Table) {
    && (forall rid | rid in e.open :: Backed(t, rid, e.open[rid]))
    && (forall rid | rid in e.recent && rid !in e.open :: Closed(t, rid, e.recent[rid]))
    && OpenRowsHeld(e, t)
  }

  /** At most one open row per robot, and each names its robot: what a restart needs. */
  ghost predicate Restartable(t: Table) {
    && (forall id | id in t && t[id].open :: t[id].src != "")
    && (forall id, id' | id in t && id' in t && t[id].open && t[id'].open && t[id].src == t[id'].src :: id == id')
  }

  /** The incident a robot's next actions go to: the open one, else the one last resolved. */
  function HeldBy(s: Slot): Option<Incident> { if s.open.Some? then s.open else s.recent }

  predicate RestsOn(e: Engine, rid: string, id: string) {
    var inc := HeldBy(SlotOf(e, rid));
    inc.Some? && inc.value.id == id
  }

  /** No two robots' incidents share an id. */
  ghost predicate Apart(e: Engine) {
    forall r, r', id | RestsOn(e, r, id) && RestsOn(e, r', id) :: r == r'
  }

  lemma AgreementIsApart(e: Engine, t: Table)
    requires Agrees(e, t)
    ensures Apart(e)
  {
    forall r, r', id | RestsOn(e, r, id) && RestsOn(e, r', id) ensures r == r' {
      assert t[id].src == r && t[id].src == r';
    }
  }

  lemma ApplyOne(t: Table, a: Action)
    ensures ApplyActions(t, [a]) == ApplyAction(t, a)
  {
    assert [a][..0] == [];
  }

  // ---- the moves of one robot --------------------------------------------------

  /** What handling one robot comes to: nothing, or one action on its own incident. */
  datatype Move =
    | Quiet
    | Refreshed(dur: int)
    | Reopened(c: Condition, dur: int)
    | Opened(inc: Incident)
    | Resolved(dur: int)

  ghost predicate Moved(hash: IdHash, e: Engine, out: (Engine, seq<Action>), rid: string, now: int, mv: Move) {
    var (k, acts) := out;
    match mv
    case Quiet => acts == [] && k.open == e.open && k.recent == e.recent
    case Refreshed(d) =>
      && rid in e.open && acts == [Patch(e.open[rid].id, None, d)] && k.recent == e.recent
      && k.open == e.open[rid := e.open[rid].(lastDur := d)]
    case Reopened(c, d) =>
      && rid !in e.open && rid in e.recent && acts == [Patch(e.recent[rid].id, Some(true), d)]
      && k.open == e.open[rid := e.recent[rid].(resolvedAt := None, condition := c, flaps := e.recent[rid].flaps + 1,
                                                lastDur := d)]
      && k.recent == e.recent - {rid}
    case Opened(inc) =>
      && rid !in e.open && inc == Incident(hash(rid, inc.condition, now), rid, inc.condition, now, None, 0, 0)
      && acts == [Open(inc.id, TableRow(rid, inc.condition, true, now, 0))]
      && k.open == e.open[rid := inc] && k.recent == e.recent
    case Resolved(d) =>
      && rid in e.open && acts == [Patch(e.open[rid].id, Some(false), d)] && k.open == e.open - {rid}
      && k.recent == e.recent[rid := e.open[rid].(resolvedAt := Some(now), lastDur := d)]
  }

  /** The whole minutes from one time to another, none if the clock ran backwards. */
  predicate WholeMinutes(start: int, now: int, d: int) {
    d >= 0 && d * 60_000_000 <= (if now < start then 0 else now - start) < (d + 1) * 60_000_000
  }

  /** Durations that are written are whole minutes since the opening, and a refresh is written only for a new one. */
  ghost predicate Timely(e: Engine, rid: string, now: int, mv: Move) {
    match mv
    case Quiet => true
    case Opened(_) => true
    case Refreshed(d) => rid in e.open && d != e.open[rid].lastDur && WholeMinutes(e.open[rid].openedAt, now, d)
    case Reopened(_, d) => rid in e.recent && WholeMinutes(e.recent[rid].openedAt, now, d)
    case Resolved(d) => rid in e.open && WholeMinutes(e.open[rid].openedAt, now, d)
  }

  lemma MinutesAreWhole(start: int, now: int)
    ensures WholeMinutes(start, now, Minutes(start, now))
  {
  }

  lemma RowMoves(cfg: Config, hash: IdHash, e: Engine, row: Row, now: int) returns (mv: Move)
    requires row.id != ""
    ensures Moved(hash, e, OnRow(cfg, hash, e, row, now), row.id, now, mv)
    ensures mv.Opened? ==> row.bad == Some(mv.inc.condition)
    ensures mv.Reopened? ==> row.bad == Some(mv.c)
    ensures mv.Resolved? ==> row.bad.None?
    ensures Timely(e, row.id, now, mv)
  {
    forall start: int ensures WholeMinutes(start, now, Minutes(start, now)) { MinutesAreWhole(start, now); }
    hide Minutes, WholeMinutes;
    var rid, out := row.id, OnRow(cfg, hash, e, row, now);
    if out.1 == [] {
      mv := Quiet;
    } else if row.bad.None? {
      mv := Resolved(Minutes(e.open[rid].openedAt, now));
    } else if rid in e.open {
      mv := Refreshed(Minutes(e.open[rid].openedAt, now));
    } else if out.1[0].Patch? {
      mv := Reopened(row.bad.value, Minutes(e.recent[rid].openedAt, now));
    } else {
      mv := Opened(Incident(hash(rid, row.bad.value, now), rid, row.bad.value, now, None, 0, 0));
    }
  }

  lemma AbsentMoves(cfg: Config, hash: IdHash, e: Engine, rid: string, now: int) returns (mv: Move)
    ensures Moved(hash, e, OnAbsent(cfg, e, rid, now), rid, now, mv)
    ensures mv.Quiet? || mv.Resolved?
    ensures Timely(e, rid, now, mv)
  {
    forall start: int ensures WholeMinutes(start, now, Minutes(start, now)) { MinutesAreWhole(start, now); }
    hide Minutes, WholeMinutes;
    mv := if OnAbsent(cfg, e, rid, now).1 == [] then Quiet else Resolved(Minutes(e.open[rid].openedAt, now));
  }

  // ---- what every move keeps, collisions or not ---------------------------------

  /** The robot has not been handled since the engine was `start`. */
  ghost predicate Untouched(start: Engine, e: Engine, rid: string) {
    Lookup(e.open, rid) == Lookup(start.open, rid) && Lookup(e.recent, rid) == Lookup(start.recent, rid)
  }

  /** The row of an incident still to be re-opened is the robot's own, or was taken over by one opened since. */
  ghost predicate OwnOrTaken(start: Engine, e: Engine, t: Table, rid: string, id: string) {
    id in t && (t[id].src == rid || (t[id].src in e.open && e.open[t[id].src].id == id && t[id].src !in start.open))
  }

  ghost predicate Sane(start: Engine, e: Engine, t: Table) {
    && "" !in e.open && OpenRowsHeld(e, t)
    && (forall rid | rid in start.recent && rid !in start.open && Untouched(start, e, rid) ::
          OwnOrTaken(start, e, t, rid, start.recent[rid].id))
  }

  lemma SaneAtStart(e: Engine, t: Table)
    requires Agrees(e, t)
    ensures Sane(e, e, t)
  {
  }

  lemma SaneIsRestartable(start: Engine, e: Engine, t: Table)
    requires Sane(start, e, t)
    ensures Restartable(t)
  {
  }

  lemma OthersUntouched(hash: IdHash, e: Engine, out: (Engine, seq<Action>), rid: string, now: int,
                        mv: Move, other: string)
    requires Moved(hash, e, out, rid, now, mv) && other != rid
    ensures Lookup(out.0.open, other) == Lookup(e.open, other) && Lookup(out.0.recent, other) == Lookup(e.recent, other)
  {
  }

  lemma MoveKeepsRowsHeld(hash: IdHash, start: Engine, e: Engine, t: Table, out: (Engine, seq<Action>), rid: string,
                          now: int, mv: Move)
    requires Sane(start, e, t) && Untouched(start, e, rid) && rid != "" && Moved(hash, e, out, rid, now, mv)
    ensures "" !in out.0.open && OpenRowsHeld(out.0, ApplyActions(t, out.1))
  {
    if out.1 == [] { assert ApplyActions(t, []) == t; } else { ApplyOne(t, out.1[0]); }
    if mv.Reopened? { assert OwnOrTaken(start, e, t, rid, start.recent[rid].id); }
  }

  lemma MoveKeepsOwnOrTaken(hash: IdHash, start: Engine, e: Engine, t: Table, out: (Engine, seq<Action>), rid: string,
                            now: int, mv: Move, other: string)
    requires Sane(start, e, t) && Untouched(start, e, rid) && Moved(hash, e, out, rid, now, mv)
    requires other in start.recent && other !in start.open && Untouched(start, out.0, other)
    ensures OwnOrTaken(start, out.0, ApplyActions(t, out.1), other, start.recent[other].id)
  {
    if out.1 == [] { assert ApplyActions(t, []) == t; } else { ApplyOne(t, out.1[0]); }
    if other != rid { OthersUntouched(hash, e, out, rid, now, mv, other); }
    assert OwnOrTaken(start, e, t, other, start.recent[other].id);
  }

  lemma MoveKeepsSane(hash: IdHash, start: Engine, e: Engine, t: Table, out: (Engine, seq<Action>), rid: string,
                      now: int, mv: Move)
    requires Sane(start, e, t) && Untouched(start, e, rid) && rid != "" && Moved(hash, e, out, rid, now, mv)
    ensures Sane(start, out.0, ApplyActions(t, out.1))
  {
    MoveKeepsRowsHeld(hash, start, e, t, out, rid, now, mv);
    forall other | other in start.recent && other !in start.open && Untouched(start, out.0, other)
      ensures OwnOrTaken(start, out.0, ApplyActions(t, out.1), other, start.recent[other].id)
    {
      MoveKeepsOwnOrTaken(hash, start, e, t, out, rid, now, mv, other);
    }
  }

  // ---- what every move keeps if the ids stay apart ---------------------------------

  /** Agreement for the incidents that are still held at the end of the poll. */
  ghost predicate AgreesOnKept(end: Engine, e: Engine, t: Table) {
    && (forall rid | rid in e.open && RestsOn(end, rid, e.open[rid].id) :: Backed(t, rid, e.open[rid]))
    && (forall rid | rid in e.recent && rid !in e.open && RestsOn(end, rid, e.recent[rid].id) ::
          Closed(t, rid, e.recent[rid]))
  }

  /** The robot's incident after an action of its own is the one it holds when the poll is over. */
  ghost predicate Lasts(end: Engine, out: (Engine, seq<Action>), rid: string) {
    out.1 != [] ==> var inc := HeldBy(SlotOf(out.0, rid)); inc.Some? && RestsOn(end, rid, inc.value.id)
  }

  /** The row of another robot's incident that is still held is not the one written. */
  lemma MoveSparesRow(hash: IdHash, end: Engine, e: Engine, t: Table, out: (Engine, seq<Action>), rid: string,
                      now: int, mv: Move, other: string, id: string)
    requires Apart(end) && Moved(hash, e, out, rid, now, mv) && Lasts(end, out, rid)
    requires other != rid && RestsOn(end, other, id) && id in t
    ensures var u := ApplyActions(t, out.1); id in u && u[id] == t[id]
  {
    if out.1 == [] {
      assert ApplyActions(t, []) == t;
    } else {
      ApplyOne(t, out.1[0]);
      assert out.1[0].id == HeldBy(SlotOf(out.0, rid)).value.id;
      hide RestsOn, SlotOf;
    }
  }

  lemma MoveKeepsBacked(hash: IdHash, end: Engine, e: Engine, t: Table, out: (Engine, seq<Action>), rid: string,
                        now: int, mv: Move, other: string)
    requires Apart(end) && AgreesOnKept(end, e, t) && rid != "" && Moved(hash, e, out, rid, now, mv)
    requires Lasts(end, out, rid) && other in out.0.open && RestsOn(end, other, out.0.open[other].id)
    ensures Backed(ApplyActions(t, out.1), other, out.0.open[other])
  {
    if other != rid {
      OthersUntouched(hash, e, out, rid, now, mv, other);
      assert Backed(t, other, e.open[other]);
      MoveSparesRow(hash, end, e, t, out, rid, now, mv, other, e.open[other].id);
    } else if out.1 == [] {
      assert ApplyActions(t, []) == t;
    } else {
      ApplyOne(t, out.1[0]);
    }
  }

  lemma MoveKeepsClosed(hash: IdHash, end: Engine, e: Engine, t: Table, out: (Engine, seq<Action>), rid: string,
                        now: int, mv: Move, other: string)
    requires Apart(end) && AgreesOnKept(end, e, t) && rid != "" && Moved(hash, e, out, rid, now, mv)
    requires Lasts(end, out, rid)
    requires other in out.0.recent && other !in out.0.open && RestsOn(end, other, out.0.recent[other].id)
    ensures Closed(ApplyActions(t, out.1), other, out.0.recent[other])
  {
    if other != rid {
      OthersUntouched(hash, e, out, rid, now, mv, other);
      assert Closed(t, other, e.recent[other]);
      MoveSparesRow(hash, end, e, t, out, rid, now, mv, other, e.recent[other].id);
    } else if out.1 == [] {
      assert ApplyActions(t, []) == t;
    } else {
      ApplyOne(t, out.1[0]);
    }
  }

  lemma MoveKeepsAgreement(hash: IdHash, end: Engine, e: Engine, t: Table, out: (Engine, seq<Action>), rid: string,
                           now: int, mv: Move)
    requires Apart(end) && AgreesOnKept(end, e, t) && rid != "" && Moved(hash, e, out, rid, now, mv)
    requires Lasts(end, out, rid)
    ensures AgreesOnKept(end, out.0, ApplyActions(t, out.1))
  {
    hide Moved, Backed, Closed, ApplyActions, RestsOn, Lasts;
    forall other | other in out.0.open && RestsOn(end, other, out.0.open[other].id)
      ensures Backed(ApplyActions(t, out.1), other, out.0.open[other])
    {
      MoveKeepsBacked(hash, end, e, t, out, rid, now, mv, other);
    }
    forall other | other in out.0.recent && other !in out.0.open && RestsOn(end, other, out.0.recent[other].id)
      ensures Closed(ApplyActions(t, out.1), other, out.0.recent[other])
    {
      MoveKeepsClosed(hash, end, e, t, out, rid, now, mv, other);
    }
  }


  // ---- a poll, robot by robot -----------------------------------------------------

  ghost predicate OpenedFor(acts: seq<Action>, rid: string, id: string) {
    exists a :: a in acts && a.Open? && a.id == id && a.row.src == rid
  }

  /** Every incident opened on the way is named by its robot's hash and still held at the end of the poll. */
  ghost predicate OpensLast(hash: IdHash, end: Engine, acts: seq<Action>) {
    forall a | a in acts && a.Open? ::
      a.id == hash(a.row.src, a.row.sev, a.row.createdAt) && a.row.src != "" && RestsOn(end, a.row.src, a.id)
  }

  /** Whatever a robot holds it held at the start, or it was opened on the way. */
  ghost predicate HeldOrOpened(start: Engine, e: Engine, acts: seq<Action>) {
    forall rid, id | RestsOn(e, rid, id) :: RestsOn(start, rid, id) || OpenedFor(acts, rid, id)
  }

  ghost predicate AllRestartable(t: Table, acts: seq<Action>) {
    forall n | 0 <= n <= |acts| :: Restartable(ApplyActions(t, acts[..n]))
  }

  /** How far a poll from `start` to `end` over the table `t` has come. */
  ghost predicate Progress(hash: IdHash, start: Engine, end: Engine, t: Table, e: Engine, acts: seq<Action>) {
    && Sane(start, e, ApplyActions(t, acts)) && AllRestartable(t, acts)
    && (Apart(end) ==> AgreesOnKept(end, e, ApplyActions(t, acts)))
    && OpensLast(hash, end, acts) && HeldOrOpened(start, e, acts)
  }

  lemma PrefixesGrow(t: Table, acts: seq<Action>, more: seq<Action>)
    requires AllRestartable(t, acts) && |more| <= 1 && Restartable(ApplyActions(t, acts + more))
    ensures AllRestartable(t, acts + more)
  {
    var all := acts + more;
    hide Restartable, ApplyActions;
    forall n | 0 <= n <= |all| ensures Restartable(ApplyActions(t, all[..n])) {
      assert all[..n] == if n <= |acts| then acts[..n] else all;
    }
  }

  lemma MoveHolds(hash: IdHash, e: Engine, out: (Engine, seq<Action>), rid: string, now: int, mv: Move,
                  other: string, id: string)
    requires Moved(hash, e, out, rid, now, mv) && RestsOn(out.0, other, id)
    ensures RestsOn(e, other, id) || OpenedFor(out.1, other, id)
  {
    if mv.Opened? && other == rid { assert out.1[0] in out.1; }
  }

  lemma MoveAccounts(hash: IdHash, start: Engine, end: Engine, e: Engine, acts: seq<Action>,
                     out: (Engine, seq<Action>), rid: string, now: int, mv: Move)
    requires OpensLast(hash, end, acts) && HeldOrOpened(start, e, acts)
    requires rid != "" && Moved(hash, e, out, rid, now, mv) && Lasts(end, out, rid)
    ensures OpensLast(hash, end, acts + out.1) && HeldOrOpened(start, out.0, acts + out.1)
  {
    forall other, id | RestsOn(out.0, other, id)
      ensures RestsOn(start, other, id) || OpenedFor(acts + out.1, other, id)
    {
      MoveHolds(hash, e, out, rid, now, mv, other, id);
      if OpenedFor(out.1, other, id) {
        var a :| a in out.1 && a.Open? && a.id == id && a.row.src == other;
        assert a in acts + out.1;
      } else if !RestsOn(start, other, id) {
        var a :| a in acts && a.Open? && a.id == id && a.row.src == other;
        assert a in acts + out.1;
      }
    }
  }

  lemma MoveProgresses(hash: IdHash, start: Engine, end: Engine, t: Table, e: Engine, acts: seq<Action>,
                       out: (Engine, seq<Action>), rid: string, now: int, mv: Move)
    requires Progress(hash, start, end, t, e, acts) && Untouched(start, e, rid) && rid != ""
    requires Moved(hash, e, out, rid, now, mv) && Lasts(end, out, rid)
    ensures Progress(hash, start, end, t, out.0, acts + out.1)
  {
    ApplyConcat(t, acts, out.1);
    var u := ApplyActions(t, acts);
    MoveKeepsSane(hash, start, e, u, out, rid, now, mv);
    SaneIsRestartable(start, out.0, ApplyActions(u, out.1));
    assert |out.1| <= 1;
    PrefixesGrow(t, acts, out.1);
    if Apart(end) { MoveKeepsAgreement(hash, end, e, u, out, rid, now, mv); }
    MoveAccounts(hash, start, end, e, acts, out, rid, now, mv);
  }

  /** What an action leaves behind is not expired in the same poll. */
  lemma ActedOnLasts(cfg: Config, hash: IdHash, end: Engine, e: Engine, out: (Engine, seq<Action>), rid: string,
                     now: int, mv: Move)
    requires cfg.reopenWindow >= 0 && Moved(hash, e, out, rid, now, mv)
    requires SlotOf(end, rid) == SlotExpire(cfg, SlotOf(out.0, rid), now)
    ensures Lasts(end, out, rid)
  {
  }

  lemma {:induction false} ObsOfRow(rows: seq<Row>, n: nat)
    requires OneRowEach(rows) && n < |rows|
    ensures ObsOf(rows, rows[n].id) == RowObs(rows[n])
    ensures !Seen(rows[..n], rows[n].id)
  {
    if n < |rows| - 1 {
      ObsOfRow(rows[..|rows| - 1], n);
      assert rows[..|rows| - 1][..n] == rows[..n];
    }
  }

  lemma RowInPoll(cfg: Config, hash: IdHash, start: Engine, rows: seq<Row>, now: int, order: seq<string>, n: nat)
    returns (mv: Move)
    requires ValidPoll(cfg, hash, start, rows, now, order) && cfg.reopenWindow >= 0 && n < |rows| && rows[n].id != ""
    ensures var e := OnRows(cfg, hash, start, rows[..n], now).0; var out := OnRow(cfg, hash, e, rows[n], now);
      && Untouched(start, e, rows[n].id) && Moved(hash, e, out, rows[n].id, now, mv)
      && Lasts(Observe(cfg, hash, start, rows, now, order).0, out, rows[n].id)
  {
    var e, rid := OnRows(cfg, hash, start, rows[..n], now).0, rows[n].id;
    RowsTouchSlots(cfg, hash, start, rows[..n], now, rid);
    ObsOfRow(rows, n);
    ObsIsRow(rows[..n], rid);
    RowTouchesItsSlot(cfg, hash, e, rows[n], now, rid);
    ObserveTouchesSlots(cfg, hash, start, rows, now, order, rid);
    mv := RowMoves(cfg, hash, e, rows[n], now);
    hide Moved, OnRow, OnRows, Observe;
    var end := Observe(cfg, hash, start, rows, now, order).0;
    ActedOnLasts(cfg, hash, end, e, OnRow(cfg, hash, e, rows[n], now), rid, now, mv);
  }

  lemma AbsentInPoll(cfg: Config, hash: IdHash, start: Engine, rows: seq<Row>, now: int, order: seq<string>, n: nat)
    returns (mv: Move)
    requires ValidPoll(cfg, hash, start, rows, now, order) && cfg.reopenWindow >= 0
    requires n < |order| && order[n] != "" && !Seen(rows, order[n])
    ensures var e := Sweep(cfg, OnRows(cfg, hash, start, rows, now).0, rows, order[..n], now).0;
      var out := OnAbsent(cfg, e, order[n], now);
      && Untouched(start, e, order[n]) && Moved(hash, e, out, order[n], now, mv)
      && Lasts(Observe(cfg, hash, start, rows, now, order).0, out, order[n])
  {
    var k, rid := OnRows(cfg, hash, start, rows, now).0, order[n];
    var e := Sweep(cfg, k, rows, order[..n], now).0;
    RowsTouchSlots(cfg, hash, start, rows, now, rid);
    ObsIsRow(rows, rid);
    SweepTouchesSlots(cfg, k, rows, order[..n], now, rid);
    AbsentTouchesItsSlot(cfg, e, rid, now, rid);
    ObserveTouchesSlots(cfg, hash, start, rows, now, order, rid);
    mv := AbsentMoves(cfg, hash, e, rid, now);
    hide Moved, OnAbsent, OnRows, Observe, Sweep;
    var end := Observe(cfg, hash, start, rows, now, order).0;
    ActedOnLasts(cfg, hash, end, e, OnAbsent(cfg, e, rid, now), rid, now, mv);
  }

  lemma ProgressStarts(hash: IdHash, start: Engine, end: Engine, t: Table)
    requires Agrees(start, t)
    ensures Progress(hash, start, end, t, start, [])
  {
    SaneAtStart(start, t);
    SaneIsRestartable(start, start, t);
  }

  lemma {:induction false} RowsProgress(cfg: Config, hash: IdHash, start: Engine, t: Table, rows: seq<Row>, now: int,
                                        order: seq<string>, n: nat)
    requires Agrees(start, t) && ValidPoll(cfg, hash, start, rows, now, order) && cfg.reopenWindow >= 0 && n <= |rows|
    ensures var (e, acts) := OnRows(cfg, hash, start, rows[..n], now);
      Progress(hash, start, Observe(cfg, hash, start, rows, now, order).0, t, e, acts)
  {
    var end := Observe(cfg, hash, start, rows, now, order).0;
    if n == 0 {
      ProgressStarts(hash, start, end, t);
    } else {
      RowsProgress(cfg, hash, start, t, rows, now, order, n - 1);
      var (e, acts) := OnRows(cfg, hash, start, rows[..n - 1], now);
      var row := rows[n - 1];
      assert rows[..n][..n - 1] == rows[..n - 1];
      var out := OnRow(cfg, hash, e, row, now);
      assert OnRows(cfg, hash, start, rows[..n], now) == (out.0, acts + out.1);
      if row.id == "" {
        assert out == (e, []) && acts + [] == acts;
      } else {
        var mv := RowInPoll(cfg, hash, start, rows, now, order, n - 1);
        hide Progress, Untouched, Moved, Lasts, OnRow, OnRows, Observe;
        MoveProgresses(hash, start, end, t, e, acts, out, row.id, now, mv);
      }
    }
  }

  lemma SweepStep(cfg: Config, hash: IdHash, start: Engine, t: Table, rows: seq<Row>, now: int, order: seq<string>,
                  n: nat)
    requires ValidPoll(cfg, hash, start, rows, now, order) && cfg.reopenWindow >= 0
    requires n < |order| && order[n] != "" && !Seen(rows, order[n])
    requires var (k, first) := OnRows(cfg, hash, start, rows, now);
      var (e, acts) := Sweep(cfg, k, rows, order[..n], now);
      Progress(hash, start, Observe(cfg, hash, start, rows, now, order).0, t, e, first + acts)
    ensures var (k, first) := OnRows(cfg, hash, start, rows, now);
      var (e, acts) := Sweep(cfg, k, rows, order[..n + 1], now);
      Progress(hash, start, Observe(cfg, hash, start, rows, now, order).0, t, e, first + acts)
  {
    hide Progress, Untouched, Moved, Lasts, OnAbsent, OnRows, Observe, ValidPoll;
    var end := Observe(cfg, hash, start, rows, now, order).0;
    var (k, first) := OnRows(cfg, hash, start, rows, now);
    var (e, acts) := Sweep(cfg, k, rows, order[..n], now);
    var mv := AbsentInPoll(cfg, hash, start, rows, now, order, n);
    var out := OnAbsent(cfg, e, order[n], now);
    assert order[..n + 1][..n] == order[..n];
    assert Sweep(cfg, k, rows, order[..n + 1], now) == (out.0, acts + out.1);
    assert (first + acts) + out.1 == first + (acts + out.1);
    MoveProgresses(hash, start, end, t, e, first + acts, out, order[n], now, mv);
  }

  lemma {:induction false} SweepProgress(cfg: Config, hash: IdHash, start: Engine, t: Table, rows: seq<Row>, now: int,
                                         order: seq<string>, n: nat)
    requires Agrees(start, t) && ValidPoll(cfg, hash, start, rows, now, order) && cfg.reopenWindow >= 0 && n <= |order|
    ensures var (k, first) := OnRows(cfg, hash, start, rows, now);
      var (e, acts) := Sweep(cfg, k, rows, order[..n], now);
      Progress(hash, start, Observe(cfg, hash, start, rows, now, order).0, t, e, first + acts)
  {
    hide OnRows, Observe, OnAbsent;
    var end := Observe(cfg, hash, start, rows, now, order).0;
    var (k, first) := OnRows(cfg, hash, start, rows, now);
    RowsProgress(cfg, hash, start, t, rows, now, order, |rows|);
    assert rows[..|rows|] == rows && first + [] == first;
    if n > 0 {
      SweepProgress(cfg, hash, start, t, rows, now, order, n - 1);
      var rid := order[n - 1];
      var (e, acts) := Sweep(cfg, k, rows, order[..n - 1], now);
      assert order[..n][..n - 1] == order[..n - 1];
      if !Seen(rows, rid) {
        assert rid in order && rid in k.open;
        SweepStep(cfg, hash, start, t, rows, now, order, n - 1);
      }
    }
  }

  /** A whole poll, up to the expiry of what was resolved long ago. */
  lemma PollProgress(cfg: Config, hash: IdHash, start: Engine, t: Table, rows: seq<Row>, now: int, order: seq<string>)
    returns (l: Engine)
    requires Agrees(start, t) && ValidPoll(cfg, hash, start, rows, now, order) && cfg.reopenWindow >= 0
    ensures var (end, acts) := Observe(cfg, hash, start, rows, now, order);
      end == ExpireRecent(cfg, l, now) && Progress(hash, start, end, t, l, acts)
  {
    var (k, first) := OnRows(cfg, hash, start, rows, now);
    SweepProgress(cfg, hash, start, t, rows, now, order, |order|);
    assert order[..|order|] == order;
    l := Sweep(cfg, k, rows, order, now).0;
  }

  // ---- exactly when a poll leaves them in agreement -----------------------------------

  /**
    The poll opens an incident under the id of one that another robot holds when the poll is over. It shows in the
    engine and its actions before any of them is written.
   */
  ghost predicate Takes(end: Engine, acts: seq<Action>) {
    exists a, other :: a in acts && a.Open? && other != a.row.src && RestsOn(end, other, a.id)
  }

  lemma ExpiryHolds(cfg: Config, l: Engine, now: int, rid: string, id: string)
    requires RestsOn(ExpireRecent(cfg, l, now), rid, id)
    ensures RestsOn(l, rid, id)
  {
  }

  lemma ApartIfNothingTaken(hash: IdHash, start: Engine, t: Table, end: Engine, acts: seq<Action>)
    requires Agrees(start, t) && OpensLast(hash, end, acts) && HeldOrOpened(start, end, acts)
    ensures Apart(end) <==> !Takes(end, acts)
  {
    AgreementIsApart(start, t);
    if Takes(end, acts) {
      var a, other :| a in acts && a.Open? && other != a.row.src && RestsOn(end, other, a.id);
      assert RestsOn(end, a.row.src, a.id);
    } else {
      forall r, r', id | RestsOn(end, r, id) && RestsOn(end, r', id) ensures r == r' {
        if OpenedFor(acts, r, id) {
          var a :| a in acts && a.Open? && a.id == id && a.row.src == r;
        } else if !OpenedFor(acts, r', id) {
          assert RestsOn(start, r, id) && RestsOn(start, r', id);
        }
      }
    }
  }

  lemma ApartAgrees(hash: IdHash, cfg: Config, start: Engine, end: Engine, t: Table, l: Engine, acts: seq<Action>,
                    now: int)
    requires end == ExpireRecent(cfg, l, now) && Progress(hash, start, end, t, l, acts) && Apart(end)
    ensures Agrees(end, ApplyActions(t, acts))
  {
    var u := ApplyActions(t, acts);
    forall rid | rid in end.open ensures Backed(u, rid, end.open[rid]) {
      assert RestsOn(end, rid, l.open[rid].id);
    }
    forall rid | rid in end.recent && rid !in end.open ensures Closed(u, rid, end.recent[rid]) {
      assert RestsOn(end, rid, l.recent[rid].id);
    }
  }

  /** A completed poll leaves engine and table in agreement exactly if it takes no other robot's id. */
  lemma PollAgreesExactly(cfg: Config, hash: IdHash, start: Engine, t: Table, rows: seq<Row>, now: int,
                          order: seq<string>)
    requires Agrees(start, t) && ValidPoll(cfg, hash, start, rows, now, order) && cfg.reopenWindow >= 0
    ensures var (end, acts) := Observe(cfg, hash, start, rows, now, order);
      && (Agrees(end, ApplyActions(t, acts)) <==> !Takes(end, acts))
      && AllRestartable(t, acts) && OpensLast(hash, end, acts) && HeldOrOpened(start, end, acts)
  {
    var (end, acts) := Observe(cfg, hash, start, rows, now, order);
    var l := PollProgress(cfg, hash, start, t, rows, now, order);
    hide Observe, ValidPoll;
    forall rid, id | RestsOn(end, rid, id) ensures RestsOn(start, rid, id) || OpenedFor(acts, rid, id) {
      ExpiryHolds(cfg, l, now, rid, id);
    }
    ApartIfNothingTaken(hash, start, t, end, acts);
    if Agrees(end, ApplyActions(t, acts)) {
      AgreementIsApart(end, ApplyActions(t, acts));
    } else if Apart(end) {
      ApartAgrees(hash, cfg, start, end, t, l, acts, now);
    }
  }

  // ---- restart -------------------------------------------------------------

  /** The rows the restart query returns: each open row of the table once, in any order. */
  ghost predicate OpenRows(t: Table, rows: seq<(string, TableRow)>) {
    && (forall i | 0 <= i < |rows| :: rows[i].0 in t && t[rows[i].0] == rows[i].1 && rows[i].1.open)
    && (forall id | id in t && t[id].open :: exists i :: 0 <= i < |rows| && rows[i].0 == id)
  }

  lemma {:induction false} SeedHolds(t: Table, rows: seq<(string, TableRow)>)
    requires Restartable(t)
    requires forall i | 0 <= i < |rows| :: rows[i].0 in t && t[rows[i].0] == rows[i].1 && rows[i].1.open
    ensures var e := Seed(EmptyEngine, rows);
      && e == EmptyEngine.(open := e.open)
      && (forall rid | rid in e.open :: Backed(t, rid, e.open[rid]))
      && (forall i | 0 <= i < |rows| :: rows[i].1.src in e.open && e.open[rows[i].1.src].id == rows[i].0)
    decreases |rows|
  {
    if rows != [] { SeedHolds(t, rows[..|rows| - 1]); }
  }

  lemma SeedAgrees(t: Table, rows: seq<(string, TableRow)>)
    requires Restartable(t) && OpenRows(t, rows)
    ensures Agrees(Seed(EmptyEngine, rows), t)
  {
    SeedHolds(t, rows);
  }

  // ---- runs ----------------------------------------------------------------

  /**
    A detector's life. `Poll` is one completed poll under whatever tuning is in force; `Crash` is a poll of
    which only the first `applied` actions reach the table before the process dies and is started again.
   */
  datatype Event =
    | Poll(cfg: Config, rows: seq<Row>, now: int, order: seq<string>)
    | Crash(cfg: Config, rows: seq<Row>, now: int, order: seq<string>, applied: nat, reread: seq<(string, TableRow)>)

  datatype Site = Site(engine: Engine, table: Table)

  function Actions(hash: IdHash, w: Site, ev: Event): seq<Action> {
    Observe(ev.cfg, hash, w.engine, ev.rows, ev.now, ev.order).1
  }

  function Applied(hash: IdHash, w: Site, ev: Event): Table
    requires ev.Crash? ==> ev.applied <= |Actions(hash, w, ev)|
  {
    var acts := Actions(hash, w, ev);
    ApplyActions(w.table, if ev.Crash? then acts[..ev.applied] else acts)
  }

  ghost predicate Possible(hash: IdHash, w: Site, ev: Event) {
    && ValidPoll(ev.cfg, hash, w.engine, ev.rows, ev.now, ev.order) && ev.cfg.reopenWindow >= 0
    && (ev.Crash? ==> ev.applied <= |Actions(hash, w, ev)| && OpenRows(Applied(hash, w, ev), ev.reread))
  }

  function Next(hash: IdHash, w: Site, ev: Event): Site
    requires ev.Crash? ==> ev.applied <= |Actions(hash, w, ev)|
  {
    Site(if ev.Crash? then Seed(EmptyEngine, ev.reread)
          else Observe(ev.cfg, hash, w.engine, ev.rows, ev.now, ev.order).0,
          Applied(hash, w, ev))
  }

  /** `ws` is a run under `evs`: it starts cold, each event leads to the next site, and the clock never runs back. */
  ghost predicate IsRun(hash: IdHash, ws: seq<Site>, evs: seq<Event>) {
    && |ws| == |evs| + 1 && ws[0] == Site(EmptyEngine, map[])
    && (forall n | 0 <= n < |evs| :: Possible(hash, ws[n], evs[n]) && ws[n + 1] == Next(hash, ws[n], evs[n]))
    && (forall n | 0 < n < |evs| :: evs[n - 1].now <= evs[n].now)
  }

  ghost predicate InAgreement(w: Site) { Agrees(w.engine, w.table) }

  /** The event is a completed poll that opens an incident under an id another robot still holds. */
  ghost predicate Collides(hash: IdHash, w: Site, ev: Event) {
    ev.Poll? && Takes(Observe(ev.cfg, hash, w.engine, ev.rows, ev.now, ev.order).0, Actions(hash, w, ev))
  }

  /**
    One event from an agreement: a completed poll keeps it exactly if it does not collide, and a crash anywhere
    among the writes always leaves a table that the restart agrees with, since at every prefix of the actions each
    robot has at most one open row.
   */
  lemma StepAgrees(hash: IdHash, w: Site, ev: Event)
    requires InAgreement(w) && Possible(hash, w, ev)
    ensures InAgreement(Next(hash, w, ev)) <==> !Collides(hash, w, ev)
    ensures AllRestartable(w.table, Actions(hash, w, ev))
  {
    PollAgreesExactly(ev.cfg, hash, w.engine, w.table, ev.rows, ev.now, ev.order);
    hide Observe, ValidPoll, Agrees, Takes;
    if ev.Crash? {
      assert Restartable(ApplyActions(w.table, Actions(hash, w, ev)[..ev.applied]));
      SeedAgrees(Applied(hash, w, ev), ev.reread);
    }
  }

  lemma RunStep(hash: IdHash, ws: seq<Site>, evs: seq<Event>, n: nat)
    requires IsRun(hash, ws, evs) && n < |evs|
    ensures |ws| == |evs| + 1 && Possible(hash, ws[n], evs[n]) && ws[n + 1] == Next(hash, ws[n], evs[n])
  {
  }

  lemma RunStart(hash: IdHash, ws: seq<Site>, evs: seq<Event>)
    requires IsRun(hash, ws, evs)
    ensures |ws| == |evs| + 1 && InAgreement(ws[0]) && Named(hash, ws[0].table)
  {
  }

  ghost predicate AgreesUpTo(ws: seq<Site>, n: nat)
    requires n < |ws|
  {
    forall k | 0 <= k <= n :: InAgreement(ws[k])
  }

  ghost predicate CollidesBefore(hash: IdHash, ws: seq<Site>, evs: seq<Event>, n: nat)
    requires n <= |ws| && n <= |evs|
  {
    exists k | 0 <= k < n :: Collides(hash, ws[k], evs[k])
  }

  /**
    Over any run, engine and table agree after every event up to some point if and only if no poll before it
    collided; so the first collision is exactly where agreement is lost.
   */
  lemma {:induction false} RunAgrees(hash: IdHash, ws: seq<Site>, evs: seq<Event>, n: nat)
    requires IsRun(hash, ws, evs) && n < |ws|
    ensures |ws| == |evs| + 1 && (AgreesUpTo(ws, n) <==> !CollidesBefore(hash, ws, evs, n))
    decreases n
  {
    hide IsRun, InAgreement, Collides, Possible, Next, Named;
    RunStart(hash, ws, evs);
    if n > 0 {
      RunAgrees(hash, ws, evs, n - 1);
      RunStep(hash, ws, evs, n - 1);
      if InAgreement(ws[n - 1]) { StepAgrees(hash, ws[n - 1], evs[n - 1]); }
      assert AgreesUpTo(ws, n) <==> AgreesUpTo(ws, n - 1) && InAgreement(ws[n]);
      assert CollidesBefore(hash, ws, evs, n) <==>
        CollidesBefore(hash, ws, evs, n - 1) || Collides(hash, ws[n - 1], evs[n - 1]);
      assert AgreesUpTo(ws, n - 1) ==> InAgreement(ws[n - 1]);
    }
  }

  // ---- id functions without collisions --------------------------------------------------

  /** Ids of different robots never collide, whatever the times. */
  ghost predicate CollisionFree(hash: IdHash) {
    forall r, c, t, r', c', t' | r != r' && r != "" && r' != "" :: hash(r, c, t) != hash(r', c', t')
  }

  /** Every row of the table belongs to the robot whose hash gave it its id. */
  ghost predicate Named(hash: IdHash, t: Table) {
    forall id | id in t :: t[id].src != "" && exists c, s :: id == hash(t[id].src, c, s)
  }

  lemma {:induction false} NamedStays(hash: IdHash, end: Engine, t: Table, acts: seq<Action>, n: nat)
    requires Named(hash, t) && OpensLast(hash, end, acts) && n <= |acts|
    ensures Named(hash, ApplyActions(t, acts[..n]))
  {
    if n > 0 {
      NamedStays(hash, end, t, acts, n - 1);
      assert acts[..n][..n - 1] == acts[..n - 1] && acts[n - 1] in acts;
    }
  }

  lemma HeldIsNamed(hash: IdHash, start: Engine, t: Table, end: Engine, acts: seq<Action>, rid: string, id: string)
    requires Named(hash, t) && Agrees(start, t) && OpensLast(hash, end, acts) && HeldOrOpened(start, end, acts)
    requires RestsOn(end, rid, id)
    ensures rid != "" && exists c, s :: id == hash(rid, c, s)
  {
    if OpenedFor(acts, rid, id) {
      var a :| a in acts && a.Open? && a.id == id && a.row.src == rid;
      assert id == hash(rid, a.row.sev, a.row.createdAt);
    } else {
      assert RestsOn(start, rid, id) && t[id].src == rid;
    }
  }

  lemma FreeNeverTakes(hash: IdHash, start: Engine, t: Table, end: Engine, acts: seq<Action>)
    requires CollisionFree(hash) && Named(hash, t) && Agrees(start, t)
    requires OpensLast(hash, end, acts) && HeldOrOpened(start, end, acts)
    ensures !Takes(end, acts)
  {
    forall a, other | a in acts && a.Open? && RestsOn(end, other, a.id) ensures other == a.row.src {
      HeldIsNamed(hash, start, t, end, acts, other, a.id);
      assert a.id == hash(a.row.src, a.row.sev, a.row.createdAt);
    }
  }

  lemma FreeStepAgrees(hash: IdHash, w: Site, ev: Event)
    requires CollisionFree(hash) && InAgreement(w) && Named(hash, w.table) && Possible(hash, w, ev)
    ensures InAgreement(Next(hash, w, ev)) && Named(hash, Next(hash, w, ev).table)
  {
    PollAgreesExactly(ev.cfg, hash, w.engine, w.table, ev.rows, ev.now, ev.order);
    var (end, acts) := Observe(ev.cfg, hash, w.engine, ev.rows, ev.now, ev.order);
    assert acts[..|acts|] == acts;
    StepAgrees(hash, w, ev);
    hide Observe, ValidPoll, CollisionFree, Takes, HeldOrOpened, Agrees, OpensLast, AllRestartable, ApplyActions;
    NamedStays(hash, end, w.table, acts, if ev.Crash? then ev.applied else |acts|);
    FreeNeverTakes(hash, w.engine, w.table, end, acts);
  }

  lemma {:induction false} FreeRunAgrees(hash: IdHash, ws: seq<Site>, evs: seq<Event>, n: nat)
    requires CollisionFree(hash) && IsRun(hash, ws, evs) && n < |ws|
    ensures InAgreement(ws[n]) && Named(hash, ws[n].table)
    decreases n
  {
    hide IsRun, Possible, InAgreement, Named, CollisionFree, Next;
    RunStart(hash, ws, evs);
    if n > 0 {
      FreeRunAgrees(hash, ws, evs, n - 1);
      RunStep(hash, ws, evs, n - 1);
      FreeStepAgrees(hash, ws[n - 1], evs[n - 1]);
    }
  }

  // ---- and a collision does happen --------------------------------------------------

  lemma TwoStepRun(hash: IdHash, w0: Site, p1: Event, w1: Site, p2: Event, w2: Site)
    requires w0 == Site(EmptyEngine, map[]) && p1.Poll? && p2.Poll? && p1.now <= p2.now
    requires Possible(hash, w0, p1) && w1 == Next(hash, w0, p1)
    requires Possible(hash, w1, p2) && w2 == Next(hash, w1, p2) && !InAgreement(w2)
    ensures exists ws, evs :: IsRun(hash, ws, evs) && !InAgreement(ws[|ws| - 1])
  {
    hide Possible, InAgreement, Next;
    var ws, evs := [w0, w1, w2], [p1, p2];
    assert IsRun(hash, ws, evs) by {
      forall n | 0 <= n < |evs| ensures Possible(hash, ws[n], evs[n]) && ws[n + 1] == Next(hash, ws[n], evs[n]) {
      }
    }
    assert !InAgreement(ws[|ws| - 1]);
  }

  lemma RowsSnoc(cfg: Config, hash: IdHash, e: Engine, rows: seq<Row>, row: Row, now: int)
    ensures var (k, acts) := OnRows(cfg, hash, e, rows, now);
      var (l, more) := OnRow(cfg, hash, k, row, now);
      OnRows(cfg, hash, e, rows + [row], now) == (l, acts + more)
  {
    assert (rows + [row])[..|rows|] == rows;
  }

  lemma {:induction false} SweepNobody(cfg: Config, e: Engine, rows: seq<Row>, order: seq<string>, now: int)
    requires forall i | 0 <= i < |order| :: Seen(rows, order[i])
    ensures Sweep(cfg, e, rows, order, now) == (e, [])
    decreases |order|
  {
    if order != [] { SweepNobody(cfg, e, rows, order[..|order| - 1], now); }
  }

  lemma OneRobotDown(cfg: Config, hash: IdHash, r: string, c: Condition, s: int) returns (w: Site)
    requires cfg == Config(1, 1, 0, 0) && r != ""
    ensures var p := Poll(cfg, [Row(r, Some(c))], s, [r]); var w0 := Site(EmptyEngine, map[]);
      Possible(hash, w0, p) && w == Next(hash, w0, p)
    ensures w.engine.open == map[r := Incident(hash(r, c, s), r, c, s, None, 0, 0)] && w.engine.recent == map[]
  {
    var rows := [Row(r, Some(c))];
    w := Next(hash, Site(EmptyEngine, map[]), Poll(cfg, rows, s, [r]));
    RowsSnoc(cfg, hash, EmptyEngine, [], rows[0], s);
    assert [] + rows == rows;
    assert rows[0].id == r;
    SweepNobody(cfg, OnRows(cfg, hash, EmptyEngine, rows, s).0, rows, [r], s);
  }

  lemma StillOpen(cfg: Config, hash: IdHash, e: Engine, row: Row, now: int)
    requires row.id in e.open && row.bad.Some? && row.id != ""
    ensures var k := OnRow(cfg, hash, e, row, now).0;
      k.open.Keys == e.open.Keys && k.open[row.id].id == e.open[row.id].id && k.recent == e.recent
  {
  }

  lemma OpensNew(cfg: Config, hash: IdHash, e: Engine, row: Row, now: int)
    requires row.id !in e.open && row.id !in e.recent && row.bad.Some? && row.id != "" && cfg.pendingPolls <= 1
    ensures var (k, acts) := OnRow(cfg, hash, e, row, now); var id := hash(row.id, row.bad.value, now);
      && k.open == e.open[row.id := Incident(id, row.id, row.bad.value, now, None, 0, 0)] && k.recent == e.recent
      && acts == [Open(id, TableRow(row.id, row.bad.value, true, now, 0))]
  {
  }

  /** A poll of two rows whose robots are both open afterwards: the two rows' actions and no more. */
  lemma ObservesTwo(cfg: Config, hash: IdHash, e: Engine, rows: seq<Row>, now: int, order: seq<string>)
    requires |rows| == 2 && order == [rows[0].id, rows[1].id]
    ensures var (k1, a1) := OnRow(cfg, hash, e, rows[0], now);
      var (k2, a2) := OnRow(cfg, hash, k1, rows[1], now);
      && OnRows(cfg, hash, e, rows, now).0 == k2
      && Observe(cfg, hash, e, rows, now, order) == (ExpireRecent(cfg, k2, now), a1 + a2)
  {
    hide OnRow, ExpireRecent;
    RowsSnoc(cfg, hash, e, [], rows[0], now);
    assert [] + [rows[0]] == [rows[0]] && [rows[0]] + [rows[1]] == rows;
    RowsSnoc(cfg, hash, e, [rows[0]], rows[1], now);
    var (k1, a1) := OnRow(cfg, hash, e, rows[0], now);
    var (k2, a2) := OnRow(cfg, hash, k1, rows[1], now);
    SweepNobody(cfg, k2, rows, order, now);
    assert [] + a1 + a2 + [] == a1 + a2;
  }

  /** The second robot's incident is opened under the id of the first one's. */
  lemma SecondRow(
      cfg: Config, hash: IdHash, e: Engine, rows: seq<Row>, r: string, c: Condition, r': string, c': Condition,
      now: int) returns (open: Action)
    requires cfg == Config(1, 1, 0, 0) && r != r' && r != "" && r' != "" && rows == [Row(r, Some(c)), Row(r', Some(c'))]
    requires e.open.Keys == {r} && e.recent == map[] && e.open[r].id == hash(r', c', now)
    ensures var (l, acts) := Observe(cfg, hash, e, rows, now, [r, r']);
      && open in acts && open.Open? && open.id == e.open[r].id && open.row.src == r'
      && r in l.open && l.open[r].id == e.open[r].id
    ensures OnRows(cfg, hash, e, rows, now).0.open.Keys == {r, r'}
  {
    hide OnRows, Observe;
    ObservesTwo(cfg, hash, e, rows, now, [r, r']);
    var (k1, a1) := OnRow(cfg, hash, e, rows[0], now);
    StillOpen(cfg, hash, e, rows[0], now);
    OpensNew(cfg, hash, k1, rows[1], now);
    hide OnRow;
    open := Open(e.open[r].id, TableRow(r', c', true, now, 0));
    assert open in OnRow(cfg, hash, k1, rows[1], now).1;
  }

  lemma SecondRobotDown(
      cfg: Config, hash: IdHash, w: Site, r: string, c: Condition, r': string, c': Condition, now: int)
    returns (x: Site)
    requires cfg == Config(1, 1, 0, 0) && r != r' && r != "" && r' != "" && InAgreement(w)
    requires w.engine.open.Keys == {r} && w.engine.recent == map[]
    requires w.engine.open[r].id == hash(r', c', now)
    ensures var p := Poll(cfg, [Row(r, Some(c)), Row(r', Some(c'))], now, [r, r']);
      Possible(hash, w, p) && x == Next(hash, w, p)
    ensures !InAgreement(x)
  {
    hide Observe, ApplyActions, Agrees, OnRows, OneRowEach, Lists;
    var rows := [Row(r, Some(c)), Row(r', Some(c'))];
    var p := Poll(cfg, rows, now, [r, r']);
    var open := SecondRow(cfg, hash, w.engine, rows, r, c, r', c', now);
    BothListed(rows, r, c, r', c', OnRows(cfg, hash, w.engine, rows, now).0.open);
    x := Next(hash, w, p);
    assert RestsOn(Observe(cfg, hash, w.engine, rows, now, [r, r']).0, r, open.id);
    assert Collides(hash, w, p);
    StepAgrees(hash, w, p);
  }

  lemma BothListed(rows: seq<Row>, r: string, c: Condition, r': string, c': Condition, open: map<string, Incident>)
    requires r != r' && rows == [Row(r, Some(c)), Row(r', Some(c'))] && open.Keys == {r, r'}
    ensures OneRowEach(rows) && Lists([r, r'], open)
  {
  }

  /** Two polls in the order of their times make any collision show: the later robot takes the earlier one's row. */
  lemma CollisionBreaksAgreement(
      hash: IdHash, r: string, c: Condition, s: int, r': string, c': Condition, s': int)
    requires r != r' && r != "" && r' != "" && hash(r, c, s) == hash(r', c', s')
    ensures exists ws, evs :: IsRun(hash, ws, evs) && !InAgreement(ws[|ws| - 1])
    decreases s' < s
  {
    hide InAgreement, Collides, Possible, Next;
    if s' < s {
      CollisionBreaksAgreement(hash, r', c', s', r, c, s);
    } else {
      var cfg := Config(1, 1, 0, 0);
      var p1 := Poll(cfg, [Row(r, Some(c))], s, [r]);
      var p2 := Poll(cfg, [Row(r, Some(c)), Row(r', Some(c'))], s', [r, r']);
      var w0 := Site(EmptyEngine, map[]);
      var w1 := OneRobotDown(cfg, hash, r, c, s);
      FirstOpensAgree(hash, w0, p1);
      var w2 := SecondRobotDown(cfg, hash, w1, r, c, r', c', s');
      TwoStepRun(hash, w0, p1, w1, p2, w2);
    }
  }

  /** The first poll with one robot down has nobody to collide with. */
  lemma FirstOpensAgree(hash: IdHash, w: Site, p: Event)
    requires w == Site(EmptyEngine, map[]) && p.Poll? && |p.rows| == 1 && Possible(hash, w, p)
    requires Next(hash, w, p).engine.open.Keys == {p.rows[0].id} && Next(hash, w, p).engine.recent == map[]
    ensures InAgreement(Next(hash, w, p))
  {
    StepAgrees(hash, w, p);
    PollAgreesExactly(p.cfg, hash, w.engine, w.table, p.rows, p.now, p.order);
    hide Observe, ValidPoll;
    var (end, acts) := Observe(p.cfg, hash, w.engine, p.rows, p.now, p.order);
    forall a, other | a in acts && a.Open? && RestsOn(end, other, a.id) ensures other == a.row.src {
      assert RestsOn(end, a.row.src, a.id);
    }
  }

  /** Agreement at the end of every run, and so after every event, is exactly freedom from collisions. */
  lemma AgreementIffCollisionFree(hash: IdHash)
    ensures CollisionFree(hash) <==>
      forall ws, evs | IsRun(hash, ws, evs) :: InAgreement(ws[|ws| - 1])
  {
    if CollisionFree(hash) {
      forall ws, evs | IsRun(hash, ws, evs) ensures InAgreement(ws[|ws| - 1]) {
        FreeRunAgrees(hash, ws, evs, |ws| - 1);
      }
    } else {
      var r, c, s, r', c', s' :| r != r' && r != "" && r' != "" && hash(r, c, s) == hash(r', c', s');
      CollisionBreaksAgreement(hash, r, c, s, r', c', s');
    }
  }

  // ---- ids of a finite range -------------------------------------------------------

  function Name(n: nat): string { seq(n + 1, _ => 'r') }

  lemma {:induction false} IdsAddUp(hash: IdHash, c: Condition, range: set<string>, n: nat) returns (ids: set<string>)
    requires CollisionFree(hash) && forall r, c, t :: hash(r, c, t) in range
    ensures |ids| == n && ids <= range && forall id | id in ids :: exists k: nat :: k < n && hash(Name(k), c, 0) == id
  {
    ids := {};
    if n > 0 {
      ids := IdsAddUp(hash, c, range, n - 1);
      var id := hash(Name(n - 1), c, 0);
      forall k: nat | k < n - 1 ensures hash(Name(k), c, 0) != id {
        assert |Name(k)| != |Name(n - 1)|;
      }
      ids := ids + {id};
    }
  }

  /** Ids drawn from a finite range, as the source's are, lose agreement in some run. */
  lemma FiniteIdsCollide(hash: IdHash, range: set<string>)
    requires forall r, c, t :: hash(r, c, t) in range
    ensures exists ws, evs :: IsRun(hash, ws, evs) && !InAgreement(ws[|ws| - 1])
  {
    AgreementIffCollisionFree(hash);
    hide IsRun, InAgreement;
    if CollisionFree(hash) {
      var c: Condition :| true;
      var ids := IdsAddUp(hash, c, range, |range| + 1);
      SubsetSize(ids, range);
      assert false;
    }
  }

  // ---- rows without a robot, and restarts ---------------------------------------------------------

  lemma {:induction false} NamelessRows(cfg: Config, hash: IdHash, e: Engine, rows: seq<Row>, now: int)
    requires "" !in e.open
    ensures "" !in OnRows(cfg, hash, e, rows, now).0.open
    decreases |rows|
  {
    if rows != [] {
      var n := |rows| - 1;
      NamelessRows(cfg, hash, e, rows[..n], now);
      hide OnRow;
      var k := OnRows(cfg, hash, e, rows[..n], now).0;
      if rows[n].id == "" { NamelessRowIsQuiet(cfg, hash, k, rows[n], now); }
      else { var mv := RowMoves(cfg, hash, k, rows[n], now); }
    }
  }

  lemma NamelessRowIsQuiet(cfg: Config, hash: IdHash, e: Engine, row: Row, now: int)
    requires row.id == ""
    ensures OnRow(cfg, hash, e, row, now) == (e, [])
  {
  }

  lemma {:induction false} NamelessSweep(
      cfg: Config, hash: IdHash, e: Engine, rows: seq<Row>, order: seq<string>, now: int)
    requires "" !in e.open
    ensures "" !in Sweep(cfg, e, rows, order, now).0.open
    decreases |order|
  {
    if order != [] {
      var n := |order| - 1;
      NamelessSweep(cfg, hash, e, rows, order[..n], now);
      hide OnAbsent;
      var mv := AbsentMoves(cfg, hash, Sweep(cfg, e, rows, order[..n], now).0, order[n], now);
    }
  }

  /** However often rows without a robot's id come, no incident is ever opened for them. */
  lemma NamelessNeverOpens(cfg: Config, hash: IdHash, e: Engine, rows: seq<Row>, now: int, order: seq<string>)
    requires "" !in e.open
    ensures "" !in Observe(cfg, hash, e, rows, now, order).0.open
  {
    NamelessRows(cfg, hash, e, rows, now);
    NamelessSweep(cfg, hash, OnRows(cfg, hash, e, rows, now).0, rows, order, now);
    hide OnRows, Sweep;
  }

  lemma SeedSnoc(e: Engine, rows: seq<(string, TableRow)>, n: nat, rid: string)
    requires |rows| == n + 1 && rid != ""
    ensures var before, after := Seed(e, rows[..n]), Seed(e, rows); var (id, row) := rows[n];
      && after == before.(open := after.open)
      && Lookup(after.open, rid) == if row.src != rid then Lookup(before.open, rid)
                                    else Some(Incident(id, rid, row.sev, row.createdAt, None, 0, row.dur))
  {
  }

  /** After a restart a robot has the incident of its last open row, or what it had if there is none. */
  lemma {:induction false} SeedReads(e: Engine, rows: seq<(string, TableRow)>, rid: string)
    returns (last: Option<nat>)
    requires rid != ""
    ensures last.None? ==>
      (forall i | 0 <= i < |rows| :: rows[i].1.src != rid) && Lookup(Seed(e, rows).open, rid) == Lookup(e.open, rid)
    ensures last.Some? ==>
      && last.value < |rows| && rows[last.value].1.src == rid
      && (forall i | last.value < i < |rows| :: rows[i].1.src != rid)
      && var (id, row) := rows[last.value];
         Lookup(Seed(e, rows).open, rid) == Some(Incident(id, rid, row.sev, row.createdAt, None, 0, row.dur))
    ensures Seed(e, rows) == e.(open := Seed(e, rows).open)
    decreases |rows|
  {
    if rows == [] {
      last := None;
    } else {
      var n := |rows| - 1;
      last := SeedReads(e, rows[..n], rid);
      SeedSnoc(e, rows, n, rid);
      hide Seed, Lookup;
      if rows[n].1.src == rid { last := Some(n); }
    }
  }
}
