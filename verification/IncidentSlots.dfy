/** The detector is one small machine per robot: each robot's share of it, and what a poll does to that share. */
module IncidentSlots {
  import opened Collections
  import opened Options
  import opened IncidentEngine

  /** What one poll shows of one robot. */
  datatype Obs = Bad(c: Condition) | Clear | Absent

  // ---- one robot's share of the engine ---------------------------------------

  datatype Slot = Slot(
    open: Option<Incident>, recent: Option<Incident>, bad: nat, cond: Option<Condition>, clear: nat, missing: nat)

  function SlotOf(e: Engine, rid: string): Slot {
    Slot(Lookup(e.open, rid), Lookup(e.recent, rid), Count(e.badStreak, rid), Lookup(e.badCond, rid),
         Count(e.clearStreak, rid), Count(e.missing, rid))
  }

  function SlotResolve(s: Slot, now: int): Slot
    requires s.open.Some?
  {
    var inc := s.open.value;
    s.(open := None, recent := Some(inc.(resolvedAt := Some(now), lastDur := Minutes(inc.openedAt, now))), clear := 0)
  }

  function SlotCounted(s: Slot, c: Condition): Slot {
    s.(missing := 0, clear := 0, cond := Some(c), bad := if s.cond == Some(c) then s.bad + 1 else 1)
  }

  function SlotOpening(cfg: Config, hash: IdHash, rid: string, k: Slot, c: Condition, now: int): Slot {
    if k.open.Some? then
      k.(open := Some(k.open.value.(lastDur := Minutes(k.open.value.openedAt, now))))
    else if k.bad < cfg.pendingPolls then k
    else if k.recent.Some? && k.recent.value.resolvedAt.Some?
         && now - k.recent.value.resolvedAt.value <= cfg.reopenWindow then
      var was := k.recent.value;
      k.(recent := None,
         open := Some(was.(resolvedAt := None, condition := c, flaps := was.flaps + 1,
                           lastDur := Minutes(was.openedAt, now))))
    else k.(open := Some(Incident(hash(rid, c, now), rid, c, now, None, 0, 0)))
  }

  function SlotBad(cfg: Config, hash: IdHash, rid: string, s: Slot, c: Condition, now: int): Slot {
    SlotOpening(cfg, hash, rid, SlotCounted(s, c), c, now)
  }

  function SlotClear(cfg: Config, s: Slot, now: int): Slot {
    var k := s.(missing := 0, bad := 0, cond := None);
    if k.open.None? then k
    else if k.clear + 1 < cfg.clearPolls then k.(clear := k.clear + 1)
    else SlotResolve(k, now)
  }

  function SlotAbsent(cfg: Config, s: Slot, now: int): Slot {
    if s.open.None? then s
    else
      var k := s.(missing := s.missing + 1);
      if k.missing > cfg.stalePolls then SlotResolve(k, now) else k
  }

  function SlotExpire(cfg: Config, s: Slot, now: int): Slot {
    if s.recent.Some? && Expired(cfg, s.recent.value, now) then s.(recent := None) else s
  }

  function SlotPoll(cfg: Config, hash: IdHash, rid: string, s: Slot, o: Obs, now: int): Slot {
    SlotExpire(cfg, match o
                    case Bad(c) => SlotBad(cfg, hash, rid, s, c, now)
                    case Clear => SlotClear(cfg, s, now)
                    case Absent => SlotAbsent(cfg, s, now), now)
  }

  // ---- the engine is its slots -----------------------------------------------

  function RowObs(row: Row): Obs { if row.bad.Some? then Bad(row.bad.value) else Clear }

  function ObsOf(rows: seq<Row>, rid: string): Obs {
    if rows == [] then Absent
    else if rows[|rows| - 1].id == rid then RowObs(rows[|rows| - 1])
    else ObsOf(rows[..|rows| - 1], rid)
  }

  /** What the rows alone do to a slot; an absent robot is left to the sweep. */
  function SlotRow(cfg: Config, hash: IdHash, rid: string, s: Slot, o: Obs, now: int): Slot {
    match o
    case Bad(c) => SlotBad(cfg, hash, rid, s, c, now)
    case Clear => SlotClear(cfg, s, now)
    case Absent => s
  }

  lemma CountTouchesItsSlot(e: Engine, r: string, c: Condition, rid: string)
    requires Count(e.missing, r) == 0
    ensures SlotOf(CountBad(e, r, c), rid) == if r == rid then SlotCounted(SlotOf(e, rid), c) else SlotOf(e, rid)
  {
  }

  lemma RefreshTouchesItsSlot(k: Engine, r: string, now: int, rid: string)
    requires r in k.open
    ensures SlotOf(Refresh(k, r, now).0, rid)
         == if rid != r then SlotOf(k, rid)
            else SlotOf(k, r).(open := Some(k.open[r].(lastDur := Minutes(k.open[r].openedAt, now))))
  {
    hide Minutes;
  }

  lemma ReopenTouchesItsSlot(cfg: Config, k: Engine, r: string, c: Condition, now: int, rid: string)
    requires CanReopen(cfg, k, r, now)
    ensures var was := k.recent[r];
      SlotOf(Reopen(k, r, c, now).0, rid)
      == if rid != r then SlotOf(k, rid)
         else SlotOf(k, r).(recent := None,
                            open := Some(was.(resolvedAt := None, condition := c, flaps := was.flaps + 1,
                                              lastDur := Minutes(was.openedAt, now))))
  {
    hide Minutes;
  }

  lemma FreshTouchesItsSlot(hash: IdHash, k: Engine, r: string, c: Condition, now: int, rid: string)
    ensures SlotOf(OpenFresh(hash, k, r, c, now).0, rid)
         == if rid != r then SlotOf(k, rid)
            else SlotOf(k, r).(open := Some(Incident(hash(r, c, now), r, c, now, None, 0, 0)))
  {
  }

  lemma OpeningTouchesItsSlot(cfg: Config, hash: IdHash, k: Engine, r: string, c: Condition, now: int, rid: string)
    requires r in k.badStreak
    ensures SlotOf(Opening(cfg, hash, k, r, c, now).0, rid)
         == if r == rid then SlotOpening(cfg, hash, r, SlotOf(k, r), c, now) else SlotOf(k, rid)
  {
    hide Refresh, Reopen, OpenFresh, Minutes;
    if r in k.open {
      RefreshTouchesItsSlot(k, r, now, rid);
    } else if k.badStreak[r] >= cfg.pendingPolls {
      if CanReopen(cfg, k, r, now) {
        ReopenTouchesItsSlot(cfg, k, r, c, now, rid);
      } else {
        FreshTouchesItsSlot(hash, k, r, c, now, rid);
      }
    }
  }

  lemma BadTouchesItsSlot(cfg: Config, hash: IdHash, e: Engine, r: string, c: Condition, now: int, rid: string)
    requires Count(e.missing, r) == 0
    ensures SlotOf(OnBad(cfg, hash, e, r, c, now).0, rid)
         == if r == rid then SlotBad(cfg, hash, rid, SlotOf(e, rid), c, now) else SlotOf(e, rid)
  {
    CountTouchesItsSlot(e, r, c, rid);
    OpeningTouchesItsSlot(cfg, hash, CountBad(e, r, c), r, c, now, rid);
    hide Opening, SlotOpening, SlotOf;
  }

  lemma ClearTouchesItsSlot(cfg: Config, e: Engine, r: string, now: int, rid: string)
    requires Count(e.missing, r) == 0
    ensures SlotOf(OnClear(cfg, e, r, now).0, rid)
         == if r == rid then SlotClear(cfg, SlotOf(e, rid), now) else SlotOf(e, rid)
  {
  }

  lemma SlotIgnoresMissing(cfg: Config, hash: IdHash, rid: string, s: Slot, o: Obs, now: int)
    requires o != Absent
    ensures SlotRow(cfg, hash, rid, s.(missing := 0), o, now) == SlotRow(cfg, hash, rid, s, o, now)
  {
  }

  lemma RowTouchesItsSlot(cfg: Config, hash: IdHash, e: Engine, row: Row, now: int, rid: string)
    requires rid != ""
    ensures SlotOf(OnRow(cfg, hash, e, row, now).0, rid)
         == if row.id == rid then SlotRow(cfg, hash, rid, SlotOf(e, rid), RowObs(row), now) else SlotOf(e, rid)
  {
    if row.id != "" {
      var k := e.(missing := e.missing[row.id := 0]);
      assert SlotOf(k, rid) == if row.id == rid then SlotOf(e, rid).(missing := 0) else SlotOf(e, rid);
      SlotIgnoresMissing(cfg, hash, rid, SlotOf(e, rid), RowObs(row), now);
      if row.bad.Some? { BadTouchesItsSlot(cfg, hash, k, row.id, row.bad.value, now, rid); }
      else { ClearTouchesItsSlot(cfg, k, row.id, now, rid); }
    }
  }

  lemma AbsentTouchesItsSlot(cfg: Config, e: Engine, r: string, now: int, rid: string)
    ensures SlotOf(OnAbsent(cfg, e, r, now).0, rid)
         == if r == rid then SlotAbsent(cfg, SlotOf(e, rid), now) else SlotOf(e, rid)
  {
  }

  lemma {:induction false} ObsIsRow(rows: seq<Row>, rid: string)
    ensures (ObsOf(rows, rid) == Absent) <==> !Seen(rows, rid)
    decreases |rows|
  {
    if rows != [] {
      var front := rows[..|rows| - 1];
      ObsIsRow(front, rid);
      if Seen(front, rid) { var i :| 0 <= i < |front| && front[i].id == rid; assert rows[i].id == rid; }
    }
  }

  lemma {:induction false} RowsTouchSlots(
      cfg: Config, hash: IdHash, e: Engine, rows: seq<Row>, now: int, rid: string)
    requires rid != "" && OneRowEach(rows)
    ensures SlotOf(OnRows(cfg, hash, e, rows, now).0, rid)
         == SlotRow(cfg, hash, rid, SlotOf(e, rid), ObsOf(rows, rid), now)
    decreases |rows|
  {
    if rows != [] {
      var front, row := rows[..|rows| - 1], rows[|rows| - 1];
      RowsTouchSlots(cfg, hash, e, front, now, rid);
      RowTouchesItsSlot(cfg, hash, OnRows(cfg, hash, e, front, now).0, row, now, rid);
      ObsIsRow(front, rid);
    }
  }

  lemma {:induction false} SweepTouchesSlots(
      cfg: Config, e: Engine, rows: seq<Row>, order: seq<string>, now: int, rid: string)
    requires Distinct(order)
    ensures SlotOf(Sweep(cfg, e, rows, order, now).0, rid)
         == if rid in order && !Seen(rows, rid) then SlotAbsent(cfg, SlotOf(e, rid), now) else SlotOf(e, rid)
    decreases |order|
  {
    if order != [] {
      var front, r := order[..|order| - 1], order[|order| - 1];
      SweepTouchesSlots(cfg, e, rows, front, now, rid);
      if !Seen(rows, r) { AbsentTouchesItsSlot(cfg, Sweep(cfg, e, rows, front, now).0, r, now, rid); }
      assert rid in order <==> rid in front || rid == r;
      assert r !in front;
    }
  }

  lemma ObserveTouchesSlots(
      cfg: Config, hash: IdHash, e: Engine, rows: seq<Row>, now: int, order: seq<string>, rid: string)
    requires rid != "" && ValidPoll(cfg, hash, e, rows, now, order)
    ensures SlotOf(Observe(cfg, hash, e, rows, now, order).0, rid)
         == SlotPoll(cfg, hash, rid, SlotOf(e, rid), ObsOf(rows, rid), now)
  {
    RowsTouchSlots(cfg, hash, e, rows, now, rid);
    var k := OnRows(cfg, hash, e, rows, now).0;
    SweepTouchesSlots(cfg, k, rows, order, now, rid);
    ObsIsRow(rows, rid);
  }

  /** An open incident of a robot seen not operating says how many whole minutes it has been open. */
  lemma DurationsAreFresh(
      cfg: Config, hash: IdHash, e: Engine, rows: seq<Row>, now: int, order: seq<string>, rid: string)
    requires rid != "" && ValidPoll(cfg, hash, e, rows, now, order) && ObsOf(rows, rid).Bad?
    ensures var k := Observe(cfg, hash, e, rows, now, order).0;
      rid in k.open ==>
        var inc := k.open[rid];
        inc.lastDur >= 0 && inc.lastDur * MINUTE <= NonNegative(now - inc.openedAt) < (inc.lastDur + 1) * MINUTE
  {
    ObserveTouchesSlots(cfg, hash, e, rows, now, order, rid);
    var s := SlotPoll(cfg, hash, rid, SlotOf(e, rid), ObsOf(rows, rid), now);
    hide Observe;
    if s.open.Some? { assert s.open.value.lastDur == Minutes(s.open.value.openedAt, now); }
  }

  /** A clock that ran backwards counts as no time at all. */
  function NonNegative(t: int): int { if t < 0 then 0 else t }
}
