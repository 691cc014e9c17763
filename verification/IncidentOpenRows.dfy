/** Agreement of the open rows alone: over any run, exactly which event makes them differ from the open incidents. */
module IncidentOpenRows {
  import opened IncidentEngine
  import opened IncidentTable

  // ---- agreement of the open rows ------------------------------------------------------------

  predicate HasRow(t: Table, rid: string, inc: Incident) {
    inc.id in t && t[inc.id] == TableRow(rid, t[inc.id].sev, true, inc.openedAt, inc.lastDur)
  }

  /** The open rows of the table are the open incidents, with opening time and duration. */
  ghost predicate OpenRowsAgree(e: Engine, t: Table) {
    (forall rid | rid in e.open :: HasRow(t, rid, e.open[rid])) && OpenRowsHeld(e, t)
  }

  /** Every incident is filed under its own robot. */
  ghost predicate Own(e: Engine) {
    && (forall rid | rid in e.open :: rid != "" && e.open[rid].robot == rid && e.open[rid].resolvedAt.None?)
    && forall rid | rid in e.recent :: e.recent[rid].robot == rid
  }

  lemma AgreementOfOpenRows(e: Engine, t: Table)
    requires Agrees(e, t)
    ensures OpenRowsAgree(e, t)
  {
    forall rid | rid in e.open ensures HasRow(t, rid, e.open[rid]) { assert Backed(t, rid, e.open[rid]); }
  }

  // ---- one robot's move --------------------------------------------------------------------------

  ghost predicate HeldByOther(e: Engine, rid: string, id: string) {
    exists other :: other in e.open && other != rid && e.open[other].id == id
  }

  predicate StillOwn(t: Table, rid: string, inc: Incident) {
    inc.id in t && t[inc.id].src == rid && t[inc.id].createdAt == inc.openedAt
  }

  /**
    The robot opens an incident under the id of another robot's open one, or re-opens one whose row is no longer its
    own.
   */
  ghost predicate Slip(e: Engine, t: Table, out: (Engine, seq<Action>), rid: string) {
    out.1 != [] && rid !in e.open &&
    if out.1[0].Open? then HeldByOther(e, rid, out.1[0].id) else rid in e.recent && !StillOwn(t, rid, e.recent[rid])
  }

  /** The robot's open incident shares its id with another's, or has no open row of its own. */
  ghost predicate Wrecked(e: Engine, t: Table, rid: string) {
    rid in e.open && (HeldByOther(e, rid, e.open[rid].id) || !StillOwn(t, rid, e.open[rid]) || !t[e.open[rid].id].open)
  }

  lemma AgreeingIsWhole(e: Engine, t: Table, rid: string)
    requires OpenRowsAgree(e, t) && rid in e.open
    ensures !Wrecked(e, t, rid)
  {
    assert HasRow(t, rid, e.open[rid]);
    forall other | other in e.open && e.open[other].id == e.open[rid].id ensures other == rid {
      assert HasRow(t, other, e.open[other]);
    }
  }

  lemma WreckedDisagrees(e: Engine, t: Table, rid: string)
    requires Wrecked(e, t, rid)
    ensures !OpenRowsAgree(e, t)
  {
    if OpenRowsAgree(e, t) { AgreeingIsWhole(e, t, rid); }
  }

  lemma MoveIsApplied(t: Table, out: (Engine, seq<Action>))
    requires |out.1| <= 1
    ensures ApplyActions(t, out.1) == if out.1 == [] then t else ApplyAction(t, out.1[0])
  {
    if out.1 != [] { ApplyOne(t, out.1[0]); assert out.1 == [out.1[0]]; }
  }

  lemma MoveKeepsOwn(hash: IdHash, e: Engine, out: (Engine, seq<Action>), rid: string, now: int, mv: Move)
    requires Own(e) && rid != "" && Moved(hash, e, out, rid, now, mv)
    ensures Own(out.0)
  {
  }

  lemma MoveKeepsRow(hash: IdHash, e: Engine, t: Table, out: (Engine, seq<Action>), rid: string, now: int, mv: Move,
                     other: string)
    requires OpenRowsAgree(e, t) && Moved(hash, e, out, rid, now, mv) && !Slip(e, t, out, rid)
    requires other in out.0.open
    ensures HasRow(ApplyActions(t, out.1), other, out.0.open[other])
  {
    MoveIsApplied(t, out);
    if other in e.open { assert HasRow(t, other, e.open[other]); }
    if rid in e.open { assert HasRow(t, rid, e.open[rid]); }
  }

  lemma MoveKeepsHeld(hash: IdHash, e: Engine, t: Table, out: (Engine, seq<Action>), rid: string, now: int, mv: Move)
    requires OpenRowsAgree(e, t) && Moved(hash, e, out, rid, now, mv) && !Slip(e, t, out, rid)
    ensures OpenRowsHeld(out.0, ApplyActions(t, out.1))
  {
    MoveIsApplied(t, out);
    if rid in e.open { assert HasRow(t, rid, e.open[rid]); }
  }

  lemma MoveKeepsOpenRows(hash: IdHash, e: Engine, t: Table, out: (Engine, seq<Action>), rid: string, now: int,
                          mv: Move)
    requires OpenRowsAgree(e, t) && Moved(hash, e, out, rid, now, mv) && !Slip(e, t, out, rid)
    ensures OpenRowsAgree(out.0, ApplyActions(t, out.1))
  {
    hide Moved, Slip, HasRow, OpenRowsHeld, ApplyActions;
    forall other | other in out.0.open ensures HasRow(ApplyActions(t, out.1), other, out.0.open[other]) {
      MoveKeepsRow(hash, e, t, out, rid, now, mv, other);
    }
    MoveKeepsHeld(hash, e, t, out, rid, now, mv);
  }

  lemma SlipWrecks(hash: IdHash, e: Engine, t: Table, out: (Engine, seq<Action>), rid: string, now: int, mv: Move)
    requires Moved(hash, e, out, rid, now, mv) && Slip(e, t, out, rid)
    ensures Wrecked(out.0, ApplyActions(t, out.1), rid)
  {
    MoveIsApplied(t, out);
    if mv.Opened? {
      var other :| other in e.open && other != rid && e.open[other].id == out.1[0].id;
      assert other in out.0.open && out.0.open[other].id == out.0.open[rid].id;
    }
  }

  /** No other robot's move mends what a slip has broken. */
  lemma WreckedStays(hash: IdHash, e: Engine, t: Table, out: (Engine, seq<Action>), rid: string, now: int, mv: Move,
                     victim: string)
    requires Wrecked(e, t, victim) && victim != rid && Moved(hash, e, out, rid, now, mv)
    ensures Wrecked(out.0, ApplyActions(t, out.1), victim)
  {
    MoveIsApplied(t, out);
    var id := e.open[victim].id;
    assert victim in out.0.open && out.0.open[victim] == e.open[victim];
    if other :| other in e.open && other != victim && e.open[other].id == id && other in out.0.open {
      assert out.0.open[other].id == id;
    } else if mv.Opened? || mv.Reopened? {
      if out.1[0].id == id { assert rid in out.0.open && out.0.open[rid].id == id; }
    }
  }

  // ---- a poll -------------------------------------------------------------------------------------

  ghost predicate SlipsAt(cfg: Config, hash: IdHash, start: Engine, t: Table, rows: seq<Row>, now: int, n: nat)
    requires n < |rows|
  {
    var (e, acts) := OnRows(cfg, hash, start, rows[..n], now);
    rows[n].id != "" && Slip(e, ApplyActions(t, acts), OnRow(cfg, hash, e, rows[n], now), rows[n].id)
  }

  ghost predicate SlipsBefore(cfg: Config, hash: IdHash, start: Engine, t: Table, rows: seq<Row>, now: int, n: nat)
    requires n <= |rows|
  {
    exists k | 0 <= k < n :: SlipsAt(cfg, hash, start, t, rows, now, k)
  }

  /** Some row of the poll slips. */
  ghost predicate Slips(cfg: Config, hash: IdHash, start: Engine, t: Table, rows: seq<Row>, now: int) {
    SlipsBefore(cfg, hash, start, t, rows, now, |rows|)
  }

  /** One of the robots of the rows is wrecked. */
  ghost predicate WreckedAmong(e: Engine, t: Table, rows: seq<Row>) {
    exists k :: 0 <= k < |rows| && Wrecked(e, t, rows[k].id)
  }

  /** Where a poll stands: in order, or wrecked for good. */
  ghost predicate Stands(e: Engine, t: Table, rows: seq<Row>, slipped: bool) {
    Own(e) && if slipped then WreckedAmong(e, t, rows) else OpenRowsAgree(e, t)
  }

  lemma StandsAfter(hash: IdHash, e: Engine, t: Table, acts: seq<Action>, out: (Engine, seq<Action>), rid: string,
                    now: int, mv: Move, rows: seq<Row>, slipped: bool, more: seq<Row>)
    requires Stands(e, ApplyActions(t, acts), rows, slipped) && rid != "" && Moved(hash, e, out, rid, now, mv)
    requires forall k | 0 <= k < |rows| :: rows[k].id != rid
    requires |more| <= 1 && (more != [] ==> more[0].id == rid)
    requires more == [] ==> !Slip(e, ApplyActions(t, acts), out, rid)
    ensures Stands(out.0, ApplyActions(t, acts + out.1), rows + more,
                   slipped || Slip(e, ApplyActions(t, acts), out, rid))
  {
    var u := ApplyActions(t, acts);
    ApplyConcat(t, acts, out.1);
    MoveKeepsOwn(hash, e, out, rid, now, mv);
    hide Moved, Slip, Wrecked, OpenRowsAgree, Own, ApplyActions;
    if slipped {
      var k :| 0 <= k < |rows| && Wrecked(e, u, rows[k].id);
      WreckedStays(hash, e, u, out, rid, now, mv, rows[k].id);
      assert (rows + more)[k] == rows[k];
    } else if Slip(e, u, out, rid) {
      SlipWrecks(hash, e, u, out, rid, now, mv);
      assert (rows + more)[|rows|].id == rid;
    } else {
      MoveKeepsOpenRows(hash, e, u, out, rid, now, mv);
    }
  }

  lemma {:induction false} RowsStand(cfg: Config, hash: IdHash, start: Engine, t: Table, rows: seq<Row>, now: int,
                                     n: nat)
    requires Own(start) && OpenRowsAgree(start, t) && OneRowEach(rows) && n <= |rows|
    ensures var (e, acts) := OnRows(cfg, hash, start, rows[..n], now);
      Stands(e, ApplyActions(t, acts), rows[..n], SlipsBefore(cfg, hash, start, t, rows, now, n))
  {
    hide Stands, OnRow, Moved, OpenRowsAgree, Own, Slip;
    if n == 0 {
      StandsAtStart(cfg, hash, start, t, rows, now);
    } else {
      RowsStand(cfg, hash, start, t, rows, now, n - 1);
      var (e, acts) := OnRows(cfg, hash, start, rows[..n - 1], now);
      var row := rows[n - 1];
      assert rows[..n][..n - 1] == rows[..n - 1];
      assert rows[..n] == rows[..n - 1] + [row];
      var out := OnRow(cfg, hash, e, row, now);
      var before := SlipsBefore(cfg, hash, start, t, rows, now, n - 1);
      assert SlipsBefore(cfg, hash, start, t, rows, now, n) <==>
        before || SlipsAt(cfg, hash, start, t, rows, now, n - 1);
      if row.id == "" {
        NoRowNoMove(cfg, hash, e, row, now);
        assert acts + [] == acts;
        StandsLonger(e, ApplyActions(t, acts), rows[..n - 1], row, before);
      } else {
        var mv := RowMoves(cfg, hash, e, row, now);
        StandsAfter(hash, e, t, acts, out, row.id, now, mv, rows[..n - 1], before, [row]);
      }
    }
  }

  lemma StandsAtStart(cfg: Config, hash: IdHash, start: Engine, t: Table, rows: seq<Row>, now: int)
    requires Own(start) && OpenRowsAgree(start, t)
    ensures var (e, acts) := OnRows(cfg, hash, start, rows[..0], now);
      Stands(e, ApplyActions(t, acts), rows[..0], SlipsBefore(cfg, hash, start, t, rows, now, 0))
  {
  }

  lemma NoRowNoMove(cfg: Config, hash: IdHash, e: Engine, row: Row, now: int)
    requires row.id == ""
    ensures OnRow(cfg, hash, e, row, now) == (e, [])
  {
  }

  lemma StandsLonger(e: Engine, t: Table, rows: seq<Row>, row: Row, slipped: bool)
    requires Stands(e, t, rows, slipped)
    ensures Stands(e, t, rows + [row], slipped)
  {
    hide Wrecked, OpenRowsAgree, Own;
    if slipped {
      var k :| 0 <= k < |rows| && Wrecked(e, t, rows[k].id);
      assert (rows + [row])[k] == rows[k];
    }
  }

  lemma {:induction false} SweepStands(cfg: Config, hash: IdHash, k: Engine, t: Table, first: seq<Action>,
                                       rows: seq<Row>, order: seq<string>, now: int, slipped: bool)
    requires Stands(k, ApplyActions(t, first), rows, slipped) && "" !in order
    ensures var (e, acts) := Sweep(cfg, k, rows, order, now);
      Stands(e, ApplyActions(t, first + acts), rows, slipped)
    decreases |order|
  {
    hide Stands, OnAbsent, Moved, Slip;
    if order == [] {
      assert first + [] == first;
    } else {
      SweepStands(cfg, hash, k, t, first, rows, order[..|order| - 1], now, slipped);
      var (e, acts) := Sweep(cfg, k, rows, order[..|order| - 1], now);
      var rid := order[|order| - 1];
      if !Seen(rows, rid) {
        var out := OnAbsent(cfg, e, rid, now);
        var mv := AbsentMoves(cfg, hash, e, rid, now);
        AbsentNeverSlips(cfg, e, ApplyActions(t, first + acts), rid, now);
        StandsAfter(hash, e, t, first + acts, out, rid, now, mv, rows, slipped, []);
        assert rows + [] == rows && (first + acts) + out.1 == first + (acts + out.1);
      }
    }
  }

  lemma AbsentNeverSlips(cfg: Config, e: Engine, t: Table, rid: string, now: int)
    ensures !Slip(e, t, OnAbsent(cfg, e, rid, now), rid)
  {
  }

  lemma ExpiryKeepsOpen(cfg: Config, l: Engine, t: Table, now: int)
    requires Own(l)
    ensures var e := ExpireRecent(cfg, l, now);
      e.open == l.open && Own(e) && (OpenRowsAgree(e, t) <==> OpenRowsAgree(l, t))
  {
  }

  lemma OrderHasNames(order: seq<string>, e: Engine)
    requires Own(e) && Lists(order, e.open)
    ensures "" !in order
  {
  }

  lemma StandsDecides(e: Engine, t: Table, rows: seq<Row>, slipped: bool)
    requires Stands(e, t, rows, slipped)
    ensures Own(e) && (OpenRowsAgree(e, t) <==> !slipped)
  {
    hide Wrecked, OpenRowsAgree, Own;
    if slipped {
      var k :| 0 <= k < |rows| && Wrecked(e, t, rows[k].id);
      WreckedDisagrees(e, t, rows[k].id);
    }
  }

  /** A completed poll keeps the open rows in agreement exactly if none of its rows slips. */
  lemma PollKeepsOpenRows(cfg: Config, hash: IdHash, start: Engine, t: Table, rows: seq<Row>, now: int,
                          order: seq<string>)
    requires Own(start) && OpenRowsAgree(start, t) && ValidPoll(cfg, hash, start, rows, now, order)
    ensures var (end, acts) := Observe(cfg, hash, start, rows, now, order);
      Own(end) && (OpenRowsAgree(end, ApplyActions(t, acts)) <==> !Slips(cfg, hash, start, t, rows, now))
  {
    RowsStand(cfg, hash, start, t, rows, now, |rows|);
    assert rows[..|rows|] == rows;
    var slipped := Slips(cfg, hash, start, t, rows, now);
    var (k, first) := OnRows(cfg, hash, start, rows, now);
    StandsDecides(k, ApplyActions(t, first), rows, slipped);
    OrderHasNames(order, k);
    SweepStands(cfg, hash, k, t, first, rows, order, now, slipped);
    var (l, more) := Sweep(cfg, k, rows, order, now);
    StandsDecides(l, ApplyActions(t, first + more), rows, slipped);
    ExpiryKeepsOpen(cfg, l, ApplyActions(t, first + more), now);
    hide *;
  }

  // ---- restart ----------------------------------------------------------------------------------------

  lemma {:induction false} SeedOwns(rows: seq<(string, TableRow)>)
    ensures Own(Seed(EmptyEngine, rows))
    decreases |rows|
  {
    if rows != [] { SeedOwns(rows[..|rows| - 1]); }
  }

  /** A restart agrees with the open rows exactly if the table holds at most one for each robot. */
  lemma SeedAgreesExactly(t: Table, rows: seq<(string, TableRow)>)
    requires OpenRows(t, rows)
    ensures var e := Seed(EmptyEngine, rows); Own(e) && (OpenRowsAgree(e, t) <==> Restartable(t))
  {
    var e := Seed(EmptyEngine, rows);
    SeedOwns(rows);
    if Restartable(t) {
      SeedAgrees(t, rows);
      AgreementOfOpenRows(e, t);
    }
  }

  // ---- runs ---------------------------------------------------------------------------------------------

  ghost predicate OpenRowsAt(w: Site) { Own(w.engine) && OpenRowsAgree(w.engine, w.table) }

  /** The event is a poll with a row that slips, or a crash that leaves two open rows of one robot behind. */
  ghost predicate LosesOpenRows(hash: IdHash, w: Site, ev: Event)
    requires ev.Crash? ==> ev.applied <= |Actions(hash, w, ev)|
  {
    if ev.Poll? then Slips(ev.cfg, hash, w.engine, w.table, ev.rows, ev.now) else !Restartable(Applied(hash, w, ev))
  }

  lemma StepKeepsOpenRows(hash: IdHash, w: Site, ev: Event)
    requires OpenRowsAt(w) && Possible(hash, w, ev)
    ensures OpenRowsAt(Next(hash, w, ev)) <==> !LosesOpenRows(hash, w, ev)
  {
    if ev.Poll? {
      PollKeepsOpenRows(ev.cfg, hash, w.engine, w.table, ev.rows, ev.now, ev.order);
    } else {
      SeedAgreesExactly(Applied(hash, w, ev), ev.reread);
    }
    hide Observe, ValidPoll, Slips, Own, OpenRowsAgree, Restartable;
  }

  ghost predicate KeptUpTo(ws: seq<Site>, n: nat)
    requires n < |ws|
  {
    forall k | 0 <= k <= n :: OpenRowsAt(ws[k])
  }

  ghost predicate LostAt(hash: IdHash, ws: seq<Site>, evs: seq<Event>, k: nat)
    requires k < |ws| && k < |evs|
  {
    Possible(hash, ws[k], evs[k]) && LosesOpenRows(hash, ws[k], evs[k])
  }

  ghost predicate LostBefore(hash: IdHash, ws: seq<Site>, evs: seq<Event>, n: nat)
    requires n <= |ws| && n <= |evs|
  {
    exists k | 0 <= k < n :: LostAt(hash, ws, evs, k)
  }

  /**
    Over any run the open rows are the open incidents after every event up to some point exactly if no event before it
    lost them; collisions with incidents that are merely recent do not matter until one of them is re-opened.
   */
  lemma {:induction false} RunKeepsOpenRows(hash: IdHash, ws: seq<Site>, evs: seq<Event>, n: nat)
    requires IsRun(hash, ws, evs) && n < |ws|
    ensures |ws| == |evs| + 1 && (KeptUpTo(ws, n) <==> !LostBefore(hash, ws, evs, n))
    decreases n
  {
    hide IsRun, OpenRowsAt, LosesOpenRows, Possible, Next;
    StartsEmpty(hash, ws, evs);
    if n > 0 {
      RunKeepsOpenRows(hash, ws, evs, n - 1);
      RunStep(hash, ws, evs, n - 1);
      if OpenRowsAt(ws[n - 1]) { StepKeepsOpenRows(hash, ws[n - 1], evs[n - 1]); }
      assert KeptUpTo(ws, n) <==> KeptUpTo(ws, n - 1) && OpenRowsAt(ws[n]);
      assert LostBefore(hash, ws, evs, n) <==> LostBefore(hash, ws, evs, n - 1) || LostAt(hash, ws, evs, n - 1);
      assert KeptUpTo(ws, n - 1) ==> OpenRowsAt(ws[n - 1]);
    }
  }

  lemma StartsEmpty(hash: IdHash, ws: seq<Site>, evs: seq<Event>)
    requires IsRun(hash, ws, evs)
    ensures |ws| == |evs| + 1 && OpenRowsAt(ws[0])
  {
  }
}
