/** The incident detector: online counters per robot, and the actions they send to the incidents table. */
module IncidentEngine {
  import opened Collections
  import opened Options

  datatype Condition = Fault | EStop

  /** Turns (robot, condition, opening time) into an incident id. Times are in microseconds. */
  type IdHash = (string, Condition, int) -> string

  datatype Incident = Incident(
    id: string, robot: string, condition: Condition, openedAt: int, resolvedAt: Option<int>, flaps: nat, lastDur: int)

  datatype Config = Config(pendingPolls: int, clearPolls: int, reopenWindow: int, stalePolls: int)

  /** One robot in one snapshot: its condition if it is not operating. */
  datatype Row = Row(id: string, bad: Option<Condition>)

  datatype TableRow = TableRow(src: string, sev: Condition, open: bool, createdAt: int, dur: int)

  datatype Action =
    | Open(id: string, row: TableRow)
    | Patch(id: string, state: Option<bool>, dur: int)

  datatype Engine = Engine(
    open: map<string, Incident>,
    recent: map<string, Incident>,
    badStreak: map<string, nat>,
    badCond: map<string, Condition>,
    clearStreak: map<string, nat>,
    missing: map<string, nat>)

  const MINUTE := 60_000_000

  function Minutes(start: int, now: int): int {
    if now < start then 0 else (now - start) / MINUTE
  }

  function Count(m: map<string, nat>, k: string): nat { if k in m then m[k] else 0 }

  function Lookup<T>(m: map<string, T>, k: string): Option<T> { if k in m then Some(m[k]) else None }

  const EmptyEngine := Engine(map[], map[], map[], map[], map[], map[])

  // ---- transitions ---------------------------------------------------------

  /** The bad streak after one more poll with this condition; another condition starts it again. */
  function CountBad(e: Engine, rid: string, c: Condition): Engine {
    e.(clearStreak := e.clearStreak[rid := 0],
       badCond := e.badCond[rid := c],
       badStreak := e.badStreak[rid := if Lookup(e.badCond, rid) == Some(c) then Count(e.badStreak, rid) + 1 else 1])
  }

  function Refresh(e: Engine, rid: string, now: int): (Engine, seq<Action>)
    requires rid in e.open
  {
    var inc := e.open[rid];
    var mins := Minutes(inc.openedAt, now);
    if mins != inc.lastDur then
      (e.(open := e.open[rid := inc.(lastDur := mins)]), [Patch(inc.id, None, mins)])
    else (e, [])
  }

  predicate CanReopen(cfg: Config, e: Engine, rid: string, now: int) {
    rid in e.recent && e.recent[rid].resolvedAt.Some? && now - e.recent[rid].resolvedAt.value <= cfg.reopenWindow
  }

  function Reopen(e: Engine, rid: string, c: Condition, now: int): (Engine, seq<Action>)
    requires rid in e.recent
  {
    var was := e.recent[rid];
    var mins := Minutes(was.openedAt, now);
    var inc := was.(resolvedAt := None, condition := c, flaps := was.flaps + 1, lastDur := mins);
    (e.(open := e.open[rid := inc], recent := e.recent - {rid}), [Patch(inc.id, Some(true), mins)])
  }

  function OpenFresh(hash: IdHash, e: Engine, rid: string, c: Condition, now: int): (Engine, seq<Action>) {
    var id := hash(rid, c, now);
    (e.(open := e.open[rid := Incident(id, rid, c, now, None, 0, 0)]), [Open(id, TableRow(rid, c, true, now, 0))])
  }

  /** What the counted poll leads to: nothing yet, a fresher duration, the old incident again, or a new one. */
  function Opening(cfg: Config, hash: IdHash, k: Engine, rid: string, c: Condition, now: int): (Engine, seq<Action>)
    requires rid in k.badStreak
  {
    if rid in k.open then Refresh(k, rid, now)
    else if k.badStreak[rid] < cfg.pendingPolls then (k, [])
    else if CanReopen(cfg, k, rid, now) then Reopen(k, rid, c, now)
    else OpenFresh(hash, k, rid, c, now)
  }

  function OnBad(cfg: Config, hash: IdHash, e: Engine, rid: string, c: Condition, now: int): (Engine, seq<Action>) {
    Opening(cfg, hash, CountBad(e, rid, c), rid, c, now)
  }

  function Resolve(e: Engine, rid: string, now: int): (Engine, seq<Action>)
    requires rid in e.open
  {
    var inc := e.open[rid];
    var mins := Minutes(inc.openedAt, now);
    (e.(open := e.open - {rid},
        recent := e.recent[rid := inc.(resolvedAt := Some(now), lastDur := mins)],
        clearStreak := e.clearStreak[rid := 0]),
     [Patch(inc.id, Some(false), mins)])
  }

  function OnClear(cfg: Config, e: Engine, rid: string, now: int): (Engine, seq<Action>) {
    var k := e.(badStreak := e.badStreak[rid := 0], badCond := e.badCond - {rid});
    if rid !in k.open then (k, [])
    else
      var s := k.(clearStreak := k.clearStreak[rid := Count(k.clearStreak, rid) + 1]);
      if s.clearStreak[rid] < cfg.clearPolls then (s, []) else Resolve(s, rid, now)
  }

  function OnRow(cfg: Config, hash: IdHash, e: Engine, row: Row, now: int): (Engine, seq<Action>) {
    if row.id == "" then (e, [])
    else
      var k := e.(missing := e.missing[row.id := 0]);
      if row.bad.Some? then OnBad(cfg, hash, k, row.id, row.bad.value, now) else OnClear(cfg, k, row.id, now)
  }

  function OnRows(cfg: Config, hash: IdHash, e: Engine, rows: seq<Row>, now: int): (Engine, seq<Action>) {
    if rows == [] then (e, [])
    else
      var (k, acts) := OnRows(cfg, hash, e, rows[..|rows| - 1], now);
      var (l, more) := OnRow(cfg, hash, k, rows[|rows| - 1], now);
      (l, acts + more)
  }

  predicate Seen(rows: seq<Row>, rid: string) { exists i :: 0 <= i < |rows| && rows[i].id == rid }

  function OnAbsent(cfg: Config, e: Engine, rid: string, now: int): (Engine, seq<Action>) {
    if rid !in e.open then (e, [])
    else
      var k := e.(missing := e.missing[rid := Count(e.missing, rid) + 1]);
      if k.missing[rid] > cfg.stalePolls then Resolve(k, rid, now) else (k, [])
  }

  /** The sweep over the open incidents, in the order the dictionary lists them. */
  function Sweep(cfg: Config, e: Engine, rows: seq<Row>, order: seq<string>, now: int): (Engine, seq<Action>) {
    if order == [] then (e, [])
    else
      var (k, acts) := Sweep(cfg, e, rows, order[..|order| - 1], now);
      var rid := order[|order| - 1];
      if Seen(rows, rid) then (k, acts)
      else var (l, more) := OnAbsent(cfg, k, rid, now); (l, acts + more)
  }

  predicate Expired(cfg: Config, inc: Incident, now: int) {
    inc.resolvedAt.Some? && now - inc.resolvedAt.value > cfg.reopenWindow
  }

  function ExpireRecent(cfg: Config, e: Engine, now: int): Engine {
    e.(recent := map rid | rid in e.recent && !Expired(cfg, e.recent[rid], now) :: e.recent[rid])
  }

  /** One poll. `order` is the order in which the dictionary lists the incidents open after the rows. */
  function Observe(cfg: Config, hash: IdHash, e: Engine, rows: seq<Row>, now: int, order: seq<string>)
    : (Engine, seq<Action>)
  {
    var (k, acts) := OnRows(cfg, hash, e, rows, now);
    var (l, more) := Sweep(cfg, k, rows, order, now);
    (ExpireRecent(cfg, l, now), acts + more)
  }

  ghost predicate OneRowEach(rows: seq<Row>) { forall i, j | 0 <= i < j < |rows| :: rows[i].id != rows[j].id }

  /** `order` lists exactly the open incidents. */
  ghost predicate Lists(order: seq<string>, open: map<string, Incident>) {
    Distinct(order) && forall rid :: rid in order <==> rid in open
  }

  ghost predicate ValidPoll(cfg: Config, hash: IdHash, e: Engine, rows: seq<Row>, now: int, order: seq<string>) {
    OneRowEach(rows) && Lists(order, OnRows(cfg, hash, e, rows, now).0.open)
  }

  // ---- restart -------------------------------------------------------------

  /** Rebuilding the engine from the open rows of the table after a restart. */
  function Seed(e: Engine, rows: seq<(string, TableRow)>): Engine {
    if rows == [] then e
    else
      var k := Seed(e, rows[..|rows| - 1]);
      var (id, row) := rows[|rows| - 1];
      if row.src == "" then k
      else k.(open := k.open[row.src := Incident(id, row.src, row.sev, row.createdAt, None, 0, row.dur)])
  }

  // ---- the detector in its own form ------------------------------------------

  class IncidentDetector {
    var cfg: Config
    var openIncidents: map<string, Incident>
    var recent: map<string, Incident>
    var badStreak: map<string, nat>
    var badCond: map<string, Condition>
    var clearStreak: map<string, nat>
    var missing: map<string, nat>

    constructor (cfg: Config)
      ensures this.cfg == cfg && View() == EmptyEngine
    {
      this.cfg := cfg;
      openIncidents, recent := map[], map[];
      badStreak, badCond, clearStreak, missing := map[], map[], map[], map[];
    }

    ghost function View(): Engine
      reads this
    {
      Engine(openIncidents, recent, badStreak, badCond, clearStreak, missing)
    }

    /** Rebuilds the open incidents from the rows the table still has open. */
    method SeedFrom(rows: seq<(string, TableRow)>)
      modifies this`openIncidents
      ensures View() == Seed(old(View()), rows)
    {
      for n := 0 to |rows|
        invariant View() == Seed(old(View()), rows[..n])
      {
        var (id, row) := rows[n];
        assert rows[..n + 1][..n] == rows[..n];
        if row.src != "" {
          openIncidents := openIncidents[row.src := Incident(id, row.src, row.sev, row.createdAt, None, 0, row.dur)];
        }
      }
      assert rows[..|rows|] == rows;
    }

    method ResolveIncident(rid: string, now: int) returns (a: Action)
      requires rid in openIncidents
      modifies this`openIncidents, this`recent, this`clearStreak
      ensures (View(), [a]) == Resolve(old(View()), rid, now)
    {
      var inc := openIncidents[rid];
      var mins := Minutes(inc.openedAt, now);
      inc := inc.(resolvedAt := Some(now), lastDur := mins);
      openIncidents := openIncidents - {rid};
      recent := recent[rid := inc];
      clearStreak := clearStreak[rid := 0];
      a := Patch(inc.id, Some(false), mins);
    }

    method OnBadRow(hash: IdHash, rid: string, c: Condition, now: int) returns (acts: seq<Action>)
      modifies this`openIncidents, this`recent, this`badStreak, this`badCond, this`clearStreak
      ensures (View(), acts) == OnBad(cfg, hash, old(View()), rid, c, now)
    {
      clearStreak := clearStreak[rid := 0];
      if rid in badCond && badCond[rid] == c {
        badStreak := badStreak[rid := Count(badStreak, rid) + 1];
      } else {
        badStreak := badStreak[rid := 1];
      }
      badCond := badCond[rid := c];
      assert View() == CountBad(old(View()), rid, c);
      hide CountBad, Opening;
      acts := OpenOrRefresh(hash, rid, c, now);
    }

    /** The poll is counted; what it leads to. */
    method OpenOrRefresh(hash: IdHash, rid: string, c: Condition, now: int) returns (acts: seq<Action>)
      requires rid in badStreak
      modifies this`openIncidents, this`recent
      ensures (View(), acts) == Opening(cfg, hash, old(View()), rid, c, now)
    {
      if rid in openIncidents {
        var inc := openIncidents[rid];
        var mins := Minutes(inc.openedAt, now);
        if mins == inc.lastDur { return []; }
        openIncidents := openIncidents[rid := inc.(lastDur := mins)];
        return [Patch(inc.id, None, mins)];
      }
      if badStreak[rid] < cfg.pendingPolls { return []; }
      if rid in recent && recent[rid].resolvedAt.Some? && now - recent[rid].resolvedAt.value <= cfg.reopenWindow {
        var was := recent[rid];
        var mins := Minutes(was.openedAt, now);
        openIncidents := openIncidents[rid :=
          was.(resolvedAt := None, condition := c, flaps := was.flaps + 1, lastDur := mins)];
        recent := recent - {rid};
        return [Patch(was.id, Some(true), mins)];
      }
      var id := hash(rid, c, now);
      openIncidents := openIncidents[rid := Incident(id, rid, c, now, None, 0, 0)];
      return [Open(id, TableRow(rid, c, true, now, 0))];
    }

    method OnClearRow(rid: string, now: int) returns (acts: seq<Action>)
      modifies this`openIncidents, this`recent, this`badStreak, this`badCond, this`clearStreak
      ensures (View(), acts) == OnClear(cfg, old(View()), rid, now)
    {
      badStreak := badStreak[rid := 0];
      badCond := badCond - {rid};
      if rid !in openIncidents { return []; }
      clearStreak := clearStreak[rid := Count(clearStreak, rid) + 1];
      if clearStreak[rid] < cfg.clearPolls { return []; }
      var a := ResolveIncident(rid, now);
      return [a];
    }

    method ProcessRows(hash: IdHash, rows: seq<Row>, now: int) returns (acts: seq<Action>)
      modifies this
      ensures cfg == old(cfg) && (View(), acts) == OnRows(cfg, hash, old(View()), rows, now)
    {
      acts := [];
      for n := 0 to |rows|
        invariant cfg == old(cfg) && (View(), acts) == OnRows(cfg, hash, old(View()), rows[..n], now)
      {
        var row := rows[n];
        assert rows[..n + 1][..n] == rows[..n];
        var more := [];
        if row.id != "" {
          missing := missing[row.id := 0];
          if row.bad.Some? { more := OnBadRow(hash, row.id, row.bad.value, now); }
          else { more := OnClearRow(row.id, now); }
        }
        acts := acts + more;
      }
      assert rows[..|rows|] == rows;
    }

    /** A robot that sent nothing: its open incident, if any, is one poll closer to being stale. */
    method CountAbsent(rid: string, now: int) returns (acts: seq<Action>)
      modifies this`openIncidents, this`recent, this`clearStreak, this`missing
      ensures (View(), acts) == OnAbsent(cfg, old(View()), rid, now)
    {
      if rid !in openIncidents { return []; }
      missing := missing[rid := Count(missing, rid) + 1];
      if missing[rid] <= cfg.stalePolls { return []; }
      var a := ResolveIncident(rid, now);
      return [a];
    }

    method SweepStale(rows: seq<Row>, order: seq<string>, now: int) returns (acts: seq<Action>)
      modifies this`openIncidents, this`recent, this`clearStreak, this`missing
      ensures (View(), acts) == Sweep(cfg, old(View()), rows, order, now)
    {
      acts := [];
      for n := 0 to |order|
        invariant (View(), acts) == Sweep(cfg, old(View()), rows, order[..n], now)
      {
        var rid := order[n];
        assert order[..n + 1][..n] == order[..n];
        if !Seen(rows, rid) {
          var more := CountAbsent(rid, now);
          acts := acts + more;
        }
      }
      assert order[..|order|] == order;
    }

    /** The open incidents in some order: dictionary order plays no part in what is proved. */
    method ListOpen() returns (order: seq<string>)
      ensures Lists(order, openIncidents)
    {
      order := [];
      var rest := openIncidents.Keys;
      while rest != {}
        invariant rest <= openIncidents.Keys && Distinct(order)
        invariant forall rid :: rid in order <==> rid in openIncidents && rid !in rest
      {
        var rid :| rid in rest;
        order := order + [rid];
        rest := rest - {rid};
      }
    }

    /** Processes one poll's snapshot and returns the actions it implies. */
    method Poll(hash: IdHash, rows: seq<Row>, now: int) returns (acts: seq<Action>, order: seq<string>)
      modifies this
      ensures cfg == old(cfg)
      ensures Lists(order, OnRows(cfg, hash, old(View()), rows, now).0.open)
      ensures (View(), acts) == Observe(cfg, hash, old(View()), rows, now, order)
    {
      acts := ProcessRows(hash, rows, now);
      order := ListOpen();
      var more := SweepStale(rows, order, now);
      recent := map rid | rid in recent && !Expired(cfg, recent[rid], now) :: recent[rid];
      acts := acts + more;
    }
  }
}
