/** The detector's counters implement a specification that only looks at what each robot has shown so far. */
module IncidentHistory {
  import opened Options
  import opened IncidentEngine
  import opened IncidentSlots

  // ---- the specification: what was seen of one robot -------------------------

  /** One poll as seen for one robot, and when. */
  datatype Sight = Sight(obs: Obs, at: int)

  /** Length of the run of equal elements at the end of s. */
  function TailRun<T(==)>(s: seq<T>): nat {
    if |s| < 2 then |s|
    else if s[|s| - 1] == s[|s| - 2] then TailRun(s[..|s| - 1]) + 1
    else 1
  }

  lemma {:induction false} TailRunIsMaximal<T>(s: seq<T>)
    ensures TailRun(s) <= |s|
    ensures forall i | |s| - TailRun(s) <= i < |s| :: s[i] == s[|s| - 1]
    ensures TailRun(s) < |s| ==> s[|s| - 1 - TailRun(s)] != s[|s| - 1]
  {
    if |s| >= 2 { TailRunIsMaximal(s[..|s| - 1]); }
  }

  /** The polls in which the robot appeared at all. */
  function Appearances(h: seq<Sight>): seq<Obs> {
    if h == [] then []
    else Appearances(h[..|h| - 1]) + (if h[|h| - 1].obs == Absent then [] else [h[|h| - 1].obs])
  }

  function Last(s: seq<Obs>): Option<Obs> { if s == [] then None else Some(s[|s| - 1]) }

  /** Latest run of appearances with one and the same not-operating condition. */
  function BadRun(h: seq<Sight>): nat {
    var a := Appearances(h);
    if a != [] && a[|a| - 1].Bad? then TailRun(a) else 0
  }

  function ClearRun(h: seq<Sight>): nat {
    var a := Appearances(h);
    if a != [] && a[|a| - 1].Clear? then TailRun(a) else 0
  }

  /** Latest run of polls without the robot. */
  function AbsentRun(h: seq<Sight>): nat {
    if h == [] || h[|h| - 1].obs != Absent then 0 else AbsentRun(h[..|h| - 1]) + 1
  }

  /** The robot's incident as history has it: the open one (id, opened at), and the one last resolved (and when). */
  datatype Verdict = Verdict(open: Option<(string, int)>, last: Option<(string, int, int)>)

  predicate ReopensAt(cfg: Config, v: Verdict, at: int) {
    v.last.Some? && at - v.last.value.2 <= cfg.reopenWindow
  }

  /**
    An incident opens at an appearance when none is open and the latest run of one not-operating condition has
    reached `pendingPolls`; it is the last one again if that was resolved within the re-open window. It resolves
    on the `clearPolls`-th clear appearance in a row, or after more than `stalePolls` absent polls in a row.
   */
  function Judge(cfg: Config, hash: IdHash, rid: string, first: Option<(string, int)>, h: seq<Sight>): Verdict {
    if h == [] then Verdict(first, None)
    else
      var v := Judge(cfg, hash, rid, first, h[..|h| - 1]);
      var s := h[|h| - 1];
      if v.open.Some? then
        if (s.obs == Clear && ClearRun(h) >= cfg.clearPolls) || (s.obs == Absent && AbsentRun(h) > cfg.stalePolls)
        then Verdict(None, Some((v.open.value.0, v.open.value.1, s.at)))
        else v
      else if s.obs.Bad? && BadRun(h) >= cfg.pendingPolls then
        Verdict(Some(if ReopensAt(cfg, v, s.at) then (v.last.value.0, v.last.value.1)
                     else (hash(rid, s.obs.c, s.at), s.at)),
                None)
      else v
  }

  /** With sane thresholds the resolving poll is exactly the first that reaches one of them. */
  lemma {:induction false} ResolvesExactly(
      cfg: Config, hash: IdHash, rid: string, first: Option<(string, int)>, h: seq<Sight>)
    requires cfg.clearPolls >= 1 && cfg.stalePolls >= 0
    ensures Judge(cfg, hash, rid, first, h).open.Some? ==>
      ClearRun(h) < cfg.clearPolls && AbsentRun(h) <= cfg.stalePolls
    decreases |h|
  {
    assert ClearRun([]) == 0 && AbsentRun([]) == 0;
    hide Appearances, BadRun, ClearRun, AbsentRun, ReopensAt;
    if h != [] {
      ResolvesExactly(cfg, hash, rid, first, h[..|h| - 1]);
      RunsGrow(h[..|h| - 1], h[|h| - 1]);
      assert h == h[..|h| - 1] + [h[|h| - 1]];
    }
  }

  lemma RunsGrow(h: seq<Sight>, s: Sight)
    ensures var a, g := Appearances(h), h + [s];
      && Appearances(g) == (if s.obs == Absent then a else a + [s.obs])
      && BadRun(g) == (if s.obs == Absent then BadRun(h)
                       else if s.obs == Clear then 0
                       else if Last(a) == Some(s.obs) then BadRun(h) + 1 else 1)
      && ClearRun(g) == (if s.obs == Absent then ClearRun(h) else if s.obs == Clear then ClearRun(h) + 1 else 0)
      && AbsentRun(g) == (if s.obs == Absent then AbsentRun(h) + 1 else 0)
  {
    var a, g := Appearances(h), h + [s];
    assert g[..|h|] == h;
    var b := a + [s.obs];
    assert b[..|a|] == a;
    if s.obs == Absent { assert Appearances(g) == a + []; }
  }

  // ---- counters refine history -----------------------------------------------

  ghost predicate Refines(cfg: Config, s: Slot, v: Verdict, h: seq<Sight>) {
    && s.bad == BadRun(h)
    && (s.cond.Some? ==> Last(Appearances(h)) == Some(Bad(s.cond.value)))
    && (s.cond.None? ==> (Last(Appearances(h)).Some? ==> Last(Appearances(h)) == Some(Clear)))
    && (s.open.Some? <==> v.open.Some?)
    && (s.open.Some? ==>
          && v.open.value == (s.open.value.id, s.open.value.openedAt) && v.last.None?
          && s.recent.None? && s.clear == ClearRun(h) && s.missing == AbsentRun(h))
    && (s.open.None? ==>
          if h != [] && ReopensAt(cfg, v, h[|h| - 1].at) then
            && s.recent.Some? && s.recent.value.resolvedAt == Some(v.last.value.2)
            && (s.recent.value.id, s.recent.value.openedAt) == (v.last.value.0, v.last.value.1)
          else s.recent.None?)
  }

  lemma PollRefines(
      cfg: Config, hash: IdHash, rid: string, first: Option<(string, int)>, s: Slot, h: seq<Sight>, x: Sight)
    requires h != [] ==> h[|h| - 1].at <= x.at
    requires Refines(cfg, s, Judge(cfg, hash, rid, first, h), h)
    requires h == [] ==> s.recent.None? && Judge(cfg, hash, rid, first, h).last.None?
    ensures Refines(cfg, SlotPoll(cfg, hash, rid, s, x.obs, x.at), Judge(cfg, hash, rid, first, h + [x]), h + [x])
  {
    hide TailRun, BadRun, ClearRun, AbsentRun, Appearances;
    RunsGrow(h, x);
    assert (h + [x])[..|h|] == h;
  }

  // ---- whole runs ------------------------------------------------------------

  datatype Poll = Poll(rows: seq<Row>, now: int, order: seq<string>)

  function PollAll(cfg: Config, hash: IdHash, e: Engine, polls: seq<Poll>): Engine {
    if polls == [] then e
    else
      var p := polls[|polls| - 1];
      Observe(cfg, hash, PollAll(cfg, hash, e, polls[..|polls| - 1]), p.rows, p.now, p.order).0
  }

  /** Each poll has one row per robot, and the clock never runs backwards. */
  ghost predicate Orderly(cfg: Config, hash: IdHash, e: Engine, polls: seq<Poll>) {
    polls != [] ==>
      var front, p := polls[..|polls| - 1], polls[|polls| - 1];
      && Orderly(cfg, hash, e, front)
      && ValidPoll(cfg, hash, PollAll(cfg, hash, e, front), p.rows, p.now, p.order)
      && (front != [] ==> front[|front| - 1].now <= p.now)
  }

  function HistoryOf(polls: seq<Poll>, rid: string): seq<Sight> {
    if polls == [] then []
    else HistoryOf(polls[..|polls| - 1], rid) + [Sight(ObsOf(polls[|polls| - 1].rows, rid), polls[|polls| - 1].now)]
  }

  /** A detector as it starts: counters empty, at most some incidents taken over from the table. */
  ghost predicate JustStarted(e: Engine) {
    e == EmptyEngine.(open := e.open)
  }

  function TakenOver(e: Engine, rid: string): Option<(string, int)> {
    if rid in e.open then Some((e.open[rid].id, e.open[rid].openedAt)) else None
  }

  lemma {:induction false} SlotRefinesHistory(
      cfg: Config, hash: IdHash, e: Engine, polls: seq<Poll>, rid: string)
    requires JustStarted(e) && Orderly(cfg, hash, e, polls) && rid != ""
    ensures var h := HistoryOf(polls, rid);
      && |h| == |polls| && (h != [] ==> h[|h| - 1].at == polls[|polls| - 1].now)
      && Refines(cfg, SlotOf(PollAll(cfg, hash, e, polls), rid), Judge(cfg, hash, rid, TakenOver(e, rid), h), h)
    decreases |polls|
  {
    if polls == [] {
      assert Appearances([]) == [];
    } else {
      var front, p := polls[..|polls| - 1], polls[|polls| - 1];
      SlotRefinesHistory(cfg, hash, e, front, rid);
      var k := PollAll(cfg, hash, e, front);
      ObserveTouchesSlots(cfg, hash, k, p.rows, p.now, p.order, rid);
      PollRefines(cfg, hash, rid, TakenOver(e, rid), SlotOf(k, rid), HistoryOf(front, rid),
                  Sight(ObsOf(p.rows, rid), p.now));
    }
  }

  /**
    Over any run of polls with fixed thresholds, from a cold start or a restart, the detector's open incident of
    every robot is the one its history calls for, and no robot is both open and recently resolved.
   */
  lemma DetectorRefinesHistory(cfg: Config, hash: IdHash, e: Engine, polls: seq<Poll>, rid: string)
    requires JustStarted(e) && Orderly(cfg, hash, e, polls) && rid != ""
    ensures var k, v := PollAll(cfg, hash, e, polls), Judge(cfg, hash, rid, TakenOver(e, rid), HistoryOf(polls, rid));
      && (rid in k.open <==> v.open.Some?)
      && (rid in k.open ==> (k.open[rid].id, k.open[rid].openedAt) == v.open.value)
      && !(rid in k.open && rid in k.recent)
  {
    SlotRefinesHistory(cfg, hash, e, polls, rid);
  }
}
