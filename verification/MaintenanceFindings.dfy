/** Predictive maintenance findings: the motor heuristic on top of the fit, and one open finding per component. */
module MaintenanceFindings {
  import opened Options
  import opened LinearTrend

  // ---- the motor heuristic -----------------------------------------------------------------

  datatype Config = Config(slopePerHour: real, critical: real, minSamples: nat)

  datatype Metric = Metric(crossed: bool, rulDays: real, confidence: real)

  const NORMAL := Metric(false, 0.0, 0.0)

  function Clamp(v: real, lo: real, hi: real): real { MaxReal(lo, MinReal(hi, v)) }

  /** Without slope there is no fit, so the remaining life is never divided by zero. */
  lemma FlatHasNoFit(p: seq<Point>)
    ensures Trend(p).0 == 0.0 ==> Trend(p).1 == 0.0
  {
    if |p| >= 2 && Sxx(p, MeanX(p)) > 0.0 && Trend(p).0 == 0.0 {
      var sxx, sxy := Sxx(p, MeanX(p)), Sxy(p, MeanX(p), MeanY(p));
      assert sxy == (sxy / sxx) * sxx;
    }
  }

  /** `samples` are the readings with both a time (in hours) and a temperature, oldest first. */
  function MotorMetric(cfg: Config, samples: seq<Point>): Option<Metric>
    requires cfg.minSamples >= 1
  {
    if |samples| < cfg.minSamples then None
    else
      var pts := Shift(samples, samples[0].x);
      if pts[|pts| - 1].x <= 0.0 then None
      else
        var (slope, r2) := Trend(pts);
        FlatHasNoFit(pts);
        if slope < cfg.slopePerHour || r2 < 0.5 then Some(NORMAL)
        else
          Some(Metric(true, Clamp((cfg.critical - pts[|pts| - 1].y) / slope / 24.0, 0.5, 60.0),
                      0.35 + 0.5 * r2 + if |pts| >= 10 then 0.1 else 0.0))
  }

  /**
    The verdict does not depend on when the window starts: it is computable exactly with enough samples over a
    positive stretch of time, and crossed exactly if the fit over the raw times is steep and good enough. The
    confidence of a crossing lies in 0.6 .. 0.95, so clamping it to 0 .. 1 afterwards changes nothing.
   */
  lemma MotorVerdict(cfg: Config, samples: seq<Point>)
    requires cfg.minSamples >= 1
    ensures var m := MotorMetric(cfg, samples); var (slope, r2) := Trend(samples);
      && (m.Some? <==> |samples| >= cfg.minSamples && samples[|samples| - 1].x > samples[0].x)
      && (m.Some? ==> (m.value.crossed <==> slope >= cfg.slopePerHour && r2 >= 0.5))
      && (m.Some? && m.value.crossed ==>
            0.5 <= m.value.rulDays <= 60.0 && 0.6 <= m.value.confidence <= 0.95
            && Clamp(m.value.confidence, 0.0, 1.0) == m.value.confidence)
  {
    if |samples| >= cfg.minSamples {
      TrendIgnoresOrigin(samples, samples[0].x);
      CoefficientOfDetermination(samples);
      hide Trend;
    }
  }

  // ---- one open finding per robot and component ------------------------------------------------

  type Key = (string, string)

  datatype Finding = Finding(id: string, openedAt: int)

  datatype Action = Open(id: string, key: Key, at: int) | Clear(id: string)

  /** The components there are heuristics for. */
  const COMPONENTS := {"drive motor", "battery", "drivetrain"}

  /** An open row read back from the table; a time that cannot be read is none. */
  datatype OpenRow = OpenRow(id: string, robot: string, component: string, createdAt: Option<int>)

  /** What a restart makes of the open rows; a row that names no robot or no known component is passed over. */
  function Seed(open: map<Key, Finding>, rows: seq<OpenRow>, now: int): map<Key, Finding> {
    if rows == [] then open
    else
      var before, r := Seed(open, rows[..|rows| - 1], now), rows[|rows| - 1];
      if r.robot == "" || r.component !in COMPONENTS then before
      else before[(r.robot, r.component) := Finding(r.id, if r.createdAt.Some? then r.createdAt.value else now)]
  }

  /** A name for a finding of a robot's component opened at a time. */
  type IdHash = (Key, int) -> string

  /** The verdict on one component in one window: None when it cannot be computed. */
  datatype Verdict = Verdict(key: Key, metric: Option<Metric>, now: int)

  function Transition(hash: IdHash, open: map<Key, Finding>, v: Verdict): (map<Key, Finding>, seq<Action>) {
    if v.metric.None? then (open, [])
    else if v.metric.value.crossed then
      if v.key in open then (open, [])
      else
        var f := Finding(hash(v.key, v.now), v.now);
        (open[v.key := f], [Open(f.id, v.key, v.now)])
    else if v.key in open then (open - {v.key}, [Clear(open[v.key].id)])
    else (open, [])
  }

  class MaintenanceEngine {
    var openFindings: map<Key, Finding>
    const hash: IdHash

    constructor (hash: IdHash)
      ensures openFindings == map[] && this.hash == hash
    {
      this.hash := hash;
      openFindings := map[];
    }

    /** Rebuilds the open findings from the open rows after a restart. */
    method SeedFrom(rows: seq<OpenRow>, now: int)
      modifies this
      ensures openFindings == Seed(old(openFindings), rows, now)
    {
      for n := 0 to |rows|
        invariant openFindings == Seed(old(openFindings), rows[..n], now)
      {
        assert rows[..n + 1][..n] == rows[..n];
        var r := rows[n];
        if r.robot != "" && r.component in COMPONENTS {
          var created := if r.createdAt.Some? then r.createdAt.value else now;
          openFindings := openFindings[(r.robot, r.component) := Finding(r.id, created)];
        }
      }
      assert rows[..|rows|] == rows;
    }

    /** One component's verdict; one that cannot be computed neither opens nor clears. */
    method Judge(v: Verdict) returns (actions: seq<Action>)
      modifies this
      ensures (openFindings, actions) == Transition(hash, old(openFindings), v)
    {
      if v.metric.None? { return []; }
      if v.metric.value.crossed {
        if v.key in openFindings { return []; }
        var f := Finding(hash(v.key, v.now), v.now);
        openFindings := openFindings[v.key := f];
        return [Open(f.id, v.key, v.now)];
      }
      if v.key !in openFindings { return []; }
      actions := [Clear(openFindings[v.key].id)];
      openFindings := openFindings - {v.key};
    }

    method Observe(verdicts: seq<Verdict>) returns (actions: seq<Action>)
      modifies this
      ensures (openFindings, actions) == After(hash, old(openFindings), verdicts)
    {
      actions := [];
      for n := 0 to |verdicts|
        invariant (openFindings, actions) == After(hash, old(openFindings), verdicts[..n])
      {
        assert verdicts[..n + 1][..n] == verdicts[..n];
        var more := Judge(verdicts[n]);
        actions := actions + more;
      }
      assert verdicts[..|verdicts|] == verdicts;
    }
  }

  function After(hash: IdHash, open: map<Key, Finding>, vs: seq<Verdict>): (map<Key, Finding>, seq<Action>) {
    if vs == [] then (open, [])
    else
      var (before, actions) := After(hash, open, vs[..|vs| - 1]);
      var (now, more) := Transition(hash, before, vs[|vs| - 1]);
      (now, actions + more)
  }

  // ---- against the history of verdicts ---------------------------------------------------------------

  /** The verdicts on one component that could be computed. */
  function Computable(vs: seq<Verdict>, key: Key): seq<Verdict> {
    if vs == [] then []
    else
      var v := vs[|vs| - 1];
      Computable(vs[..|vs| - 1], key) + if v.key == key && v.metric.Some? then [v] else []
  }

  predicate Crossed(v: Verdict) { v.metric.Some? && v.metric.value.crossed }

  /** Where the latest unbroken stretch of crossed verdicts begins. */
  function StretchStart(c: seq<Verdict>): nat
    ensures StretchStart(c) <= |c|
  {
    if c == [] || !Crossed(c[|c| - 1]) then |c| else StretchStart(c[..|c| - 1])
  }

  /**
    From whatever findings the engine started with, empty or read back, a component has an open finding exactly if its
    latest computable verdict is crossed, or it has none yet and one was open at the start. The finding is the one
    open at the start as long as every computable verdict since was crossed, and dates from the first verdict of the
    latest stretch otherwise: one finding for each stretch, across restarts.
   */
  lemma {:induction false} OneFindingPerStretch(hash: IdHash, start: map<Key, Finding>, vs: seq<Verdict>, key: Key)
    ensures var open, c := After(hash, start, vs).0, Computable(vs, key); var k := StretchStart(c);
      && (key in open <==> if c == [] then key in start else Crossed(c[|c| - 1]))
      && (key in open ==>
            if k == 0 && key in start then open[key] == start[key]
            else k < |c| && open[key] == Finding(hash(key, c[k].now), c[k].now))
  {
    if vs != [] {
      var front, v := vs[..|vs| - 1], vs[|vs| - 1];
      OneFindingPerStretch(hash, start, front, key);
      var c, d := Computable(front, key), Computable(vs, key);
      if v.key == key && v.metric.Some? {
        assert d[..|d| - 1] == c;
      } else {
        assert d == c;
      }
    }
  }

  /** The component is in a stretch: of crossed verdicts, or of none since a finding that was open at the start. */
  ghost predicate InStretch(start: map<Key, Finding>, c: seq<Verdict>, key: Key) {
    if c == [] then key in start else Crossed(c[|c| - 1])
  }

  /** Actions are edges of the computable verdicts, and a finding is cleared under the id it was opened with. */
  lemma ActionsAreEdges(hash: IdHash, start: map<Key, Finding>, vs: seq<Verdict>, v: Verdict)
    ensures var actions, c := Transition(hash, After(hash, start, vs).0, v).1, Computable(vs, v.key);
      var k, was := StretchStart(c), InStretch(start, c, v.key);
      && (Crossed(v) && !was ==> actions == [Open(hash(v.key, v.now), v.key, v.now)])
      && (v.metric.Some? && !Crossed(v) && was ==>
            if k == 0 && v.key in start then actions == [Clear(start[v.key].id)]
            else k < |c| && actions == [Clear(hash(v.key, c[k].now))])
      && (v.metric.None? || (Crossed(v) <==> was) ==> actions == [])
  {
    OneFindingPerStretch(hash, start, vs, v.key);
  }

  // ---- what a restart reads ---------------------------------------------------------------------------

  predicate Names(r: OpenRow, key: Key) {
    r.robot != "" && r.component in {"drive motor", "battery", "drivetrain"} && (r.robot, r.component) == key
  }

  /** After a restart a component has the finding of its last readable row, or what it had if there is none. */
  lemma {:induction false} SeedReads(open: map<Key, Finding>, rows: seq<OpenRow>, now: int, key: Key)
    returns (last: Option<nat>)
    ensures last.None? ==>
      (forall i | 0 <= i < |rows| :: !Names(rows[i], key))
      && (key in Seed(open, rows, now) <==> key in open) && (key in open ==> Seed(open, rows, now)[key] == open[key])
    ensures last.Some? ==>
      && last.value < |rows| && Names(rows[last.value], key)
      && (forall i | last.value < i < |rows| :: !Names(rows[i], key))
      && var r := rows[last.value];
         key in Seed(open, rows, now)
         && Seed(open, rows, now)[key] == Finding(r.id, if r.createdAt.Some? then r.createdAt.value else now)
    decreases |rows|
  {
    if rows == [] {
      last := None;
    } else {
      var n := |rows| - 1;
      last := SeedReads(open, rows[..n], now, key);
      if Names(rows[n], key) { last := Some(n); }
    }
  }

  // ---- the numbers of a crossed motor ---------------------------------------------------------------

  /** The days until the last temperature reaches the critical one at the fitted slope, within half and sixty. */
  lemma MotorNumbers(cfg: Config, samples: seq<Point>)
    requires cfg.minSamples >= 1 && MotorMetric(cfg, samples).Some? && MotorMetric(cfg, samples).value.crossed
    ensures Trend(samples).0 != 0.0
    ensures var m, fit := MotorMetric(cfg, samples).value, Trend(samples);
      var days := (cfg.critical - samples[|samples| - 1].y) / fit.0 / 24.0;
      && m.rulDays == (if days < 0.5 then 0.5 else if days > 60.0 then 60.0 else days)
      && m.confidence == 0.35 + 0.5 * fit.1 + if |samples| >= 10 then 0.1 else 0.0
  {
    TrendIgnoresOrigin(samples, samples[0].x);
    FlatHasNoFit(samples);
    hide Trend;
  }
}
