/** Time accounting of the embedded backend: telemetry samples to capped spans to status buckets. */
module Utilisation {
  import opened Collections
  import opened Options

  datatype Sample = Sample(site: string, robot: string, at: real, status: string)

  datatype Span = Span(robot: string, status: string, secs: real, at: real)

  datatype Bucket = Active | Idle | Charging | Faulted | Other

  function BucketOf(status: string): Bucket {
    if status == "active" then Active
    else if status in {"idle", "paused"} then Idle
    else if status == "charging" then Charging
    else if status in {"fault", "estop", "degraded"} then Faulted
    else Other
  }

  /** The longest time one sample may stand for: 60 seconds unless given, then between 1 and 3600. */
  function GapCap(given: Option<int>): real {
    match given
    case None => 60.0
    case Some(n) => (if n < 1 then 1 else if n > 3600 then 3600 else n) as real
  }

  // ---- the samples of each robot, in time order ----------------------------------------------

  predicate InWindow(r: Sample, site: string, lo: real, hi: real) { r.site == site && lo <= r.at <= hi }

  function Kept(table: seq<Sample>, site: string, lo: real, hi: real): seq<Sample> {
    if table == [] then []
    else
      var last := table[|table| - 1];
      Kept(table[..|table| - 1], site, lo, hi) + if InWindow(last, site, lo, hi) then [last] else []
  }

  function RobotsOf(rows: seq<Sample>): seq<string> {
    if rows == [] then []
    else
      var before := RobotsOf(rows[..|rows| - 1]);
      before + if rows[|rows| - 1].robot in before then [] else [rows[|rows| - 1].robot]
  }

  function RowsOf(rows: seq<Sample>, robot: string): seq<Sample> {
    if rows == [] then []
    else RowsOf(rows[..|rows| - 1], robot) + if rows[|rows| - 1].robot == robot then [rows[|rows| - 1]] else []
  }

  /** Insert behind every sample that is not later, as a stable sort does. */
  function Insert(sorted: seq<Sample>, r: Sample): seq<Sample> {
    if sorted == [] || sorted[|sorted| - 1].at <= r.at then sorted + [r]
    else Insert(sorted[..|sorted| - 1], r) + [sorted[|sorted| - 1]]
  }

  function SortByTime(rows: seq<Sample>): seq<Sample> {
    if rows == [] then [] else Insert(SortByTime(rows[..|rows| - 1]), rows[|rows| - 1])
  }

  ghost predicate InOrder(rows: seq<Sample>) {
    forall i :: 0 <= i < |rows| - 1 ==> rows[i].at <= rows[i + 1].at
  }

  lemma {:induction false} InsertKeepsRows(sorted: seq<Sample>, r: Sample)
    ensures multiset(Insert(sorted, r)) == multiset(sorted) + multiset{r} && |Insert(sorted, r)| == |sorted| + 1
  {
    if sorted != [] && sorted[|sorted| - 1].at > r.at {
      var n := |sorted| - 1;
      InsertKeepsRows(sorted[..n], r);
      assert sorted == sorted[..n] + [sorted[n]];
    }
  }

  lemma {:induction false} InsertKeepsOrder(sorted: seq<Sample>, r: Sample)
    requires InOrder(sorted)
    ensures InOrder(Insert(sorted, r))
    ensures var out := Insert(sorted, r);
      |out| == |sorted| + 1 && (out[|sorted|] == r || (sorted != [] && out[|sorted|] == sorted[|sorted| - 1]))
  {
    if sorted != [] && sorted[|sorted| - 1].at > r.at {
      var n := |sorted| - 1;
      InsertKeepsOrder(sorted[..n], r);
      OneMoreInOrder(Insert(sorted[..n], r), sorted[n]);
    } else {
      OneMoreInOrder(sorted, r);
    }
  }

  lemma OneMoreInOrder(rows: seq<Sample>, r: Sample)
    requires InOrder(rows) && (rows != [] ==> rows[|rows| - 1].at <= r.at)
    ensures InOrder(rows + [r])
  {
  }

  lemma {:induction false} SortedByTime(rows: seq<Sample>)
    ensures InOrder(SortByTime(rows)) && multiset(SortByTime(rows)) == multiset(rows)
    ensures |SortByTime(rows)| == |rows|
  {
    hide Insert;
    if rows != [] {
      var n := |rows| - 1;
      SortedByTime(rows[..n]);
      InsertKeepsOrder(SortByTime(rows[..n]), rows[n]);
      InsertKeepsRows(SortByTime(rows[..n]), rows[n]);
      assert rows == rows[..n] + [rows[n]];
    }
  }

  // ---- spans ------------------------------------------------------------------------------------

  function Next(rows: seq<Sample>, i: nat, hi: real): real
    requires i < |rows|
  {
    if i + 1 < |rows| then rows[i + 1].at else hi
  }

  function SpanAt(rows: seq<Sample>, i: nat, hi: real, gap: real): Span
    requires i < |rows|
  {
    Span(rows[i].robot, rows[i].status, MaxReal(MinReal(Next(rows, i, hi) - rows[i].at, gap), 0.0), rows[i].at)
  }

  function RobotSpans(rows: seq<Sample>, hi: real, gap: real): seq<Span> {
    seq(|rows|, i requires 0 <= i < |rows| => SpanAt(rows, i, hi, gap))
  }

  function SpansOf(rows: seq<Sample>, robots: seq<string>, hi: real, gap: real): seq<Span> {
    if robots == [] then []
    else
      var n := |robots| - 1;
      SpansOf(rows, robots[..n], hi, gap) + RobotSpans(SortByTime(RowsOf(rows, robots[n])), hi, gap)
  }

  function AllSpans(table: seq<Sample>, site: string, lo: real, hi: real, gap: real): seq<Span> {
    var rows := Kept(table, site, lo, hi);
    SpansOf(rows, RobotsOf(rows), hi, gap)
  }

  ghost predicate Grouped(robots: seq<string>, groups: map<string, seq<Sample>>, rows: seq<Sample>) {
    && robots == RobotsOf(rows)
    && (forall r :: r in groups <==> r in robots)
    && (forall r :: r in groups ==> groups[r] == RowsOf(rows, r))
  }

  lemma GroupedSnoc(robots: seq<string>, groups: map<string, seq<Sample>>, rows: seq<Sample>, row: Sample)
    requires Grouped(robots, groups, rows)
    ensures row.robot in groups ==>
      Grouped(robots, groups[row.robot := groups[row.robot] + [row]], rows + [row])
    ensures row.robot !in groups ==> Grouped(robots + [row.robot], groups[row.robot := [row]], rows + [row])
  {
    assert (rows + [row])[..|rows|] == rows;
    if row.robot !in groups { NoRows(rows, row.robot); }
  }

  lemma KeptSnoc(table: seq<Sample>, n: nat, site: string, lo: real, hi: real)
    requires n < |table|
    ensures var before := Kept(table[..n], site, lo, hi);
      Kept(table[..n + 1], site, lo, hi) == if InWindow(table[n], site, lo, hi) then before + [table[n]] else before
  {
    assert table[..n + 1][..n] == table[..n];
  }

  method GroupByRobot(table: seq<Sample>, site: string, lo: real, hi: real)
    returns (robots: seq<string>, groups: map<string, seq<Sample>>)
    ensures Grouped(robots, groups, Kept(table, site, lo, hi))
  {
    robots, groups := [], map[];
    for n := 0 to |table|
      invariant Grouped(robots, groups, Kept(table[..n], site, lo, hi))
    {
      hide Grouped;
      KeptSnoc(table, n, site, lo, hi);
      var row := table[n];
      if InWindow(row, site, lo, hi) {
        GroupedSnoc(robots, groups, Kept(table[..n], site, lo, hi), row);
        if row.robot in groups {
          groups := groups[row.robot := groups[row.robot] + [row]];
        } else {
          robots, groups := robots + [row.robot], groups[row.robot := [row]];
        }
      }
    }
    assert table[..|table|] == table;
  }

  lemma {:induction false} NoRows(rows: seq<Sample>, robot: string)
    requires robot !in RobotsOf(rows)
    ensures RowsOf(rows, robot) == []
  {
    if rows != [] { NoRows(rows[..|rows| - 1], robot); }
  }

  /** Samples grouped by robot, sorted, and each one stretched to the next, at most by the cap. */
  method Spans(table: seq<Sample>, site: string, lo: real, hi: real, gap: real) returns (out: seq<Span>)
    ensures out == AllSpans(table, site, lo, hi, gap)
  {
    var robots, groups := GroupByRobot(table, site, lo, hi);
    ghost var kept := Kept(table, site, lo, hi);
    hide Kept, RobotsOf, RowsOf, SortByTime;
    out := [];
    for n := 0 to |robots|
      invariant out == SpansOf(kept, robots[..n], hi, gap)
    {
      assert robots[..n + 1][..n] == robots[..n];
      var rows := SortByTime(groups[robots[n]]);
      var mine: seq<Span> := [];
      for i := 0 to |rows|
        invariant mine == RobotSpans(rows, hi, gap)[..i]
      {
        var nxt := if i + 1 < |rows| then rows[i + 1].at else hi;
        var secs := MinReal(nxt - rows[i].at, gap);
        mine := mine + [Span(rows[i].robot, rows[i].status, MaxReal(secs, 0.0), rows[i].at)];
      }
      out := out + mine;
    }
    assert robots[..|robots|] == robots;
  }

  // ---- sums over spans ------------------------------------------------------------------------------

  /** The columns of a report: all covered time, or the time in one bucket. */
  datatype Column = Covered | In(bucket: Bucket)

  function Secs(c: Column, s: Span): real {
    if c.Covered? || BucketOf(s.status) == c.bucket then s.secs else 0.0
  }

  function Sum(c: Column, spans: seq<Span>): real {
    if spans == [] then 0.0 else Sum(c, spans[..|spans| - 1]) + Secs(c, spans[|spans| - 1])
  }

  function Where<K(==)>(spans: seq<Span>, key: Span -> K, k: K): seq<Span> {
    if spans == [] then []
    else
      var last := spans[|spans| - 1];
      Where(spans[..|spans| - 1], key, k) + if key(last) == k then [last] else []
  }

  ghost function SumOver<K>(c: Column, spans: seq<Span>, key: Span -> K, keys: seq<K>): real {
    if keys == [] then 0.0
    else SumOver(c, spans, key, keys[..|keys| - 1]) + Sum(c, Where(spans, key, keys[|keys| - 1]))
  }

  lemma WhereSnoc<K>(c: Column, spans: seq<Span>, key: Span -> K, k: K)
    requires spans != []
    ensures var last := spans[|spans| - 1];
      Sum(c, Where(spans, key, k))
      == Sum(c, Where(spans[..|spans| - 1], key, k)) + if key(last) == k then Secs(c, last) else 0.0
  {
    var after := Where(spans, key, k);
    var before := Where(spans[..|spans| - 1], key, k);
    if key(spans[|spans| - 1]) == k {
      assert after[..|after| - 1] == before;
    } else {
      assert after == before;
    }
  }

  /** One more span adds its time to the sum of its key, if that is among the keys, and to no other. */
  lemma {:induction false} OneMoreSpan<K(!new)>(c: Column, spans: seq<Span>, key: Span -> K, keys: seq<K>)
    requires Distinct(keys) && spans != []
    ensures var last := spans[|spans| - 1];
      SumOver(c, spans, key, keys)
      == SumOver(c, spans[..|spans| - 1], key, keys) + if key(last) in keys then Secs(c, last) else 0.0
  {
    hide Where, Sum, Secs;
    if keys != [] {
      var n := |keys| - 1;
      OneMoreSpan(c, spans, key, keys[..n]);
      assert keys == keys[..n] + [keys[n]];
      assert keys[n] !in keys[..n];
      WhereSnoc(c, spans, key, keys[n]);
    }
  }

  /** Splitting spans by any key loses and invents no time. */
  lemma {:induction false} SplitKeepsTime<K(!new)>(c: Column, spans: seq<Span>, key: Span -> K, keys: seq<K>)
    requires Distinct(keys) && forall s :: s in spans ==> key(s) in keys
    ensures SumOver(c, spans, key, keys) == Sum(c, spans)
  {
    if spans == [] {
      NothingToSplit(c, key, keys);
    } else {
      SplitKeepsTime(c, spans[..|spans| - 1], key, keys);
      OneMoreSpan(c, spans, key, keys);
    }
  }

  lemma {:induction false} NothingToSplit<K>(c: Column, key: Span -> K, keys: seq<K>)
    ensures SumOver(c, [], key, keys) == 0.0
  {
    if keys != [] { NothingToSplit(c, key, keys[..|keys| - 1]); }
  }

  // ---- what the time of one robot adds up to ----------------------------------------------------------

  /** The time beyond the cap that the first n samples leave uncovered. */
  ghost function Uncovered(rows: seq<Sample>, n: nat, hi: real, gap: real): real
    requires n <= |rows|
  {
    if n == 0 then 0.0
    else Uncovered(rows, n - 1, hi, gap) + MaxReal(Next(rows, n - 1, hi) - rows[n - 1].at - gap, 0.0)
  }

  lemma {:induction false} SpansTelescope(rows: seq<Sample>, n: nat, hi: real, gap: real)
    requires rows != [] && n <= |rows| && gap >= 0.0
    requires InOrder(rows) && rows[|rows| - 1].at <= hi
    ensures Sum(Covered, RobotSpans(rows, hi, gap)[..n]) + Uncovered(rows, n, hi, gap)
         == (if n < |rows| then rows[n].at else hi) - rows[0].at
    ensures Sum(Covered, RobotSpans(rows, hi, gap)[..n]) >= 0.0 && Uncovered(rows, n, hi, gap) >= 0.0
  {
    if n > 0 {
      SpansTelescope(rows, n - 1, hi, gap);
      var spans := RobotSpans(rows, hi, gap);
      assert spans[..n][..n - 1] == spans[..n - 1];
      assert spans[n - 1] == SpanAt(rows, n - 1, hi, gap);
    }
  }

  ghost predicate WithinWindow(rows: seq<Sample>, robot: string, lo: real, hi: real) {
    forall i :: 0 <= i < |rows| ==> rows[i].robot == robot && lo <= rows[i].at <= hi
  }

  lemma {:induction false} KeptInWindow(table: seq<Sample>, site: string, lo: real, hi: real, robot: string)
    ensures WithinWindow(RowsOf(Kept(table, site, lo, hi), robot), robot, lo, hi)
  {
    if table != [] {
      var n := |table| - 1;
      KeptInWindow(table[..n], site, lo, hi, robot);
      var kept := Kept(table, site, lo, hi);
      if InWindow(table[n], site, lo, hi) {
        assert kept[..|kept| - 1] == Kept(table[..n], site, lo, hi);
      } else {
        assert kept == Kept(table[..n], site, lo, hi);
      }
    }
  }

  lemma SortKeepsWindow(rows: seq<Sample>, robot: string, lo: real, hi: real)
    requires WithinWindow(rows, robot, lo, hi)
    ensures WithinWindow(SortByTime(rows), robot, lo, hi)
  {
    SortedByTime(rows);
    var sorted := SortByTime(rows);
    forall i | 0 <= i < |sorted|
      ensures sorted[i].robot == robot && lo <= sorted[i].at <= hi
    {
      assert sorted[i] in multiset(sorted);
      assert sorted[i] in rows;
    }
  }

  function OfRobot(): Span -> string { (s: Span) => s.robot }

  lemma {:induction false} WhereJoin<K>(a: seq<Span>, b: seq<Span>, key: Span -> K, k: K)
    ensures Where(a + b, key, k) == Where(a, key, k) + Where(b, key, k)
  {
    if b == [] {
      assert a + b == a;
    } else {
      WhereJoin(a, b[..|b| - 1], key, k);
      assert (a + b)[..|a + b| - 1] == a + b[..|b| - 1];
    }
  }

  lemma {:induction false} WhereAll<K>(spans: seq<Span>, key: Span -> K, k: K, all: bool)
    requires forall s :: s in spans ==> (key(s) == k) == all
    ensures Where(spans, key, k) == if all then spans else []
  {
    if spans != [] { WhereAll(spans[..|spans| - 1], key, k, all); }
  }

  lemma SpansCarryRobot(rows: seq<Sample>, robot: string, hi: real, gap: real, k: string)
    requires forall i :: 0 <= i < |rows| ==> rows[i].robot == robot
    ensures Where(RobotSpans(rows, hi, gap), OfRobot(), k) == if k == robot then RobotSpans(rows, hi, gap) else []
  {
    WhereAll(RobotSpans(rows, hi, gap), OfRobot(), k, k == robot);
  }

  ghost function SpansOfRobot(
      table: seq<Sample>, site: string, lo: real, hi: real, gap: real, robot: string): seq<Span> {
    RobotSpans(SortByTime(RowsOf(Kept(table, site, lo, hi), robot)), hi, gap)
  }

  /** Among all spans, those of a robot are the ones made from its own sorted samples. */
  lemma {:induction false} SpansPerRobot(table: seq<Sample>, site: string, lo: real, hi: real, gap: real,
                                         robots: seq<string>, k: string)
    requires Distinct(robots)
    ensures Where(SpansOf(Kept(table, site, lo, hi), robots, hi, gap), OfRobot(), k)
         == if k in robots then SpansOfRobot(table, site, lo, hi, gap, k) else []
  {
    if robots != [] {
      var n, kept := |robots| - 1, Kept(table, site, lo, hi);
      assert robots == robots[..n] + [robots[n]];
      assert robots[n] !in robots[..n];
      SpansPerRobot(table, site, lo, hi, gap, robots[..n], k);
      var rows := SortByTime(RowsOf(kept, robots[n]));
      KeptInWindow(table, site, lo, hi, robots[n]);
      SortKeepsWindow(RowsOf(kept, robots[n]), robots[n], lo, hi);
      SpansCarryRobot(rows, robots[n], hi, gap, k);
      WhereJoin(SpansOf(kept, robots[..n], hi, gap), RobotSpans(rows, hi, gap), OfRobot(), k);
    }
  }

  lemma {:induction false} RobotsDistinct(rows: seq<Sample>)
    ensures Distinct(RobotsOf(rows))
  {
    if rows != [] { RobotsDistinct(rows[..|rows| - 1]); }
  }

  /**
    A robot's covered time is the time from its first sample to the end of the window, less what each gap exceeds
    the cap by; so it is never negative and never more than the window.
   */
  lemma CoveredTimeOfRobot(table: seq<Sample>, site: string, lo: real, hi: real, gap: real, robot: string)
    requires lo < hi && gap >= 0.0
    ensures var covered := Sum(Covered, Where(AllSpans(table, site, lo, hi, gap), OfRobot(), robot));
      var rows := SortByTime(RowsOf(Kept(table, site, lo, hi), robot));
      && 0.0 <= covered <= hi - lo
      && (rows != [] ==> covered == hi - rows[0].at - Uncovered(rows, |rows|, hi, gap))
      && (rows == [] ==> covered == 0.0)
  {
    hide SpansOf, Where, Uncovered, SortByTime, RowsOf, Kept;
    var kept := Kept(table, site, lo, hi);
    var rows := SortByTime(RowsOf(kept, robot));
    RobotsDistinct(kept);
    SpansPerRobot(table, site, lo, hi, gap, RobotsOf(kept), robot);
    if robot !in RobotsOf(kept) { NoRows(kept, robot); }
    SortedByTime(RowsOf(kept, robot));
    KeptInWindow(table, site, lo, hi, robot);
    SortKeepsWindow(RowsOf(kept, robot), robot, lo, hi);
    var spans := RobotSpans(rows, hi, gap);
    if rows != [] {
      SpansTelescope(rows, |rows|, hi, gap);
      assert spans[..|rows|] == spans;
    }
  }

  // ---- the two reports ------------------------------------------------------------------------------------

  datatype Totals = Totals(active: real, idle: real, charging: real, faulted: real, other: real, covered: real,
                           samples: nat)

  const NOTHING := Totals(0.0, 0.0, 0.0, 0.0, 0.0, 0.0, 0)

  function Entry(t: Totals, c: Column): real {
    match c
    case Covered => t.covered
    case In(Active) => t.active
    case In(Idle) => t.idle
    case In(Charging) => t.charging
    case In(Faulted) => t.faulted
    case In(Other) => t.other
  }

  /** One span into the covered time and its bucket; the series keeps no bucket for other time, the rollup does. */
  function Add(t: Totals, s: Span, series: bool): Totals {
    var u := t.(covered := t.covered + s.secs, samples := t.samples + 1);
    match BucketOf(s.status)
    case Active => u.(active := t.active + s.secs)
    case Idle => u.(idle := t.idle + s.secs)
    case Charging => u.(charging := t.charging + s.secs)
    case Faulted => u.(faulted := t.faulted + s.secs)
    case Other => if series then u else u.(other := t.other + s.secs)
  }

  function TotalsOf(spans: seq<Span>, series: bool): Totals {
    if spans == [] then NOTHING else Add(TotalsOf(spans[..|spans| - 1], series), spans[|spans| - 1], series)
  }

  /** A report has a row for every key that has spans, with the totals of those spans. */
  ghost predicate Tabulated<K(!new)>(per: map<K, Totals>, spans: seq<Span>, key: Span -> K, series: bool) {
    && (forall k :: k in per <==> Where(spans, key, k) != [])
    && (forall k :: k in per ==> per[k] == TotalsOf(Where(spans, key, k), series))
  }

  lemma WhereGrows<K>(spans: seq<Span>, key: Span -> K, k: K, s: Span)
    ensures Where(spans + [s], key, k) == if key(s) == k then Where(spans, key, k) + [s] else Where(spans, key, k)
  {
    assert (spans + [s])[..|spans|] == spans;
  }

  lemma TotalsGrow(mine: seq<Span>, s: Span, series: bool)
    ensures TotalsOf(mine + [s], series) == Add(if mine == [] then NOTHING else TotalsOf(mine, series), s, series)
  {
    assert (mine + [s])[..|mine|] == mine;
  }

  lemma TabulatedSnoc<K(!new)>(per: map<K, Totals>, spans: seq<Span>, key: Span -> K, series: bool, s: Span)
    requires Tabulated(per, spans, key, series)
    ensures var before := if key(s) in per then per[key(s)] else NOTHING;
      Tabulated(per[key(s) := Add(before, s, series)], spans + [s], key, series)
  {
    hide Add, Where, TotalsOf;
    forall k
      ensures Where(spans + [s], key, k) == if key(s) == k then Where(spans, key, k) + [s] else Where(spans, key, k)
    {
      WhereGrows(spans, key, k, s);
    }
    TotalsGrow(Where(spans, key, key(s)), s, series);
  }

  method Rollup(spans: seq<Span>) returns (per: map<string, Totals>)
    ensures Tabulated(per, spans, OfRobot(), false)
  {
    per := map[];
    for n := 0 to |spans|
      invariant Tabulated(per, spans[..n], OfRobot(), false)
    {
      hide Tabulated, Add;
      var s := spans[n];
      TabulatedSnoc(per, spans[..n], OfRobot(), false, s);
      assert spans[..n + 1] == spans[..n] + [s];
      per := per[s.robot := Add(if s.robot in per then per[s.robot] else NOTHING, s, false)];
    }
    assert spans[..|spans|] == spans;
  }

  /** The start of the hour, day or week of a time. */
  type Trunc = real -> int

  function OfPeriod(trunc: Trunc): Span -> int { (s: Span) => trunc(s.at) }

  method Series(spans: seq<Span>, trunc: Trunc) returns (per: map<int, Totals>)
    ensures Tabulated(per, spans, OfPeriod(trunc), true)
  {
    per := map[];
    for n := 0 to |spans|
      invariant Tabulated(per, spans[..n], OfPeriod(trunc), true)
    {
      hide Tabulated, Add;
      var s := spans[n];
      TabulatedSnoc(per, spans[..n], OfPeriod(trunc), true, s);
      assert spans[..n + 1] == spans[..n] + [s];
      var k := trunc(s.at);
      per := per[k := Add(if k in per then per[k] else NOTHING, s, true)];
    }
    assert spans[..|spans|] == spans;
  }

  /** The rollup as asked for: nothing for an empty window, otherwise a row per robot under the effective cap. */
  method UtilizationRollup(table: seq<Sample>, site: string, lo: real, hi: real, given: Option<int>)
    returns (per: Option<map<string, Totals>>)
    ensures per.Some? <==> lo < hi
    ensures per.Some? ==> Tabulated(per.value, AllSpans(table, site, lo, hi, GapCap(given)), OfRobot(), false)
  {
    if lo >= hi { return None; }
    var spans := Spans(table, site, lo, hi, GapCap(given));
    var rows := Rollup(spans);
    return Some(rows);
  }

  /** The series as asked for; `truncs` says how to truncate a time to the start of each kind of period. */
  method UtilizationSeries(table: seq<Sample>, site: string, lo: real, hi: real, given: Option<int>, bucket: string,
                           truncs: string -> Trunc) returns (per: Option<map<int, Totals>>)
    ensures per.Some? <==> lo < hi && bucket in {"hour", "day", "week"}
    ensures per.Some? ==>
      Tabulated(per.value, AllSpans(table, site, lo, hi, GapCap(given)), OfPeriod(truncs(bucket)), true)
  {
    if bucket !in {"hour", "day", "week"} || lo >= hi { return None; }
    var spans := Spans(table, site, lo, hi, GapCap(given));
    var rows := Series(spans, truncs(bucket));
    return Some(rows);
  }

  // ---- conservation ---------------------------------------------------------------------------------------

  /** Every column of a report row is the time of its spans in that column. */
  lemma {:induction false} TotalsAreSums(spans: seq<Span>, series: bool, c: Column)
    ensures Entry(TotalsOf(spans, series), c) == if series && c == In(Other) then 0.0 else Sum(c, spans)
  {
    if spans != [] { TotalsAreSums(spans[..|spans| - 1], series, c); }
  }

  ghost predicate NoneNegative(spans: seq<Span>) { forall s :: s in spans ==> s.secs >= 0.0 }

  lemma {:induction false} SumsAreOrdered(spans: seq<Span>, c: Column)
    requires NoneNegative(spans)
    ensures 0.0 <= Sum(c, spans) <= Sum(Covered, spans)
  {
    if spans != [] {
      SumsAreOrdered(spans[..|spans| - 1], c);
      assert spans[|spans| - 1] in spans;
    }
  }

  lemma {:induction false} BucketsAddUp(spans: seq<Span>)
    ensures Sum(In(Active), spans) + Sum(In(Idle), spans) + Sum(In(Charging), spans) + Sum(In(Faulted), spans)
         + Sum(In(Other), spans) == Sum(Covered, spans)
  {
    if spans != [] { BucketsAddUp(spans[..|spans| - 1]); }
  }

  lemma {:induction false} SpansAreNotNegative(rows: seq<Sample>, robots: seq<string>, hi: real, gap: real)
    ensures NoneNegative(SpansOf(rows, robots, hi, gap))
  {
    if robots != [] { SpansAreNotNegative(rows, robots[..|robots| - 1], hi, gap); }
  }

  lemma AllSpansAreNotNegative(table: seq<Sample>, site: string, lo: real, hi: real, gap: real)
    ensures NoneNegative(AllSpans(table, site, lo, hi, gap))
  {
    SpansAreNotNegative(Kept(table, site, lo, hi), RobotsOf(Kept(table, site, lo, hi)), hi, gap);
  }

  lemma {:induction false} WhereIsPart<K>(spans: seq<Span>, key: Span -> K, k: K)
    ensures forall s :: s in Where(spans, key, k) <==> s in spans && key(s) == k
  {
    if spans != [] {
      WhereIsPart(spans[..|spans| - 1], key, k);
      assert spans == spans[..|spans| - 1] + [spans[|spans| - 1]];
    }
  }

  function Percent(part: real, whole: real): real
    requires whole > 0.0
  {
    100.0 * part / whole
  }

  lemma PercentInRange(part: real, whole: real)
    requires 0.0 <= part <= whole && whole > 0.0
    ensures 0.0 <= Percent(part, whole) <= 100.0
  {
  }

  /**
    A robot's row of the rollup: the five buckets add up to the covered time, which is no more than the window, and
    utilisation and coverage are percentages.
   */
  lemma RollupConservesTime(table: seq<Sample>, site: string, lo: real, hi: real, gap: real,
                            per: map<string, Totals>, robot: string)
    requires lo < hi && gap >= 0.0 && robot in per
    requires Tabulated(per, AllSpans(table, site, lo, hi, gap), OfRobot(), false)
    ensures var t := per[robot];
      && t.active + t.idle + t.charging + t.faulted + t.other == t.covered
      && 0.0 <= t.active <= t.covered <= hi - lo
      && 0.0 <= Percent(t.covered, hi - lo) <= 100.0
      && (t.covered > 0.0 ==> 0.0 <= Percent(t.active, t.covered) <= 100.0)
  {
    hide AllSpans, TotalsOf, Where, Sum, SpansOf;
    var all := AllSpans(table, site, lo, hi, gap);
    var mine := Where(all, OfRobot(), robot);
    CoveredTimeOfRobot(table, site, lo, hi, gap, robot);
    TotalsOfRow(mine);
    AllSpansAreNotNegative(table, site, lo, hi, gap);
    WhereIsPart(all, OfRobot(), robot);
    SumsAreOrdered(mine, In(Active));
    var t := per[robot];
    assert t == TotalsOf(mine, false);
    hide *;
    PercentInRange(t.covered, hi - lo);
    if t.covered > 0.0 { PercentInRange(t.active, t.covered); }
  }

  lemma TotalsOfRow(spans: seq<Span>)
    ensures var t := TotalsOf(spans, false);
      && t.active + t.idle + t.charging + t.faulted + t.other == t.covered
      && t.active == Sum(In(Active), spans) && t.covered == Sum(Covered, spans)
  {
    BucketsAddUp(spans);
    TotalsAreSums(spans, false, Covered);
    TotalsAreSums(spans, false, In(Active));
    TotalsAreSums(spans, false, In(Idle));
    TotalsAreSums(spans, false, In(Charging));
    TotalsAreSums(spans, false, In(Faulted));
    TotalsAreSums(spans, false, In(Other));
  }

  /** A column of a report, summed over its rows in some order. */
  ghost function ColumnTotal<K>(per: map<K, Totals>, keys: seq<K>, c: Column): real
    requires forall k :: k in keys ==> k in per
  {
    if keys == [] then 0.0 else ColumnTotal(per, keys[..|keys| - 1], c) + Entry(per[keys[|keys| - 1]], c)
  }

  ghost predicate Lists<K(!new)>(keys: seq<K>, per: map<K, Totals>) {
    Distinct(keys) && forall k :: k in keys <==> k in per
  }

  lemma {:induction false} ColumnIsSum<K(!new)>(per: map<K, Totals>, keys: seq<K>, c: Column, spans: seq<Span>,
                                                key: Span -> K, series: bool)
    requires Tabulated(per, spans, key, series) && (series ==> c != In(Other))
    requires forall k :: k in keys ==> k in per
    ensures ColumnTotal(per, keys, c) == SumOver(c, spans, key, keys)
  {
    if keys != [] {
      var n := |keys| - 1;
      ColumnIsSum(per, keys[..n], c, spans, key, series);
      TotalsAreSums(Where(spans, key, keys[n]), series, c);
    }
  }

  /** Summed over its rows, a report has in each column exactly the time of all spans in that column. */
  lemma ReportLosesNoTime<K(!new)>(per: map<K, Totals>, keys: seq<K>, c: Column, spans: seq<Span>,
                                   key: Span -> K, series: bool)
    requires Tabulated(per, spans, key, series) && Lists(keys, per) && (series ==> c != In(Other))
    ensures ColumnTotal(per, keys, c) == Sum(c, spans)
  {
    ColumnIsSum(per, keys, c, spans, key, series);
    forall s | s in spans
      ensures key(s) in keys
    {
      WhereIsPart(spans, key, key(s));
      assert s in Where(spans, key, key(s));
    }
    SplitKeepsTime(c, spans, key, keys);
  }

  /** For one window and cap the periods of the series hold the same time, bucket by bucket, as the rollup's robots. */
  lemma ReportsAgree(spans: seq<Span>, trunc: Trunc, rollup: map<string, Totals>, robots: seq<string>,
                     series: map<int, Totals>, periods: seq<int>, c: Column)
    requires Tabulated(rollup, spans, OfRobot(), false) && Lists(robots, rollup)
    requires Tabulated(series, spans, OfPeriod(trunc), true) && Lists(periods, series)
    requires c != In(Other)
    ensures ColumnTotal(rollup, robots, c) == ColumnTotal(series, periods, c)
  {
    ReportLosesNoTime(rollup, robots, c, spans, OfRobot(), false);
    ReportLosesNoTime(series, periods, c, spans, OfPeriod(trunc), true);
  }

  // ---- percentages of whole reports -------------------------------------------------------------------------

  /** The time n robots could have covered in a window. */
  function FleetTime(n: nat, window: real): real { n as real * window }

  lemma OneRobotMore(n: nat, window: real)
    requires window > 0.0
    ensures FleetTime(0, window) == 0.0 && FleetTime(n + 1, window) == FleetTime(n, window) + window
    ensures n > 0 ==> FleetTime(n, window) > 0.0
  {
    assert (n + 1) as real == n as real + 1.0;
  }

  /** Summed over any robots of the rollup: buckets add up to covered time, which is within the robots' windows. */
  lemma {:induction false} RowsConserveTime(table: seq<Sample>, site: string, lo: real, hi: real, gap: real,
                                            per: map<string, Totals>, robots: seq<string>)
    requires lo < hi && gap >= 0.0 && forall k :: k in robots ==> k in per
    requires Tabulated(per, AllSpans(table, site, lo, hi, gap), OfRobot(), false)
    ensures var covered := ColumnTotal(per, robots, Covered);
      && ColumnTotal(per, robots, In(Active)) + ColumnTotal(per, robots, In(Idle))
         + ColumnTotal(per, robots, In(Charging)) + ColumnTotal(per, robots, In(Faulted))
         + ColumnTotal(per, robots, In(Other)) == covered
      && 0.0 <= ColumnTotal(per, robots, In(Active)) <= covered <= FleetTime(|robots|, hi - lo)
  {
    hide Tabulated, AllSpans, FleetTime;
    OneRobotMore(0, hi - lo);
    if robots != [] {
      var n := |robots| - 1;
      RowsConserveTime(table, site, lo, hi, gap, per, robots[..n]);
      RollupConservesTime(table, site, lo, hi, gap, per, robots[n]);
      OneRobotMore(n, hi - lo);
    }
  }

  /** The fleet's line of the rollup: its utilisation and its coverage are percentages too. */
  lemma FleetConservesTime(table: seq<Sample>, site: string, lo: real, hi: real, gap: real,
                           per: map<string, Totals>, robots: seq<string>)
    requires lo < hi && gap >= 0.0 && Lists(robots, per)
    requires Tabulated(per, AllSpans(table, site, lo, hi, gap), OfRobot(), false)
    ensures var covered, active := ColumnTotal(per, robots, Covered), ColumnTotal(per, robots, In(Active));
      && covered == Sum(Covered, AllSpans(table, site, lo, hi, gap))
      && (covered > 0.0 ==> 0.0 <= Percent(active, covered) <= 100.0)
      && (robots != [] ==>
            FleetTime(|robots|, hi - lo) > 0.0
            && 0.0 <= Percent(covered, FleetTime(|robots|, hi - lo)) <= 100.0)
  {
    ReportLosesNoTime(per, robots, Covered, AllSpans(table, site, lo, hi, gap), OfRobot(), false);
    RowsConserveTime(table, site, lo, hi, gap, per, robots);
    var covered, active := ColumnTotal(per, robots, Covered), ColumnTotal(per, robots, In(Active));
    var n := |robots|;
    assert robots != [] ==> n > 0;
    hide *;
    FleetPercentages(active, covered, n, hi - lo);
  }

  lemma FleetPercentages(active: real, covered: real, n: nat, window: real)
    requires window > 0.0 && 0.0 <= active <= covered <= FleetTime(n, window)
    ensures covered > 0.0 ==> 0.0 <= Percent(active, covered) <= 100.0
    ensures n > 0 ==> FleetTime(n, window) > 0.0 && 0.0 <= Percent(covered, FleetTime(n, window)) <= 100.0
  {
    hide FleetTime, Percent;
    OneRobotMore(n, window);
    if covered > 0.0 { PercentInRange(active, covered); }
    if n > 0 { PercentInRange(covered, FleetTime(n, window)); }
  }

  /**
    A row of the series: its four buckets are the covered time of the period less the other time, which has no bucket
    there, and its utilisation is a percentage.
   */
  lemma SeriesConservesTime(table: seq<Sample>, site: string, lo: real, hi: real, gap: real, trunc: Trunc,
                            per: map<int, Totals>, period: int)
    requires Tabulated(per, AllSpans(table, site, lo, hi, gap), OfPeriod(trunc), true) && period in per
    ensures var t, mine := per[period], Where(AllSpans(table, site, lo, hi, gap), OfPeriod(trunc), period);
      && t.active + t.idle + t.charging + t.faulted == t.covered - Sum(In(Other), mine)
      && 0.0 <= t.active <= t.covered && Sum(In(Other), mine) >= 0.0
      && (t.covered > 0.0 ==> 0.0 <= Percent(t.active, t.covered) <= 100.0)
  {
    hide AllSpans, TotalsOf, Where, Sum, SpansOf;
    var all := AllSpans(table, site, lo, hi, gap);
    var mine := Where(all, OfPeriod(trunc), period);
    SeriesRow(mine);
    AllSpansAreNotNegative(table, site, lo, hi, gap);
    WhereIsPart(all, OfPeriod(trunc), period);
    SumsAreOrdered(mine, In(Active));
    SumsAreOrdered(mine, In(Other));
    var t := per[period];
    assert t == TotalsOf(mine, true);
    hide *;
    if t.covered > 0.0 { PercentInRange(t.active, t.covered); }
  }

  lemma SeriesRow(spans: seq<Span>)
    ensures var t := TotalsOf(spans, true);
      && t.active + t.idle + t.charging + t.faulted == t.covered - Sum(In(Other), spans)
      && t.active == Sum(In(Active), spans) && t.covered == Sum(Covered, spans)
  {
    BucketsAddUp(spans);
    TotalsAreSums(spans, true, Covered);
    TotalsAreSums(spans, true, In(Active));
    TotalsAreSums(spans, true, In(Idle));
    TotalsAreSums(spans, true, In(Charging));
    TotalsAreSums(spans, true, In(Faulted));
  }

  // ---- which sample counts, and for what ------------------------------------------------------------------------

  lemma BucketIs(status: string)
    ensures BucketOf(status) == Active <==> status == "active"
    ensures BucketOf(status) == Idle <==> status in {"idle", "paused"}
    ensures BucketOf(status) == Charging <==> status == "charging"
    ensures BucketOf(status) == Faulted <==> status in {"fault", "estop", "degraded"}
  {
  }

  lemma {:induction false} KeptExactly(table: seq<Sample>, site: string, lo: real, hi: real) returns (at: seq<nat>)
    ensures Picks(table, at, Kept(table, site, lo, hi))
    ensures forall i | 0 <= i < |table| :: i in at <==> table[i].site == site && lo <= table[i].at <= hi
    decreases |table|
  {
    if table == [] {
      at := [];
    } else {
      var n := |table| - 1;
      var before := KeptExactly(table[..n], site, lo, hi);
      at := before + if InWindow(table[n], site, lo, hi) then [n] else [];
      assert table == table[..n] + [table[n]];
    }
  }

  lemma {:induction false} RowsExactly(rows: seq<Sample>, robot: string) returns (at: seq<nat>)
    ensures Picks(rows, at, RowsOf(rows, robot))
    ensures forall i | 0 <= i < |rows| :: i in at <==> rows[i].robot == robot
    decreases |rows|
  {
    if rows == [] {
      at := [];
    } else {
      var n := |rows| - 1;
      var before := RowsExactly(rows[..n], robot);
      at := before + if rows[n].robot == robot then [n] else [];
      assert rows == rows[..n] + [rows[n]];
    }
  }

  lemma {:induction false} RobotsExactly(rows: seq<Sample>)
    ensures Distinct(RobotsOf(rows))
    ensures forall robot :: robot in RobotsOf(rows) <==> exists i :: 0 <= i < |rows| && rows[i].robot == robot
    decreases |rows|
  {
    if rows != [] {
      var n := |rows| - 1;
      RobotsExactly(rows[..n]);
      forall robot | exists i :: 0 <= i < |rows| && rows[i].robot == robot ensures robot in RobotsOf(rows) {
        var i :| 0 <= i < |rows| && rows[i].robot == robot;
        if i < n { assert rows[..n][i].robot == robot; }
      }
      assert forall i | 0 <= i < n :: rows[..n][i] == rows[i];
    }
  }

  lemma {:induction false} SamplesCounted(spans: seq<Span>, series: bool)
    ensures TotalsOf(spans, series).samples == |spans|
  {
    if spans != [] { SamplesCounted(spans[..|spans| - 1], series); }
  }

  /** A sample stands for the time to the robot's next one or the window's end, at most the cap and at least 0. */
  lemma SpanStandsFor(rows: seq<Sample>, i: nat, hi: real, gap: real)
    requires i < |rows|
    ensures |RobotSpans(rows, hi, gap)| == |rows|
    ensures var s := RobotSpans(rows, hi, gap)[i];
      var until := (if i + 1 < |rows| then rows[i + 1].at else hi) - rows[i].at;
      && s.robot == rows[i].robot && s.status == rows[i].status && s.at == rows[i].at
      && s.secs == (if until < 0.0 || gap < 0.0 then 0.0 else if until > gap then gap else until)
  {
  }

  lemma GapCapIs(given: Option<int>)
    ensures GapCap(given) ==
      if given.None? then 60.0
      else if given.value < 1 then 1.0 else if given.value > 3600 then 3600.0 else given.value as real
  {
  }
}
