/** Where a seeded demo fleet stands on the waypoint grid, and the trail each robot has walked. */
module FloorAssignment {
  import opened Collections
  import opened Options

  datatype Node = Node(row: nat, col: nat)

  datatype Kind = Charger | Dock | Aisle

  /** The nodes of each kind and all nodes, in the order of their names. */
  datatype Floor = Floor(chargers: seq<Node>, docks: seq<Node>, aisles: seq<Node>, every: seq<Node>)

  function Pool(f: Floor, kind: Kind): seq<Node> {
    match kind
    case Charger => f.chargers
    case Dock => f.docks
    case Aisle => f.aisles
  }

  /** The three pools split the nodes, of which there is at least one. */
  ghost predicate Valid(f: Floor) {
    && f.every != [] && Distinct(f.every)
    && (forall kind :: Distinct(Pool(f, kind)))
    && (forall x :: x in f.every <==> x in f.chargers || x in f.docks || x in f.aisles)
  }

  /** The kinds a robot of this status prefers, best first. */
  function Preference(status: string): seq<Kind> {
    if status == "charging" then [Charger, Aisle, Dock]
    else if status in {"idle", "paused"} then [Dock, Aisle, Charger]
    else [Aisle, Dock, Charger]
  }

  function StatusOr(status: string): string { if status == "" then "idle" else status }

  // ---- picking a node --------------------------------------------------------------------------

  /** Where the scan of a pool looks in its k-th step: a stride of three per robot. */
  function Probe(pool: seq<Node>, index: nat, k: nat): Node
    requires pool != []
  {
    pool[(index * 3 + k) % |pool|]
  }

  function Scan(pool: seq<Node>, index: nat, k: nat, taken: set<Node>): Option<Node>
    requires k <= |pool|
    decreases |pool| - k
  {
    if k == |pool| then None
    else if Probe(pool, index, k) !in taken then Some(Probe(pool, index, k))
    else Scan(pool, index, k + 1, taken)
  }

  function PickOf(f: Floor, kinds: seq<Kind>, index: nat, taken: set<Node>): Node
    requires f.every != []
  {
    if kinds == [] then f.every[index % |f.every|]
    else
      var found := Scan(Pool(f, kinds[0]), index, 0, taken);
      if found.Some? then found.value else PickOf(f, kinds[1..], index, taken)
  }

  function AssignOf(f: Floor, statuses: seq<string>): seq<Node>
    requires f.every != []
  {
    if statuses == [] then []
    else
      var n := |statuses| - 1;
      var before := AssignOf(f, statuses[..n]);
      before + [PickOf(f, Preference(StatusOr(statuses[n])), n, Elements(before))]
  }

  method Pick(f: Floor, index: nat, status: string, taken: set<Node>) returns (node: Node)
    requires f.every != []
    ensures node == PickOf(f, Preference(status), index, taken)
  {
    var kinds := Preference(status);
    for p := 0 to |kinds|
      invariant PickOf(f, kinds, index, taken) == PickOf(f, kinds[p..], index, taken)
    {
      var pool := Pool(f, kinds[p]);
      for k := 0 to |pool|
        invariant Scan(pool, index, 0, taken) == Scan(pool, index, k, taken)
      {
        var candidate := pool[(index * 3 + k) % |pool|];
        if candidate !in taken { return candidate; }
      }
    }
    return f.every[index % |f.every|];
  }

  /** One node per robot of the fleet, remembering the nodes taken. */
  method Assign(f: Floor, statuses: seq<string>) returns (out: seq<Node>)
    requires f.every != []
    ensures out == AssignOf(f, statuses)
  {
    var taken: set<Node> := {};
    out := [];
    for i := 0 to |statuses|
      invariant out == AssignOf(f, statuses[..i]) && taken == Elements(out)
    {
      assert statuses[..i + 1][..i] == statuses[..i];
      var node := Pick(f, i, StatusOr(statuses[i]), taken);
      taken := taken + {node};
      out := out + [node];
    }
    assert statuses[..|statuses|] == statuses;
  }

  // ---- the scan visits every residue ---------------------------------------------------------------

  lemma NoSmallMultiple(d: int, n: int, e: int)
    requires n > 0 && d * n == e && -n < e < n
    ensures d == 0
  {
  }

  lemma RemainderIs(x: nat, q: nat, n: nat, j: nat)
    requires j < n && x == q * n + j
    ensures x % n == j
  {
    var d := x / n - q;
    assert x == (x / n) * n + x % n;
    assert d * n == j - x % n;
    NoSmallMultiple(d, n, j - x % n);
  }

  /** From any start, n consecutive numbers hit every residue of n. */
  lemma EveryResidue(base: nat, n: nat, j: nat) returns (k: nat)
    requires j < n
    ensures k < n && (base + k) % n == j
  {
    var q, b := base / n, base % n;
    k := if j >= b then j - b else j - b + n;
    if j >= b {
      RemainderIs(base + k, q, n, j);
    } else {
      RemainderIs(base + k, q + 1, n, j);
    }
  }

  lemma {:induction false} ScanMissesOnlyTaken(pool: seq<Node>, index: nat, k: nat, taken: set<Node>)
    requires k <= |pool|
    ensures var found := Scan(pool, index, k, taken);
      && (found.Some? ==> found.value in pool && found.value !in taken)
      && (found.None? ==> forall i :: k <= i < |pool| ==> Probe(pool, index, i) in taken)
    decreases |pool| - k
  {
    if k < |pool| && Probe(pool, index, k) in taken { ScanMissesOnlyTaken(pool, index, k + 1, taken); }
  }

  /** The strided scan finds a node exactly if the pool has a free one. */
  lemma ScanIsComplete(pool: seq<Node>, index: nat, taken: set<Node>)
    ensures var found := Scan(pool, index, 0, taken);
      && (found.None? <==> forall x :: x in pool ==> x in taken)
      && (found.Some? ==> found.value in pool && found.value !in taken)
  {
    ScanMissesOnlyTaken(pool, index, 0, taken);
    if Scan(pool, index, 0, taken).None? {
      forall j | 0 <= j < |pool|
        ensures pool[j] in taken
      {
        var k := EveryResidue(index * 3, |pool|, j);
        assert Probe(pool, index, k) == pool[j];
      }
    }
  }

  /** The pool from three places further on for each robot, and around its end. */
  function Strided(pool: seq<Node>, index: nat): (r: seq<Node>)
    ensures |r| == |pool|
  {
    seq(|pool|, k requires 0 <= k < |pool| => pool[(index * 3 + k) % |pool|])
  }

  /** The scan takes the first free node of the pool so strided. */
  lemma {:induction false} ScanFindsFirst(pool: seq<Node>, index: nat, k: nat, taken: set<Node>) returns (i: nat)
    requires k <= |pool|
    ensures k <= i <= |pool| && forall j | k <= j < i :: Strided(pool, index)[j] in taken
    ensures i == |pool| ==> Scan(pool, index, k, taken).None?
    ensures i < |pool| ==>
      Strided(pool, index)[i] !in taken && Scan(pool, index, k, taken) == Some(Strided(pool, index)[i])
    decreases |pool| - k
  {
    if k == |pool| || Probe(pool, index, k) !in taken {
      i := k;
    } else {
      i := ScanFindsFirst(pool, index, k + 1, taken);
    }
  }

  ghost predicate Full(f: Floor, kind: Kind, taken: set<Node>) { forall x :: x in Pool(f, kind) ==> x in taken }

  /** `node` is free and of the first of the kinds that has a free node. */
  ghost predicate BestFree(f: Floor, kinds: seq<Kind>, node: Node, taken: set<Node>) {
    && node !in taken
    && exists p :: 0 <= p < |kinds| && node in Pool(f, kinds[p]) && forall q :: 0 <= q < p ==> Full(f, kinds[q], taken)
  }

  lemma {:induction false} PickIsBest(f: Floor, kinds: seq<Kind>, index: nat, taken: set<Node>)
    requires f.every != []
    ensures var node := PickOf(f, kinds, index, taken);
      || BestFree(f, kinds, node, taken)
      || ((forall q :: 0 <= q < |kinds| ==> Full(f, kinds[q], taken)) && node == f.every[index % |f.every|])
  {
    if kinds != [] {
      ScanIsComplete(Pool(f, kinds[0]), index, taken);
      var node := PickOf(f, kinds, index, taken);
      if Scan(Pool(f, kinds[0]), index, 0, taken).None? {
        var rest := kinds[1..];
        PickIsBest(f, rest, index, taken);
        if BestFree(f, rest, node, taken) {
          var p :| 0 <= p < |rest| && node in Pool(f, rest[p]) && forall q :: 0 <= q < p ==> Full(f, rest[q], taken);
          assert node in Pool(f, kinds[p + 1]);
          assert forall q :: 0 < q < p + 1 ==> kinds[q] == rest[q - 1];
        } else {
          assert forall q :: 0 < q < |kinds| ==> kinds[q] == rest[q - 1];
        }
      } else {
        assert node in Pool(f, kinds[0]);
      }
    }
  }

  // ---- as many distinct nodes as there are robots -----------------------------------------------------

  ghost predicate BestForEach(f: Floor, statuses: seq<string>, out: seq<Node>) {
    && |out| == |statuses|
    && forall i :: 0 <= i < |out| ==> BestFree(f, Preference(StatusOr(statuses[i])), out[i], Elements(out[..i]))
  }

  lemma {:induction false} AssignStaysOnFloor(f: Floor, statuses: seq<string>)
    requires Valid(f)
    ensures var out := AssignOf(f, statuses);
      |out| == |statuses| && forall x :: x in out ==> x in f.every
  {
    if statuses != [] {
      var n := |statuses| - 1;
      AssignStaysOnFloor(f, statuses[..n]);
      PickIsBest(f, Preference(StatusOr(statuses[n])), n, Elements(AssignOf(f, statuses[..n])));
    }
  }

  lemma PreferenceCoversAll(f: Floor, status: string, taken: set<Node>)
    requires Valid(f)
    requires forall q :: 0 <= q < 3 ==> Full(f, Preference(status)[q], taken)
    ensures forall x :: x in f.every ==> x in taken
  {
    var kinds := Preference(status);
    assert Full(f, kinds[0], taken) && Full(f, kinds[1], taken) && Full(f, kinds[2], taken);
  }

  /** As long as fewer nodes are taken than there are, one of the preferred kinds has a free one. */
  lemma RoomLeft(f: Floor, status: string, before: seq<Node>)
    requires Valid(f) && |before| < |f.every| && forall x :: x in before ==> x in f.every
    ensures !(forall q :: 0 <= q < |Preference(status)| ==> Full(f, Preference(status)[q], Elements(before)))
  {
    if forall q :: 0 <= q < |Preference(status)| ==> Full(f, Preference(status)[q], Elements(before)) {
      PreferenceCoversAll(f, status, Elements(before));
      assert Elements(before) == Elements(f.every);
      DistinctSize(before);
      DistinctSize(f.every);
      assert false;
    }
  }

  /** While the fleet fits on the floor every robot gets a free node, of the best kind that still has one. */
  lemma {:induction false} AssignGivesBest(f: Floor, statuses: seq<string>)
    requires Valid(f) && |statuses| <= |f.every|
    ensures BestForEach(f, statuses, AssignOf(f, statuses)) && Distinct(AssignOf(f, statuses))
  {
    if statuses != [] {
      var n := |statuses| - 1;
      var before, out := AssignOf(f, statuses[..n]), AssignOf(f, statuses);
      var status := StatusOr(statuses[n]);
      AssignGivesBest(f, statuses[..n]);
      AssignStaysOnFloor(f, statuses[..n]);
      RoomLeft(f, status, before);
      PickIsBest(f, Preference(status), n, Elements(before));
      BestSnoc(f, statuses, before, out[n]);
    }
  }

  lemma BestSnoc(f: Floor, statuses: seq<string>, before: seq<Node>, node: Node)
    requires |statuses| == |before| + 1 && BestForEach(f, statuses[..|before|], before) && Distinct(before)
    requires BestFree(f, Preference(StatusOr(statuses[|before|])), node, Elements(before))
    ensures BestForEach(f, statuses, before + [node]) && Distinct(before + [node])
  {
    assert node !in before;
    hide BestFree, Elements;
    var out := before + [node];
    forall i | 0 <= i < |out|
      ensures BestFree(f, Preference(StatusOr(statuses[i])), out[i], Elements(out[..i]))
    {
      assert out[..i] == before[..i];
      if i == |before| { assert before[..i] == before; }
    }
  }

  /** The assignment gives distinct nodes exactly if the fleet is no bigger than the floor. */
  lemma DistinctIffItFits(f: Floor, statuses: seq<string>)
    requires Valid(f)
    ensures Distinct(AssignOf(f, statuses)) <==> |statuses| <= |f.every|
  {
    var out := AssignOf(f, statuses);
    if |statuses| <= |f.every| {
      AssignGivesBest(f, statuses);
    } else {
      AssignStaysOnFloor(f, statuses);
      DistinctSize(out);
      DistinctSize(f.every);
      SubsetSize(Elements(out), Elements(f.every));
    }
  }

  // ---- trails -------------------------------------------------------------------------------------

  datatype Position = Position(x: real, y: real)

  function Pos(node: Node, spacing: real): Position { Position(node.col as real * spacing, node.row as real * spacing) }

  /** The aisle run from the left end up to the node. */
  function Forward(node: Node): seq<Node> {
    seq(node.col + 1, i requires 0 <= i <= node.col => Node(node.row, i))
  }

  /** The aisle run from the right end down to the node. */
  function Backward(node: Node, cols: nat): seq<Node>
    requires node.col < cols
  {
    seq(cols - node.col, i requires 0 <= i < cols - node.col => Node(node.row, cols - 1 - i))
  }

  function RouteTo(node: Node, index: nat, cols: nat): seq<Node>
    requires node.col < cols
  {
    var first := if index % 2 == 0 then Forward(node) else Backward(node, cols);
    var second := if index % 2 == 0 then Backward(node, cols) else Forward(node);
    if |first| >= 2 then first else if |second| >= 2 then second else [node]
  }

  /** The column at the end of the aisle a robot has come from. */
  function StartColumn(node: Node, index: nat, cols: nat): nat
    requires node.col < cols
  {
    if cols == 1 then 0
    else if index % 2 == 0 then (if node.col > 0 then 0 else cols - 1)
    else if node.col < cols - 1 then cols - 1 else 0
  }

  /** Straight motion at constant speed from the end of the aisle to the node; a parked robot does not move. */
  function TrailOf(node: Node, index: nat, status: string, given: int, cols: nat, spacing: real): (out: seq<Position>)
    requires node.col < cols
    ensures |out| == if given < 1 then 1 else given
  {
    var steps := if given < 1 then 1 else given;
    var end := Pos(node, spacing);
    if status != "active" || steps == 1 || cols == 1 then seq(steps, k => end)
    else
      var start := Pos(Node(node.row, StartColumn(node, index, cols)), spacing);
      seq(steps, k requires 0 <= k < steps =>
        Position(start.x + (end.x - start.x) * (k as real / (steps - 1) as real), end.y))
  }

  /** The point at time t on the polyline, t counted in legs. */
  function Along(pts: seq<Position>, t: real): Position
    requires |pts| >= 2 && 0.0 <= t
  {
    var i := if t.Floor < |pts| - 2 then t.Floor else |pts| - 2;
    var f := t - i as real;
    var a, b := pts[i], pts[i + 1];
    Position(a.x + (b.x - a.x) * f, a.y + (b.y - a.y) * f)
  }

  /** Which leg count the k-th of the steps has reached. */
  function Time(k: nat, steps: nat, span: nat): (t: real)
    requires k < steps && steps >= 2
    ensures t >= 0.0
  {
    UnitTimes(k as real / (steps - 1) as real, span as real);
    k as real / (steps - 1) as real * span as real
  }

  /** Positions of a robot, oldest first, interpolated along its route. */
  method Trail(node: Node, index: nat, status: string, given: int, cols: nat, spacing: real)
    returns (out: seq<Position>)
    requires node.col < cols
    ensures out == TrailOf(node, index, status, given, cols, spacing)
  {
    var steps := if given < 1 then 1 else given;
    var end := Pos(node, spacing);
    if status != "active" || steps == 1 { return seq(steps, k => end); }
    var route := RouteTo(node, index, cols);
    var pts := seq(|route|, i requires 0 <= i < |route| => Pos(route[i], spacing));
    if |pts| < 2 { return seq(steps, k => end); }
    out := [];
    for k := 0 to steps
      invariant |out| == k
      invariant forall j :: 0 <= j < k ==> out[j] == Along(pts, Time(j, steps, |pts| - 1))
    {
      out := out + [Along(pts, Time(k, steps, |pts| - 1))];
    }
    forall k | 0 <= k < steps
      ensures out[k] == TrailOf(node, index, status, given, cols, spacing)[k]
    {
      TrailPoint(node, index, cols, spacing, pts, k, steps);
    }
  }

  lemma UnitTimes(u: real, s: real)
    requires 0.0 <= u <= 1.0 && s >= 0.0
    ensures 0.0 <= u * s <= s
  {
    assert (1.0 - u) * s >= 0.0;
  }

  function OnLine(start: real, legs: real, step: real, y: real): Position { Position(start + legs * step, y) }

  ghost predicate Line(pts: seq<Position>, start: real, step: real, y: real) {
    forall i :: 0 <= i < |pts| ==> pts[i] == OnLine(start, i as real, step, y)
  }

  lemma AlongLine(pts: seq<Position>, start: real, step: real, y: real, t: real)
    requires Line(pts, start, step, y) && |pts| >= 2 && t >= 0.0
    ensures Along(pts, t) == OnLine(start, t, step, y)
  {
    var i := if t.Floor < |pts| - 2 then t.Floor else |pts| - 2;
    assert (i + 1) as real == i as real + 1.0;
    var a, b := pts[i], pts[i + 1];
    OneStep(start, i as real, step, t - i as real, a.x, b.x, t);
    Unmoved(y, t - i as real);
  }

  lemma OneStep(start: real, i: real, step: real, f: real, a: real, b: real, t: real)
    requires a == start + i * step && b == start + (i + 1.0) * step && t == i + f
    ensures a + (b - a) * f == start + t * step
  {
    assert b - a == step;
  }

  lemma Unmoved(y: real, f: real)
    ensures y + (y - y) * f == y
  {
  }

  lemma Spaced(c: real, i: real, spacing: real)
    ensures (c - i) * spacing == c * spacing + i * -spacing
  {
  }

  lemma PosOnRow(row: nat, col: nat, start: nat, i: nat, down: bool, spacing: real)
    requires col == if down then start - i else start + i
    ensures Pos(Node(row, col), spacing)
         == OnLine(Pos(Node(row, start), spacing).x, i as real, if down then -spacing else spacing,
                   Pos(Node(row, start), spacing).y)
  {
    Spaced(start as real, if down then i as real else -(i as real), spacing);
  }

  lemma RouteShape(node: Node, index: nat, cols: nat)
    requires node.col < cols && cols >= 2
    ensures var route := RouteTo(node, index, cols); var start := StartColumn(node, index, cols);
      && |route| >= 2 && route[0] == Node(node.row, start) && route[|route| - 1] == node
      && forall i :: 0 <= i < |route| ==>
           route[i].row == node.row && route[i].col == if start == 0 then i else start - i
  {
  }

  lemma RouteIsLine(node: Node, index: nat, cols: nat, spacing: real, pts: seq<Position>) returns (step: real)
    requires node.col < cols && cols >= 2
    requires var route := RouteTo(node, index, cols);
      |pts| == |route| && forall i :: 0 <= i < |route| ==> pts[i] == Pos(route[i], spacing)
    ensures |pts| >= 2 && pts[|pts| - 1] == Pos(node, spacing)
    ensures var from := Pos(Node(node.row, StartColumn(node, index, cols)), spacing); Line(pts, from.x, step, from.y)
  {
    RouteShape(node, index, cols);
    hide RouteTo, StartColumn, Pos, OnLine;
    var route, start := RouteTo(node, index, cols), StartColumn(node, index, cols);
    var from := Pos(Node(node.row, start), spacing);
    step := if start == 0 then spacing else -spacing;
    forall i | 0 <= i < |pts|
      ensures pts[i] == OnLine(from.x, i as real, step, from.y)
    {
      assert route[i] == Node(node.row, if start == 0 then i else start - i);
      PosOnRow(node.row, route[i].col, start, i, start != 0, spacing);
    }
  }

  lemma TrailPoint(node: Node, index: nat, cols: nat, spacing: real, pts: seq<Position>, k: nat, steps: nat)
    requires node.col < cols && cols >= 2 && k < steps && steps >= 2
    requires var route := RouteTo(node, index, cols);
      |pts| == |route| && forall i :: 0 <= i < |route| ==> pts[i] == Pos(route[i], spacing)
    ensures |pts| >= 2
    ensures Along(pts, Time(k, steps, |pts| - 1)) == TrailOf(node, index, "active", steps, cols, spacing)[k]
  {
    hide Along, RouteTo, StartColumn, Pos;
    var step := RouteIsLine(node, index, cols, spacing, pts);
    var from, end := Pos(Node(node.row, StartColumn(node, index, cols)), spacing), Pos(node, spacing);
    var u, span := k as real / (steps - 1) as real, |pts| - 1;
    AlongLine(pts, from.x, step, from.y, Time(k, steps, span));
    assert TrailOf(node, index, "active", steps, cols, spacing)[k] == Position(from.x + (end.x - from.x) * u, end.y);
    assert end == OnLine(from.x, span as real, step, from.y);
    Regroup(from.x, end.x, u, span as real, step, Time(k, steps, span));
  }

  lemma Regroup(start: real, end: real, u: real, span: real, step: real, t: real)
    requires end == start + span * step && t == u * span
    ensures start + t * step == start + (end - start) * u
  {
    assert end - start == span * step;
  }

  /** A trail always ends at the robot's node. */
  lemma TrailEndsAtNode(node: Node, index: nat, status: string, given: int, cols: nat, spacing: real)
    requires node.col < cols
    ensures var out := TrailOf(node, index, status, given, cols, spacing); out[|out| - 1] == Pos(node, spacing)
  {
    hide Pos, StartColumn;
    var out, end := TrailOf(node, index, status, given, cols, spacing), Pos(node, spacing);
    if status == "active" && given > 1 && cols > 1 {
      var start := Pos(Node(node.row, StartColumn(node, index, cols)), spacing);
      var last := (given - 1) as real;
      assert out[given - 1] == Position(start.x + (end.x - start.x) * (last / last), end.y);
      SelfRatio(last);
      WholeWay(start.x, end.x, last / last);
    }
  }

  lemma SelfRatio(x: real)
    requires x > 0.0
    ensures x / x == 1.0
  {
  }

  lemma WholeWay(start: real, end: real, u: real)
    requires u == 1.0
    ensures start + (end - start) * u == end
  {
  }

  // ---- who prefers what --------------------------------------------------------------------------------

  /** Charging robots prefer chargers, idle and paused ones and those without a status docks, all others aisles. */
  lemma PreferenceIs(status: string)
    ensures Preference(StatusOr(status)) ==
      if status == "charging" then [Charger, Aisle, Dock]
      else if status in {"", "idle", "paused"} then [Dock, Aisle, Charger]
      else [Aisle, Dock, Charger]
  {
  }

  /** An active robot has come along its aisle: even ones from the left end, odd ones from the right, if they can. */
  lemma TrailBegins(node: Node, index: nat, status: string, given: int, cols: nat, spacing: real)
    requires node.col < cols
    ensures var out := TrailOf(node, index, status, given, cols, spacing);
      if status == "active" && given >= 2 && cols >= 2 then
        var fromLeft := if index % 2 == 0 then node.col > 0 else node.col == cols - 1;
        out[0] == Position((if fromLeft then 0 else cols - 1) as real * spacing, node.row as real * spacing)
      else forall k :: 0 <= k < |out| ==> out[k] == Position(node.col as real * spacing, node.row as real * spacing)
  {
    if status == "active" && given >= 2 && cols >= 2 {
      var start, end := Pos(Node(node.row, StartColumn(node, index, cols)), spacing), Pos(node, spacing);
      assert TrailOf(node, index, status, given, cols, spacing)[0]
          == Position(start.x + (end.x - start.x) * (0.0 / (given - 1) as real), end.y);
    }
  }
}
