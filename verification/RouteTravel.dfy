/** Metric path following: a robot eats a travel budget leg by leg. */
module RouteTravel {
  import opened Options

  /**
    The waypoint graph the fleet drives on, seen through the operations the simulator uses.
    `leg` is the straight-line distance between two waypoints.
   */
  datatype World = World(
    waypoints: set<string>,
    taskNodes: seq<string>,
    chargers: set<string>,
    leg: (string, string) -> real,
    shortest: (string, string) -> seq<string>,
    nearestCharger: string -> string)
  {
    ghost predicate Valid() {
      && (forall a, b :: leg(a, b) >= 0.0)
      && (forall n | n in taskNodes :: n in waypoints)
      && (forall a | a in waypoints :: nearestCharger(a) in waypoints && nearestCharger(a) in chargers)
      && (forall a, b | a in waypoints && b in waypoints ::
            var p := shortest(a, b);
            p != [] && p[0] == a && p[|p| - 1] == b && forall n | n in p :: n in waypoints)
    }
  }

  /** Where a robot is: its last waypoint, the waypoints still ahead, the metres done on the current leg. */
  datatype Motion = Motion(node: string, path: seq<string>, progress: real, seqId: nat)

  ghost predicate OnLeg(w: World, m: Motion) {
    m.path != [] ==>
      m.progress == 0.0 || 0.0 < m.progress < w.leg(m.node, m.path[0])
  }

  ghost predicate OnMap(w: World, m: Motion) {
    m.node in w.waypoints && forall n | n in m.path :: n in w.waypoints
  }

  /** Where the route ends. */
  function Destination(m: Motion): string { if m.path == [] then m.node else m.path[|m.path| - 1] }

  function Travel(w: World, m: Motion, budget: real): Motion
    decreases |m.path|
  {
    if budget <= 0.0 || m.path == [] then m
    else
      var remaining := w.leg(m.node, m.path[0]) - m.progress;
      if budget >= remaining then
        Travel(w, Motion(m.path[0], m.path[1..], 0.0, m.seqId + 2), budget - remaining)
      else
        m.(progress := m.progress + budget)
  }

  /** Length of a whole route that starts at `from`. */
  ghost function PathLength(w: World, from: string, path: seq<string>): real
    decreases |path|
  {
    if path == [] then 0.0 else w.leg(from, path[0]) + PathLength(w, path[0], path[1..])
  }

  ghost function Ahead(w: World, m: Motion): real {
    if m.path == [] then 0.0 else PathLength(w, m.node, m.path) - m.progress
  }

  lemma {:induction false} PathLengthNonNegative(w: World, from: string, path: seq<string>)
    requires w.Valid()
    ensures PathLength(w, from, path) >= 0.0
    decreases |path|
  {
    if path != [] { PathLengthNonNegative(w, path[0], path[1..]); }
  }

  /** Driving for b1 and then for b2 is driving for b1 + b2: a tick may be cut anywhere. */
  lemma {:induction false} TravelIsAdditive(w: World, m: Motion, b1: real, b2: real)
    requires b1 >= 0.0 && b2 >= 0.0
    ensures Travel(w, Travel(w, m, b1), b2) == Travel(w, m, b1 + b2)
    decreases |m.path|
  {
    if b1 > 0.0 && m.path != [] {
      var remaining := w.leg(m.node, m.path[0]) - m.progress;
      if b1 >= remaining {
        var next := Motion(m.path[0], m.path[1..], 0.0, m.seqId + 2);
        if remaining >= 0.0 || b1 - remaining >= 0.0 {
          TravelIsAdditive(w, next, b1 - remaining, b2);
          assert b1 - remaining + b2 == b1 + b2 - remaining;
        }
      }
    }
  }

  lemma LegLeft(w: World, m: Motion)
    requires w.Valid() && OnLeg(w, m) && m.path != []
    ensures w.leg(m.node, m.path[0]) - m.progress >= 0.0
  {
  }

  /** The budget is spent to the metre: what lies ahead shrinks by exactly min(budget, what lay ahead). */
  lemma {:induction false} TravelConsumesBudget(w: World, m: Motion, budget: real)
    requires w.Valid() && OnLeg(w, m) && budget >= 0.0
    ensures Ahead(w, m) >= 0.0
    ensures Ahead(w, Travel(w, m, budget)) == Ahead(w, m) - MinReal(budget, Ahead(w, m))
    decreases |m.path|
  {
    hide World.Valid;
    if m.path != [] {
      var next := Motion(m.path[0], m.path[1..], 0.0, m.seqId + 2);
      PathLengthNonNegative(w, next.node, next.path);
      LegLeft(w, m);
      var remaining := w.leg(m.node, m.path[0]) - m.progress;
      if budget > 0.0 && budget >= remaining {
        TravelConsumesBudget(w, next, budget - remaining);
      }
    }
  }

  /**
    A partial leg stays partial (so the fraction of it is a division by a positive length), the robot
    stays on the map, only whole waypoints are dropped from the front, and each is two sequence ids.
   */
  lemma {:induction false} TravelStaysOnRoute(w: World, m: Motion, budget: real)
    requires w.Valid() && OnLeg(w, m) && OnMap(w, m)
    ensures var t := Travel(w, m, budget);
      && OnLeg(w, t) && OnMap(w, t)
      && |t.path| <= |m.path| && t.path == m.path[|m.path| - |t.path|..]
      && t.node == (if |t.path| == |m.path| then m.node else m.path[|m.path| - |t.path| - 1])
      && t.seqId == m.seqId + 2 * (|m.path| - |t.path|)
    decreases |m.path|
  {
    hide World.Valid;
    if budget > 0.0 && m.path != [] {
      var remaining := w.leg(m.node, m.path[0]) - m.progress;
      if budget >= remaining {
        var next := Motion(m.path[0], m.path[1..], 0.0, m.seqId + 2);
        TravelStaysOnRoute(w, next, budget - remaining);
        DropMore(m.path, |Travel(w, next, budget - remaining).path|);
        hide Travel, OnMap, OnLeg;
      }
    }
  }

  lemma DropMore(path: seq<string>, left: nat)
    requires left < |path|
    ensures path[1..][|path| - 1 - left..] == path[|path| - left..]
    ensures left < |path| - 1 ==> path[1..][|path| - 2 - left] == path[|path| - left - 1]
  {
  }

  lemma {:induction false} TravelKeepsDestination(w: World, m: Motion, budget: real)
    ensures Destination(Travel(w, m, budget)) == Destination(m)
    ensures m.path == [] ==> Travel(w, m, budget) == m
    decreases |m.path|
  {
    if budget > 0.0 && m.path != [] && budget >= w.leg(m.node, m.path[0]) - m.progress {
      var remaining := w.leg(m.node, m.path[0]) - m.progress;
      TravelKeepsDestination(w, Motion(m.path[0], m.path[1..], 0.0, m.seqId + 2), budget - remaining);
    }
  }

  /** Arrival: more budget than road always empties the path, less never does. */
  lemma {:induction false} TravelArrival(w: World, m: Motion, budget: real)
    requires w.Valid() && OnLeg(w, m) && budget >= 0.0
    ensures budget > Ahead(w, m) ==> Travel(w, m, budget).path == []
    ensures budget < Ahead(w, m) ==> Travel(w, m, budget).path != []
    decreases |m.path|
  {
    hide World.Valid;
    if budget > 0.0 && m.path != [] {
      LegLeft(w, m);
      var remaining := w.leg(m.node, m.path[0]) - m.progress;
      var next := Motion(m.path[0], m.path[1..], 0.0, m.seqId + 2);
      PathLengthNonNegative(w, next.node, next.path);
      if budget >= remaining {
        TravelArrival(w, next, budget - remaining);
      }
    } else if m.path != [] {
      TravelConsumesBudget(w, m, budget);
    }
  }
}
