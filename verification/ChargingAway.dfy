/** Routes over whole runs: every robot stays on the map, and which robots charge where there is no charger. */
module ChargingAway {
  import opened RouteTravel
  import opened ActionReports
  import opened RobotState
  import opened ActionLifecycle
  import opened HoldsAndFaults

  // ---- every reachable robot is on its route ------------------------------------------

  /** A task is only ever drawn for a place on the map. */
  predicate OnTheMap(w: World, op: Op) {
    op.Tick? && op.draws.task.Some? ==> op.draws.task.value.target in w.waypoints
  }

  ghost predicate OnRoute(w: World, m: Motion) { OnLeg(w, m) && OnMap(w, m) }

  lemma RoutedOnRoute(w: World, r: Robot, target: string, status: Status)
    requires w.Valid() && OnMap(w, r.motion) && target in w.waypoints
    ensures var m := RouteTo(w, r, target, status).motion; OnRoute(w, m) && Destination(m) == target
  {
  }

  lemma DivertOnRoute(w: World, r: Robot)
    requires w.Valid() && OnMap(w, r.motion)
    ensures OnRoute(w, Divert(w, r).motion) && Destination(Divert(w, r).motion) in w.chargers
  {
    RoutedOnRoute(w, StageTerminal(r, Failed), w.nearestCharger(r.motion.node), ToCharger);
    hide RouteTo;
  }

  lemma AssignOnRoute(w: World, ms: seq<Mission>, r: Robot, d: TaskDraw)
    requires w.Valid() && OnMap(w, r.motion) && d.target in w.waypoints
    ensures OnRoute(w, AssignTask(w, ms, r, d).1.motion)
  {
    RoutedOnRoute(w, TagTask(ms, Tasked(r, d.kind)).1, d.target, AtMove);
    hide RouteTo;
  }

  lemma AdvanceOnRoute(w: World, r: Robot, dt: real)
    requires w.Valid() && OnRoute(w, r.motion)
    ensures OnRoute(w, Advance(w, r, dt).motion)
  {
    TravelStaysOnRoute(w, r.motion, SPEED_MPS * dt);
  }

  lemma RunningOnRoute(w: World, ms: seq<Mission>, r: Robot, dt: real, d: Draws)
    requires w.Valid() && OnRoute(w, r.motion)
    requires d.task.Some? ==> d.task.value.target in w.waypoints
    ensures OnRoute(w, StepRunning(w, ms, r, dt, d).1.motion)
  {
    hide Divert, AssignTask, Advance;
    var s := if r.battery <= LOW_BATTERY_GO_CHARGE && r.status != ToCharger then Divert(w, r) else r;
    DivertOnRoute(w, r);
    AdvanceOnRoute(w, s, dt);
    if d.task.Some? { AssignOnRoute(w, ms, Idled(s, dt), d.task.value); }
  }

  lemma {:induction false} OnlyWaypointsAreOnMap(w: World, nodes: seq<string>)
    ensures forall n | n in OnlyWaypoints(w, nodes) :: n in w.waypoints
  {
    if nodes != [] { OnlyWaypointsAreOnMap(w, nodes[1..]); }
  }

  lemma OrderOnRoute(w: World, r: Robot, o: Order)
    requires OnRoute(w, r.motion)
    ensures OnRoute(w, ApplyOrder(w, r, o).0.motion)
  {
    hide OnlyWaypoints;
    OnlyWaypointsAreOnMap(w, o.nodes);
  }

  lemma VerbOnRoute(w: World, r: Robot, v: Verb)
    requires w.Valid() && OnRoute(w, r.motion)
    ensures OnRoute(w, ApplyVerb(w, r, v).0.motion)
  {
    var freed := if Held(r.status) then r.(status := r.resume) else r;
    RoutedOnRoute(w, StageTerminal(freed, Failed), w.nearestCharger(r.motion.node), ToCharger);
    hide RouteTo;
  }

  lemma StaysOnRoute(w: World, r: Robot, op: Op)
    requires w.Valid() && OnRoute(w, r.motion) && OnTheMap(w, op)
    ensures OnRoute(w, Apply(w, r, op).motion)
  {
    hide StepRunning, ApplyVerb, ApplyOrder, OnRoute;
    match op
    case Tick(ms, tick, dt, draws) => RunningOnRoute(w, ms, MaybeFault(r, tick, draws.fault), dt, draws);
    case OrderIn(o) => OrderOnRoute(w, r, o);
    case Command(v) => VerbOnRoute(w, r, v);
    case Crew(_) =>
    case Report =>
  }

  /**
    At every point of every run a robot stands on the map with only places of the map ahead, and what it has done of
    the current leg is less than that leg: the fraction a message gives of it is a division by a positive length.
   */
  lemma {:induction false} RunStaysOnRoute(w: World, r: Robot, ops: seq<Op>)
    requires w.Valid() && OnRoute(w, r.motion) && forall op | op in ops :: OnTheMap(w, op)
    ensures OnRoute(w, ApplyAll(w, r, ops).motion)
  {
    if ops != [] {
      RunStaysOnRoute(w, r, ops[..|ops| - 1]);
      StaysOnRoute(w, ApplyAll(w, r, ops[..|ops| - 1]), ops[|ops| - 1]);
    }
  }

  // ---- charging without a charger -------------------------------------------------------

  /** On its way to charge, charging, or held or faulted meanwhile. */
  predicate ForCharge(r: Robot) {
    ChargerBound(r.status) || ((r.status == Faulted || Held(r.status)) && ChargerBound(r.resume))
  }

  predicate OffCourse(w: World, r: Robot) { ForCharge(r) && Destination(r.motion) !in w.chargers }

  /** A robot that charges, or is held while it does, has no road ahead. */
  predicate Parked(r: Robot) {
    r.status == Charging || ((r.status == Faulted || Held(r.status)) && r.resume == Charging) ==> r.motion.path == []
  }

  /** Its order is cancelled while it is held on its way to a charger. */
  predicate Springs(w: World, r: Robot, op: Op) {
    op == Command(CancelOrder) && Held(r.status) && r.resume == ToCharger && r.motion.node !in w.chargers
  }

  predicate Ends(w: World, r: Robot, op: Op) {
    match op
    case Tick(_, _, dt, _) =>
      || (FaultStrikes(r, op) && r.status != ToCharger)
      || (r.status == Charging && r.battery + CHARGE_RATE * dt >= CHARGED_ENOUGH)
    case OrderIn(o) => Judge(w, r, o) == Accepted
    case Command(Charge) => r.status != Faulted && r.status != Charging
    case Command(EStop) => r.status == Faulted || r.status == Paused
    case Command(CancelOrder) => r.status == ToCharger || (Held(r.status) && r.motion.node in w.chargers)
    case _ => false
  }

  predicate Follow(w: World, r: Robot, op: Op, s: Robot) {
    && Parked(s)
    && OffCourse(w, s) == if OffCourse(w, r) then !Ends(w, r, op) else Springs(w, r, op)
  }

  lemma RoutedParks(w: World, r: Robot, target: string)
    ensures var s := RouteTo(w, r, target, ToCharger); s.status == Charging ==> s.motion.path == []
  {
  }

  lemma AdvanceParks(w: World, r: Robot, dt: real)
    ensures var s := Advance(w, r, dt);
      && Destination(s.motion) == Destination(r.motion)
      && (s.status == Charging && r.status != Charging ==> s.motion.path == [])
  {
    TravelKeepsDestination(w, r.motion, SPEED_MPS * dt);
  }

  lemma RunningFollows(w: World, r: Robot, op: Op)
    requires w.Valid() && OnMap(w, r.motion) && Settled(r) && op.Tick? && r.status in {Idle, AtMove, AtWork, ToCharger}
    requires !FaultStrikes(r, op)
    ensures Follow(w, r, op, StepRunning(w, op.missions, r, op.dt, op.draws).1)
  {
    hide Divert, AssignTask, Advance, World.Valid, OnMap, MaybeFault;
    var ms, dt, d := op.missions, op.dt, op.draws;
    if r.battery <= LOW_BATTERY_GO_CHARGE && r.status != ToCharger {
      var s := Divert(w, r);
      DivertFrame(w, r);
      DivertOnRoute(w, r);
      DivertParks(w, r);
      AdvanceParks(w, s, dt);
      if s.status == ToCharger { AdvanceFrame(w, s, dt); }
    } else if r.status == Idle {
      if d.task.Some? { AssignFrame(w, ms, Idled(r, dt), d.task.value); }
    } else if r.status != AtWork {
      AdvanceParks(w, r, dt);
      AdvanceFrame(w, r, dt);
    }
  }

  lemma DivertParks(w: World, r: Robot)
    ensures Divert(w, r).status == Charging ==> Divert(w, r).motion.path == []
  {
    RoutedParks(w, StageTerminal(r, Failed), w.nearestCharger(r.motion.node));
    hide RouteTo;
  }

  lemma TickFollows(w: World, r: Robot, op: Op)
    requires w.Valid() && OnMap(w, r.motion) && Settled(r) && Parked(r) && op.Tick?
    ensures Follow(w, r, op, Apply(w, r, op))
  {
    hide StepRunning, World.Valid, OnMap;
    if !FaultStrikes(r, op) && r.status in {Idle, AtMove, AtWork, ToCharger} { RunningFollows(w, r, op); }
  }

  lemma ChargeFollows(w: World, r: Robot)
    requires w.Valid() && OnMap(w, r.motion) && Settled(r) && Parked(r)
    ensures Follow(w, r, Command(Charge), ApplyCharge(w, r).0)
  {
    hide RouteTo;
    var freed := StageTerminal(if Held(r.status) then r.(status := r.resume) else r, Failed);
    RouteToFrame(w, freed, w.nearestCharger(r.motion.node), ToCharger);
    RoutedOnRoute(w, freed, w.nearestCharger(r.motion.node), ToCharger);
    RoutedParks(w, freed, w.nearestCharger(r.motion.node));
  }

  lemma VerbFollows(w: World, r: Robot, v: Verb)
    requires w.Valid() && OnMap(w, r.motion) && Settled(r) && Parked(r)
    ensures Follow(w, r, Command(v), ApplyVerb(w, r, v).0)
  {
    hide RouteTo, ApplyCharge, World.Valid, OnMap;
    if v == Charge { ChargeFollows(w, r); }
  }

  lemma OrderFollows(w: World, r: Robot, o: Order)
    requires Settled(r) && Parked(r)
    ensures Follow(w, r, OrderIn(o), ApplyOrder(w, r, o).0)
  {
    hide OrderPath, Superseded;
  }

  /**
    A robot comes off its course to a charger by exactly one event, the cancellation of its order while it is held on
    the way there, and returns from it by exactly the events of `Ends`.
   */
  lemma OffCourseLife(w: World, r: Robot, op: Op)
    requires w.Valid() && OnMap(w, r.motion) && Settled(r) && Parked(r)
    ensures !OffCourse(w, r) ==> (OffCourse(w, Apply(w, r, op)) <==> Springs(w, r, op))
    ensures OffCourse(w, r) ==> (OffCourse(w, Apply(w, r, op)) <==> !Ends(w, r, op))
    ensures Parked(Apply(w, r, op))
  {
    match op
    case Tick(_, _, _, _) => TickFollows(w, r, op);
    case OrderIn(o) => OrderFollows(w, r, o);
    case Command(v) => VerbFollows(w, r, v);
    case Crew(_) =>
    case Report =>
  }

  /** A robot as built meets every condition the runs below start from. */
  lemma BuiltOnCourse(w: World, id: string, serial: string, node: string, battery: real)
    requires node in w.waypoints
    ensures var r := NewRobot(id, serial, node, battery);
      OnRoute(w, r.motion) && Settled(r) && Parked(r) && !OffCourse(w, r)
  {
  }

  /** Somewhere in the run the order was cancelled on the way, and nothing has ended it since. */
  predicate Sprung(w: World, r: Robot, ops: seq<Op>) {
    exists k | 0 <= k < |ops| :: Springs(w, ApplyAll(w, r, ops[..k]), ops[k]) && Unended(w, r, ops, k)
  }

  predicate Unended(w: World, r: Robot, ops: seq<Op>, k: nat) {
    forall j | k < j < |ops| :: !Ends(w, ApplyAll(w, r, ops[..j]), ops[j])
  }

  lemma SprungSnoc(w: World, r: Robot, ops: seq<Op>)
    requires ops != []
    ensures var before, s := ops[..|ops| - 1], ApplyAll(w, r, ops[..|ops| - 1]); var op := ops[|ops| - 1];
      Sprung(w, r, ops) <==> Springs(w, s, op) || (Sprung(w, r, before) && !Ends(w, s, op))
  {
    hide Springs, Ends, ApplyAll;
    var before, n := ops[..|ops| - 1], |ops| - 1;
    assert forall j | 0 <= j < n :: before[..j] == ops[..j];
    if Sprung(w, r, ops) {
      var k :| 0 <= k < |ops| && Springs(w, ApplyAll(w, r, ops[..k]), ops[k]) && Unended(w, r, ops, k);
      if k < n { assert Unended(w, r, before, k); }
    }
    if Springs(w, ApplyAll(w, r, before), ops[n]) {
      assert Unended(w, r, ops, n);
    } else if Sprung(w, r, before) && !Ends(w, ApplyAll(w, r, before), ops[n]) {
      var k :| 0 <= k < n && Springs(w, ApplyAll(w, r, before[..k]), before[k]) && Unended(w, r, before, k);
      assert Unended(w, r, ops, k);
    }
  }

  /**
    Over every run: a robot charges away from every charger exactly if its order was cancelled while it was paused or
    stopped on its way to one, and none of the events of `Ends` came between.
   */
  lemma {:induction false} ChargesAway(w: World, r: Robot, ops: seq<Op>)
    requires w.Valid() && OnRoute(w, r.motion) && Settled(r) && Parked(r) && !OffCourse(w, r)
    requires forall op | op in ops :: OnTheMap(w, op)
    ensures var s := ApplyAll(w, r, ops);
      && Parked(s) && (OffCourse(w, s) <==> Sprung(w, r, ops))
      && (s.status == Charging ==> (s.motion.node !in w.chargers <==> Sprung(w, r, ops)))
  {
    if ops != [] {
      var before := ops[..|ops| - 1];
      ChargesAway(w, r, before);
      RunSettled(w, r, before);
      RunStaysOnRoute(w, r, before);
      SprungSnoc(w, r, ops);
      OffCourseLife(w, ApplyAll(w, r, before), ops[|ops| - 1]);
      hide Springs, Ends, Sprung, Apply;
    }
  }

  /** And it does: once its order is cancelled there, a held robot resumes and charges where it happens to stand. */
  lemma ChargesAnywhere(w: World, r: Robot, dt: real)
    requires Held(r.status) && r.resume == ToCharger && r.fault.None?
    ensures var s := ApplyAll(w, r, [Command(CancelOrder), Command(Resume), QuietTick(dt)]);
      s.status == Charging && s.motion.node == r.motion.node
  {
    var ops := [Command(CancelOrder), Command(Resume), QuietTick(dt)];
    assert ops[..2][..1] == ops[..1] && ops[..1][..0] == [];
    var r1 := Apply(w, r, ops[0]);
    assert ApplyAll(w, r, ops[..1]) == r1;
    var r2 := Apply(w, r1, ops[1]);
    assert ApplyAll(w, r, ops[..2]) == r2 && r2.status == ToCharger && r2.motion.path == [];
  }
}
