/** Whole runs of one robot: what happens to an action between being handed out and its last report. */
module ActionLifecycle {
  import opened Options
  import opened RouteTravel
  import opened ActionReports
  import opened RobotState

  /** Everything that can happen to one robot. `Crew` is the mission pool taking or releasing it. */
  datatype Op =
    | Tick(missions: seq<Mission>, tick: nat, dt: real, draws: Draws)
    | OrderIn(order: Order)
    | Command(verb: Verb)
    | Crew(mission: Option<nat>)
    | Report

  function Apply(w: World, r: Robot, op: Op): Robot {
    match op
    case Tick(ms, tick, dt, draws) => StepRobot(w, ms, tick, r, dt, draws).1
    case OrderIn(o) => ApplyOrder(w, r, o).0
    case Command(v) => ApplyVerb(w, r, v).0
    case Crew(m) => r.(mission := m)
    case Report => Publish(r).0
  }

  ghost predicate IsMinted(serial: string, id: string) { exists n: nat :: id == MintedId(serial, n) }

  /** Master control never makes up an id of the form the vehicle mints. */
  ghost predicate Foreign(serial: string, op: Op) {
    op.OrderIn? ==> var a := FirstAction(op.order.actions); a.Some? ==> !IsMinted(serial, a.value.id)
  }

  // ---- what every event keeps ---------------------------------------------

  predicate ChargerBound(s: Status) { s == ToCharger || s == Charging }

  /** `id` is not an id the vehicle has yet to mint. */
  ghost predicate NotAhead(serial: string, id: string, minted: nat) {
    forall n: nat | n > minted :: id != MintedId(serial, n)
  }

  /** A task in hand has an id, and what the robot does fits what it holds. */
  predicate Settled(r: Robot) {
    && (r.task.Some? ==> r.actionId.Some? && r.actionId.value != "")
    && (r.status == AtWork ==> r.task.Some?)
    && (ChargerBound(r.status) ==> r.task.None?)
    && ((r.status == Faulted || Held(r.status)) && ChargerBound(r.resume) ==> r.task.None?)
    && (r.status == Faulted ==> r.resume in {Idle, AtMove, ToCharger} && r.fault.Some?)
    && (Held(r.status) ==> r.resume != Faulted && r.resume != EStopped)
  }

  ghost predicate Consistent(r: Robot) {
    Settled(r) && (r.actionId.Some? ==> NotAhead(r.serial, r.actionId.value, r.actionSeq))
  }

  lemma MintedNotAhead(serial: string, k: nat)
    ensures NotAhead(serial, MintedId(serial, k), k)
  {
    forall n: nat | n > k ensures MintedId(serial, k) != MintedId(serial, n) {
      if MintedId(serial, k) == MintedId(serial, n) { MintedIdInjective(serial, k, n); }
    }
  }

  /** Nothing reached a terminal report, and an action that was in flight still is. */
  ghost predicate Kept(r: Robot, s: Robot) {
    s.pending == r.pending && s.tasksDone == r.tasksDone && (r.task.Some? ==> InFlight(s) == InFlight(r))
  }

  /** The action in flight got exactly one terminal report, and is in flight no more. */
  ghost predicate Closed(r: Robot, s: Robot, status: ActionStatus) {
    && r.task.Some?
    && s.pending == r.pending + [Staged(ActionState(ActionIdOf(r), r.task.value, status), REPEATS)]
    && s.tasksDone == r.tasksDone + (if status == Finished then 1 else 0)
    && InFlight(s) != InFlight(r)
  }

  /** The action in flight is replaced and nobody is told. */
  ghost predicate Dropped(r: Robot, s: Robot) {
    s.pending == r.pending && s.tasksDone == r.tasksDone && r.task.Some? && InFlight(s) != InFlight(r)
  }

  /** A minted id that newly comes into flight was minted in this very step. */
  ghost predicate FreshlyMinted(r: Robot, s: Robot) {
    s.task.Some? && InFlight(s) != InFlight(r) && IsMinted(s.serial, ActionIdOf(s)) ==>
      s.actionSeq == r.actionSeq + 1 && ActionIdOf(s) == MintedId(s.serial, s.actionSeq)
  }

  predicate Moves(r: Robot, s: Robot) {
    s.serial == r.serial && r.actionSeq <= s.actionSeq <= r.actionSeq + 1 && Settled(s)
  }

  ghost predicate Follows(r: Robot, s: Robot) {
    Moves(r, s) && Consistent(s) && FreshlyMinted(r, s)
  }

  ghost predicate Reported(r: Robot, s: Robot) {
    Kept(r, s) || Closed(r, s, Finished) || Closed(r, s, Failed)
  }

  /** The fields that say which action is in flight and what was said about it. */
  predicate SameAction(r: Robot, s: Robot) {
    && s.serial == r.serial && s.task == r.task && s.actionId == r.actionId && s.actionSeq == r.actionSeq
    && s.pending == r.pending && s.tasksDone == r.tasksDone && s.resume == r.resume && s.fault == r.fault
  }

  lemma RouteToFrame(w: World, r: Robot, target: string, status: Status)
    requires status == AtMove || status == ToCharger
    ensures var s := RouteTo(w, r, target, status);
      && SameAction(r, s)
      && (status == ToCharger ==> ChargerBound(s.status))
      && (status == AtMove ==> s.status == AtMove || s.status == (if r.task.Some? then AtWork else Idle))
  {
  }

  lemma AdvanceFrame(w: World, r: Robot, dt: real)
    requires r.status == AtMove || r.status == ToCharger
    ensures var s := Advance(w, r, dt);
      && SameAction(r, s)
      && (r.status == ToCharger ==> ChargerBound(s.status))
      && (r.status == AtMove ==> s.status == AtMove || s.status == (if r.task.Some? then AtWork else Idle))
  {
  }

  lemma DivertReports(w: World, r: Robot)
    requires Consistent(r)
    ensures var s := Divert(w, r);
      Follows(r, s) && Reported(r, s) && s.task.None? && ChargerBound(s.status)
  {
    RouteToFrame(w, StageTerminal(r, Failed), w.nearestCharger(r.motion.node), ToCharger);
  }

  lemma AssignReplaces(w: World, ms: seq<Mission>, r: Robot, d: TaskDraw)
    requires Consistent(r)
    ensures var s := AssignTask(w, ms, r, d).1;
      && Follows(r, s)
      && s.actionSeq == r.actionSeq + 1 && InFlight(s) == Some(MintedId(r.serial, s.actionSeq))
      && (if r.task.Some? then Dropped(r, s) else Kept(r, s))
  {
    MintedNotAhead(r.serial, r.actionSeq + 1);
    RouteToFrame(w, TagTask(ms, Tasked(r, d.kind)).1, d.target, AtMove);
  }

  lemma WorkReports(ms: seq<Mission>, r: Robot, dt: real)
    requires Consistent(r) && r.status == AtWork
    ensures var s := StepWorking(ms, r, dt).1; Follows(r, s) && Reported(r, s)
  {
  }

  /** An idle robot with charge still holding a task (a fault or a hold left it there) is handed the next one. */
  predicate Overwrites(r: Robot, op: Op) {
    && op.Tick?
    && MaybeFault(r, op.tick, op.draws.fault) == r
    && r.status == Idle && r.battery > LOW_BATTERY_GO_CHARGE
    && op.draws.task.Some? && r.task.Some?
  }

  lemma FaultKeeps(r: Robot, tick: nat, draw: Option<FaultDraw>)
    requires Consistent(r)
    ensures var s := MaybeFault(r, tick, draw);
      Follows(r, s) && SameAction(r.(resume := s.resume, fault := s.fault), s) && (s == r || s.status == Faulted)
  {
  }

  lemma RunningOutcome(w: World, ms: seq<Mission>, r: Robot, dt: real, d: Draws)
    requires Consistent(r) && r.status in {Idle, AtMove, AtWork, ToCharger}
    ensures var s := StepRunning(w, ms, r, dt, d).1;
      && Follows(r, s)
      && if r.status == Idle && r.battery > LOW_BATTERY_GO_CHARGE && d.task.Some? && r.task.Some?
         then Dropped(r, s) else Reported(r, s)
  {
    if r.battery <= LOW_BATTERY_GO_CHARGE && r.status != ToCharger {
      DivertReports(w, r);
      var s := Divert(w, r);
      if s.status == ToCharger { AdvanceFrame(w, s, dt); }
    } else {
      match r.status
      case Idle => if d.task.Some? { AssignReplaces(w, ms, Idled(r, dt), d.task.value); }
      case AtWork => WorkReports(ms, r, dt);
      case _ => AdvanceFrame(w, r, dt);
    }
  }

  lemma TickOutcome(w: World, r: Robot, op: Op)
    requires Consistent(r) && op.Tick?
    ensures var s := Apply(w, r, op);
      Follows(r, s) && if Overwrites(r, op) then Dropped(r, s) else Reported(r, s)
  {
    hide StepRunning, NotAhead, IsMinted;
    FaultKeeps(r, op.tick, op.draws.fault);
    var t := MaybeFault(r, op.tick, op.draws.fault);
    if t.status in {Idle, AtMove, AtWork, ToCharger} {
      RunningOutcome(w, op.missions, t, op.dt, op.draws);
    }
  }

  lemma VerbOutcome(w: World, r: Robot, v: Verb)
    requires Consistent(r)
    ensures var s := ApplyVerb(w, r, v).0; Follows(r, s) && Reported(r, s)
  {
    hide RouteTo, NotAhead, IsMinted, Decimal;
    if v == Charge {
      var freed := if Held(r.status) then r.(status := r.resume) else r;
      RouteToFrame(w, StageTerminal(freed, Failed), w.nearestCharger(r.motion.node), ToCharger);
    }
  }

  /**
    An order names its action in flight or has an id minted for it; what was in flight is reported FAILED, unless the
    order restates its very id.
   */
  lemma AdoptOutcome(w: World, r: Robot, o: Order)
    requires Consistent(r)
    ensures var s := Adopt(w, r, o); Moves(r, s) && Reported(r, s)
    ensures Foreign(r.serial, OrderIn(o)) ==> Follows(r, Adopt(w, r, o))
    ensures !NamesAction(o) ==> Follows(r, Adopt(w, r, o))
    ensures NamesAction(o) ==>
      InFlight(Adopt(w, r, o)) == Some(FirstAction(o.actions).value.id) && Adopt(w, r, o).actionSeq == r.actionSeq
  {
    hide OrderPath;
    MintedNotAhead(r.serial, r.actionSeq + 1);
    var action := FirstAction(o.actions);
    if Foreign(r.serial, OrderIn(o)) && action.Some? && action.value.id != "" {
      assert forall n: nat :: action.value.id != MintedId(r.serial, n);
    }
  }

  /** The order has an action, under an id of its own. */
  predicate NamesAction(o: Order) {
    var a := FirstAction(o.actions);
    a.Some? && a.value.id != ""
  }

  /**
    Every event except one either keeps the action in flight or gives it exactly one terminal report in
    the same step. The exception is exactly the assignment of a new task to an idle robot that still
    holds one: that task vanishes unreported.
   */
  lemma NoSilentDrop(w: World, r: Robot, op: Op)
    requires Consistent(r) && !op.Report?
    ensures var s := Apply(w, r, op);
      && Moves(r, s)
      && (Foreign(r.serial, op) ==> Follows(r, s))
      && (Reported(r, s) <==> !Overwrites(r, op))
      && (Overwrites(r, op) ==> Dropped(r, s))
  {
    match op
    case Tick(_, _, _, _) => TickOutcome(w, r, op);
    case OrderIn(o) => if Judge(w, r, o) == Accepted { AdoptOutcome(w, r, o); }
    case Command(v) => VerbOutcome(w, r, v);
    case Crew(_) =>
  }

  // ---- runs ---------------------------------------------------------------

  function ApplyAll(w: World, r: Robot, ops: seq<Op>): Robot {
    if ops == [] then r else Apply(w, ApplyAll(w, r, ops[..|ops| - 1]), ops[|ops| - 1])
  }

  lemma DivertFrame(w: World, r: Robot)
    ensures var s := Divert(w, r);
      s.task.None? && s.actionId.None? && ChargerBound(s.status) && s.resume == r.resume && s.fault == r.fault
  {
    RouteToFrame(w, StageTerminal(r, Failed), w.nearestCharger(r.motion.node), ToCharger);
  }

  lemma AssignFrame(w: World, ms: seq<Mission>, r: Robot, d: TaskDraw)
    ensures var s := AssignTask(w, ms, r, d).1;
      && s.task.Some? && s.actionId.Some? && s.actionId.value != "" && s.status in {AtMove, AtWork}
      && s.resume == r.resume && s.fault == r.fault
  {
    RouteToFrame(w, TagTask(ms, Tasked(r, d.kind)).1, d.target, AtMove);
  }

  /** A robot that is running neither becomes held nor faulted, and stays settled. */
  lemma RunningSettles(w: World, ms: seq<Mission>, r: Robot, dt: real, d: Draws)
    requires r.status in {Idle, AtMove, AtWork, ToCharger}
    ensures var s := StepRunning(w, ms, r, dt, d).1;
      && !Held(s.status) && s.status != Faulted && s.fault == r.fault && s.resume == r.resume
      && (Settled(r) ==> Settled(s))
  {
    hide Divert, AssignTask, Advance;
    if r.battery <= LOW_BATTERY_GO_CHARGE && r.status != ToCharger {
      DivertFrame(w, r);
      if Divert(w, r).status == ToCharger { AdvanceFrame(w, Divert(w, r), dt); }
    } else {
      match r.status
      case Idle => if d.task.Some? { AssignFrame(w, ms, Idled(r, dt), d.task.value); }
      case AtWork =>
      case _ => AdvanceFrame(w, r, dt);
    }
  }

  lemma TickSettles(w: World, r: Robot, op: Op)
    requires Settled(r) && op.Tick?
    ensures Settled(Apply(w, r, op))
  {
    hide StepRunning;
    var t := MaybeFault(r, op.tick, op.draws.fault);
    if t.status in {Idle, AtMove, AtWork, ToCharger} { RunningSettles(w, op.missions, t, op.dt, op.draws); }
  }

  lemma VerbSettles(w: World, r: Robot, v: Verb)
    requires Settled(r)
    ensures Settled(ApplyVerb(w, r, v).0)
  {
    hide RouteTo;
    if v == Charge {
      var freed := if Held(r.status) then r.(status := r.resume) else r;
      RouteToFrame(w, StageTerminal(freed, Failed), w.nearestCharger(r.motion.node), ToCharger);
    }
  }

  lemma OrderSettles(w: World, r: Robot, o: Order)
    requires Settled(r)
    ensures Settled(ApplyOrder(w, r, o).0)
  {
    hide OrderPath, OnlyWaypoints;
  }

  /** Whatever ids master control uses, every event leaves the robot settled. */
  lemma StaysSettled(w: World, r: Robot, op: Op)
    requires Settled(r)
    ensures Settled(Apply(w, r, op))
  {
    hide StepRobot, ApplyVerb, ApplyOrder;
    match op
    case Tick(_, _, _, _) => TickSettles(w, r, op);
    case Command(v) => VerbSettles(w, r, v);
    case OrderIn(o) => OrderSettles(w, r, o);
    case Crew(_) =>
    case Report =>
  }

  lemma {:induction false} RunSettled(w: World, r: Robot, ops: seq<Op>)
    requires Settled(r)
    ensures Settled(ApplyAll(w, r, ops))
  {
    if ops != [] {
      RunSettled(w, r, ops[..|ops| - 1]);
      StaysSettled(w, ApplyAll(w, r, ops[..|ops| - 1]), ops[|ops| - 1]);
    }
  }
}
