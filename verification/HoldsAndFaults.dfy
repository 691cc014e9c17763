/** Traps in the interplay of operator holds and faults, each with the exact event that springs it. */
module HoldsAndFaults {
  import opened Options
  import opened RouteTravel
  import opened ActionReports
  import opened RobotState
  import opened ActionLifecycle

  predicate FaultStrikes(r: Robot, op: Op) {
    op.Tick? && r.fault.None? && MaybeFault(r, op.tick, op.draws.fault) != r
  }

  /** A fault is on the books of a robot that no longer counts its ticks down. */
  predicate GhostFault(r: Robot) { r.fault.Some? && r.status != Faulted }

  // ---- a hold that `resume` cannot lift ------------------------------------

  /** Held, with "paused" remembered as the status to go back to. */
  predicate StuckHold(r: Robot) { Held(r.status) && r.resume == Paused }

  /** `resume` frees a held robot exactly when it does not remember "paused". */
  lemma ResumeFrees(w: World, r: Robot)
    requires Settled(r) && Held(r.status)
    ensures ApplyVerb(w, r, Resume).1
    ensures Held(ApplyVerb(w, r, Resume).0.status) <==> StuckHold(r)
  {
  }

  /** Only an emergency stop on top of a pause creates such a hold; only `charge` or a fault ends it. */
  lemma StuckHoldLife(w: World, r: Robot, op: Op)
    requires Settled(r)
    ensures !StuckHold(r) ==> (StuckHold(Apply(w, r, op)) <==> op == Command(EStop) && r.status == Paused)
    ensures StuckHold(r) ==> (StuckHold(Apply(w, r, op)) <==> op != Command(Charge) && !FaultStrikes(r, op))
  {
    hide StepRobot, ApplyVerb, ApplyOrder;
    match op
    case Tick(_, _, _, _) => TickHolds(w, r, op);
    case OrderIn(o) => OrderHolds(w, r, o);
    case Command(v) => VerbHolds(w, r, v);
    case Crew(_) =>
    case Report =>
  }

  lemma TickHolds(w: World, r: Robot, op: Op)
    requires Settled(r) && op.Tick?
    ensures var s := Apply(w, r, op);
      && (StuckHold(s) <==> StuckHold(r) && !FaultStrikes(r, op))
      && (GhostFault(s) <==> GhostFault(r)) && (GhostFault(r) ==> s.fault == r.fault)
  {
    hide StepRunning;
    var t := MaybeFault(r, op.tick, op.draws.fault);
    if t.status in {Idle, AtMove, AtWork, ToCharger} { RunningSettles(w, op.missions, t, op.dt, op.draws); }
  }

  lemma OrderHolds(w: World, r: Robot, o: Order)
    requires Settled(r)
    ensures var s := ApplyOrder(w, r, o).0;
      (StuckHold(s) <==> StuckHold(r)) && (GhostFault(s) <==> GhostFault(r)) && s.fault == r.fault
  {
    hide OrderPath, OnlyWaypoints;
  }

  lemma ChargeHolds(w: World, r: Robot)
    requires Settled(r)
    ensures var s := ApplyCharge(w, r).0;
      !StuckHold(s) && (GhostFault(s) <==> GhostFault(r)) && s.fault == r.fault
  {
    hide RouteTo;
    var freed := if Held(r.status) then r.(status := r.resume) else r;
    RouteToFrame(w, StageTerminal(freed, Failed), w.nearestCharger(r.motion.node), ToCharger);
  }

  lemma VerbHolds(w: World, r: Robot, v: Verb)
    requires Settled(r)
    ensures var s := ApplyVerb(w, r, v).0;
      && (StuckHold(s) <==> if StuckHold(r) then v != Charge else v == EStop && r.status == Paused)
      && (GhostFault(s) <==> GhostFault(r) || (v == EStop && r.status == Faulted)) && s.fault == r.fault
  {
    hide ApplyCharge;
    ChargeHolds(w, r);
  }

  /**
    Pausing and resuming gives back exactly the robot there was, except that a task it was busy with is discarded:
    reported as FAILED, with the route dropped.
   */
  lemma ResumeAfterPause(w: World, r: Robot)
    requires r.status != Faulted && !Held(r.status)
    ensures var s := ApplyVerb(w, ApplyVerb(w, r, Pause).0, Resume).0;
      if r.status in {AtMove, AtWork} then
        && s.status == Idle && s.task.None? && s.motion == r.motion.(path := []) && s.order == r.order
        && s.pending == r.pending + if r.task.None? then []
                                    else [Staged(ActionState(ActionIdOf(r), r.task.value, Failed), REPEATS)]
      else s == r.(resume := r.status)
  {
  }

  // ---- a fault that never clears -------------------------------------------

  /** Exactly an emergency stop during a fault leaves one behind, and nothing ever takes it away. */
  lemma GhostFaultLife(w: World, r: Robot, op: Op)
    requires Settled(r)
    ensures !GhostFault(r) ==> (GhostFault(Apply(w, r, op)) <==> op == Command(EStop) && r.status == Faulted)
    ensures GhostFault(r) ==> GhostFault(Apply(w, r, op)) && Apply(w, r, op).fault == r.fault
  {
    hide StepRobot, ApplyVerb, ApplyOrder;
    match op
    case Tick(_, _, _, _) => TickHolds(w, r, op);
    case OrderIn(o) => OrderHolds(w, r, o);
    case Command(v) => VerbHolds(w, r, v);
    case Crew(_) =>
    case Report =>
  }

  /** So the vehicle reports that fault for the rest of its life, and no other fault ever strikes it. */
  lemma {:induction false} GhostFaultIsForever(w: World, r: Robot, ops: seq<Op>)
    requires Settled(r) && GhostFault(r)
    ensures GhostFault(ApplyAll(w, r, ops)) && ApplyAll(w, r, ops).fault == r.fault
  {
    if ops != [] {
      var before := ops[..|ops| - 1];
      GhostFaultIsForever(w, r, before);
      RunSettled(w, r, before);
      GhostFaultLife(w, ApplyAll(w, r, before), ops[|ops| - 1]);
    }
  }

  // ---- a task that vanishes ------------------------------------------------

  function QuietTick(dt: real): Op { Tick([], 0, dt, Draws(None, None)) }

  function QuietTicks(dt: real, n: nat): seq<Op> { seq(n, _ => QuietTick(dt)) }

  lemma {:induction false} FaultCountsDown(w: World, r: Robot, dt: real, n: nat)
    requires r.status == Faulted && r.fault.Some? && r.faultTicks >= n
    ensures ApplyAll(w, r, QuietTicks(dt, n)) ==
      if n < r.faultTicks || n == 0 then r.(faultTicks := r.faultTicks - n)
      else r.(status := r.resume, fault := None, faultTicks := 0)
    decreases n
  {
    hide StepRunning, RouteTo;
    if n > 0 {
      FaultCountsDown(w, r, dt, n - 1);
      assert QuietTicks(dt, n)[..n - 1] == QuietTicks(dt, n - 1);
    }
  }

  /**
    The one exception to reporting every end is real: a fault of any duration strikes a robot at work, runs
    out, and the next assignment replaces the action without a word having been staged about it.
   */
  lemma FaultLosesTask(w: World, r: Robot, dt: real, f: FaultDraw, d: TaskDraw)
    requires Consistent(r) && r.status == AtWork && r.fault.None? && r.battery > LOW_BATTERY_GO_CHARGE
    requires f.ticks >= 2
    ensures var struck := Apply(w, r, Tick([], 0, dt, Draws(Some(f), None)));
      var idle := ApplyAll(w, struck, QuietTicks(dt, f.ticks - 1));
      var next := Apply(w, idle, Tick([], 0, dt, Draws(None, Some(d))));
      && InFlight(idle) == InFlight(r) && InFlight(r).Some?
      && InFlight(next) != InFlight(r) && next.pending == r.pending
  {
    StruckAtWork(w, r, dt, f);
    IdleAfterFault(r, dt, d);
    hide StepRobot, NotAhead, Settled, Overwrites, ApplyOrder, ApplyVerb;
    var struck := Apply(w, r, Tick([], 0, dt, Draws(Some(f), None)));
    FaultCountsDown(w, struck, dt, f.ticks - 1);
    var idle := struck.(status := Idle, fault := None, faultTicks := 0);
    NoSilentDrop(w, idle, Tick([], 0, dt, Draws(None, Some(d))));
  }

  lemma StruckAtWork(w: World, r: Robot, dt: real, f: FaultDraw)
    requires r.status == AtWork && r.fault.None? && f.ticks >= 2
    ensures Apply(w, r, Tick([], 0, dt, Draws(Some(f), None))) ==
      r.(fault := Some(f.kind), faultTicks := f.ticks - 1, status := Faulted, resume := Idle)
  {
  }

  /** Idle again after a fault at work, with the task still in hand: the next assignment goes over it. */
  lemma IdleAfterFault(r: Robot, dt: real, d: TaskDraw)
    requires Consistent(r) && r.status == AtWork && r.fault.None? && r.battery > LOW_BATTERY_GO_CHARGE
    ensures var idle := r.(status := Idle, resume := Idle, fault := None, faultTicks := 0);
      && Consistent(idle) && InFlight(idle) == InFlight(r) && InFlight(r).Some?
      && Overwrites(idle, Tick([], 0, dt, Draws(None, Some(d))))
  {
  }
}
