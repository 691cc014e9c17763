/** What a tick does to one robot in numbers: metres, seconds of work and percent of battery, over runs of ticks. */
module TickEffects {
  import opened Collections
  import opened Options
  import opened RouteTravel
  import opened ActionReports
  import opened RobotState
  import opened ActionLifecycle
  import opened HoldsAndFaults
  import opened ChargingAway

  /** A tick in which no fault strikes the robot. */
  predicate Calm(r: Robot, op: Op) { op.Tick? && op.dt >= 0.0 && !FaultStrikes(r, op) }

  ghost predicate AllCalm(r: Robot, ops: seq<Op>) { forall op | op in ops :: Calm(r, op) }

  /** The seconds that pass in the ticks. */
  function Time(ops: seq<Op>): real {
    if ops == [] then 0.0
    else
      var last := ops[|ops| - 1];
      Time(ops[..|ops| - 1]) + if last.Tick? then last.dt else 0.0
  }

  /** What is left of a battery that loses so much. */
  function Drained(battery: real, loss: real): real { if battery - loss < 0.0 then 0.0 else battery - loss }

  lemma DrainedTwice(battery: real, a: real, b: real)
    requires battery >= 0.0 && a >= 0.0 && b >= 0.0
    ensures Drained(Drained(battery, a), b) == Drained(battery, a + b)
  {
  }

  lemma CalmTickRuns(w: World, r: Robot, op: Op)
    requires Calm(r, op)
    ensures r.status in {Idle, AtMove, AtWork, ToCharger} ==>
      Apply(w, r, op) == StepRunning(w, op.missions, r, op.dt, op.draws).1
    ensures r.status == Faulted ==> Apply(w, r, op) == StepFaulted(r)
    ensures Held(r.status) ==> Apply(w, r, op) == Idled(r, op.dt)
    ensures r.status == Charging ==> Apply(w, r, op) == StepCharging(r, op.dt)
  {
  }

  // ---- driving ----------------------------------------------------------------------------

  /** On the road, with battery enough not to break off. */
  predicate Driving(r: Robot) { r.status == ToCharger || (r.status == AtMove && r.battery > 20.0) }

  /** At the end of the road of `r`: at work for 12 seconds on what is in hand, idle, or at the charger. */
  predicate HasArrived(r: Robot, s: Robot) {
    && s.motion.path == [] && s.task == r.task && s.actionId == r.actionId
    && if r.status == ToCharger then s.status == Charging
       else if r.task.Some? then s.status == AtWork && s.workLeft == 12.0
       else s.status == Idle
  }

  /** Whole waypoints are dropped from the front of the road. */
  predicate FurtherOn(m: Motion, n: Motion) {
    && |n.path| <= |m.path| && n.path == m.path[|m.path| - |n.path|..]
    && n.node == (if |n.path| == |m.path| then m.node else m.path[|m.path| - |n.path| - 1])
    && n.seqId == m.seqId + 2 * (|m.path| - |n.path|)
  }

  /** Only driving happened. */
  predicate OnlyDrove(r: Robot, s: Robot) {
    s == r.(motion := s.motion, battery := s.battery, status := s.status, workLeft := s.workLeft)
  }

  lemma RoadShortens(w: World, m: Motion, budget: real)
    requires w.Valid() && OnRoute(w, m) && budget >= 0.0
    ensures var n, road := Travel(w, m, budget), Ahead(w, m);
      && OnRoute(w, n) && FurtherOn(m, n)
      && road >= 0.0 && Ahead(w, n) == (if budget < road then road - budget else 0.0)
      && (budget > road ==> n.path == []) && (budget < road ==> n.path != [])
  {
    hide World.Valid, Ahead, Travel;
    TravelConsumesBudget(w, m, budget);
    TravelStaysOnRoute(w, m, budget);
    TravelArrival(w, m, budget);
    hide OnLeg, OnMap;
  }

  lemma AdvanceMoves(w: World, r: Robot, dt: real)
    requires dt >= 0.0 && r.status in {AtMove, ToCharger}
    ensures var s := Advance(w, r, dt);
      && s.motion == Travel(w, r.motion, 1.2 * dt) && OnlyDrove(r, s) && s.battery == Drained(r.battery, 0.09 * dt)
      && (if s.motion.path == [] then HasArrived(r, s) else s.status == r.status && s.workLeft == r.workLeft)
  {
    hide Travel;
  }

  lemma AdvanceDrives(w: World, r: Robot, dt: real)
    requires w.Valid() && OnRoute(w, r.motion) && dt >= 0.0 && r.status in {AtMove, ToCharger}
    ensures var s := Advance(w, r, dt); var road := Ahead(w, r.motion);
      && OnlyDrove(r, s) && s.battery == Drained(r.battery, 0.09 * dt)
      && OnRoute(w, s.motion) && FurtherOn(r.motion, s.motion)
      && road >= 0.0 && Ahead(w, s.motion) == (if 1.2 * dt < road then road - 1.2 * dt else 0.0)
      && (1.2 * dt > road ==> s.motion.path == []) && (1.2 * dt < road ==> s.motion.path != [])
      && (if s.motion.path == [] then HasArrived(r, s) else s.status == r.status && s.workLeft == r.workLeft)
  {
    hide *;
    RoadShortens(w, r.motion, 1.2 * dt);
    AdvanceMoves(w, r, dt);
  }

  /**
    One tick on the road: 1.2 metres of it per second, the rest of the road is a suffix of what it was, 0.09 percent of
    battery per second; the robot arrives in the tick in which the road runs out, and otherwise nothing else changes.
   */
  lemma TickDrives(w: World, r: Robot, op: Op)
    requires w.Valid() && OnRoute(w, r.motion) && Calm(r, op) && Driving(r)
    ensures var s := Apply(w, r, op); var road := Ahead(w, r.motion);
      && OnlyDrove(r, s) && s.battery == Drained(r.battery, 0.09 * op.dt)
      && OnRoute(w, s.motion) && FurtherOn(r.motion, s.motion)
      && road >= 0.0 && Ahead(w, s.motion) == (if 1.2 * op.dt < road then road - 1.2 * op.dt else 0.0)
      && (1.2 * op.dt > road ==> s.motion.path == []) && (1.2 * op.dt < road ==> s.motion.path != [])
      && (if s.motion.path == [] then HasArrived(r, s) else s.status == r.status && s.workLeft == r.workLeft)
  {
    hide Advance, World.Valid, OnRoute, Ahead, OnlyDrove, FurtherOn, HasArrived, Apply, FaultStrikes;
    CalmTickRuns(w, r, op);
    AdvanceDrives(w, r, op.dt);
  }

  ghost predicate StillOnTheRoad(w: World, r: Robot, s: Robot, time: real) {
    && OnlyDrove(r, s) && s.status == r.status && s.workLeft == r.workLeft
    && s.battery == Drained(r.battery, 0.09 * time)
    && OnRoute(w, s.motion) && Destination(s.motion) == Destination(r.motion)
    && Ahead(w, s.motion) >= 0.0 && Ahead(w, s.motion) == Ahead(w, r.motion) - 1.2 * time
  }

  ghost predicate ArrivedBy(w: World, r: Robot, ops: seq<Op>, n: nat) {
    1 <= n <= |ops| &&
    var s := ApplyAll(w, r, ops[..n]);
    HasArrived(r, s) && s.motion.node == Destination(r.motion)
  }

  lemma FurtherOnEndsThere(m: Motion, n: Motion)
    requires FurtherOn(m, n)
    ensures Destination(n) == Destination(m)
  {
  }

  lemma OneTickFurther(w: World, r: Robot, s: Robot, time: real, op: Op)
    requires w.Valid() && Driving(s) && Calm(s, op) && StillOnTheRoad(w, r, s, time)
    requires r.battery >= 0.0 && time >= 0.0
    ensures var t := Apply(w, s, op);
      && (1.2 * (time + op.dt) < Ahead(w, r.motion) ==> StillOnTheRoad(w, r, t, time + op.dt))
      && (1.2 * (time + op.dt) > Ahead(w, r.motion) ==> t.motion.path == [])
      && (StillOnTheRoad(w, r, t, time + op.dt) || (HasArrived(r, t) && t.motion.node == Destination(r.motion)))
  {
    TickDrives(w, s, op);
    var t := Apply(w, s, op);
    FurtherOnEndsThere(s.motion, t.motion);
    DrainedTwice(r.battery, 0.09 * time, 0.09 * op.dt);
    assert 0.09 * time + 0.09 * op.dt == 0.09 * (time + op.dt);
    hide Apply, World.Valid, Drained, FurtherOn, OnRoute, Calm;
    if t.motion.path != [] { assert 1.2 * op.dt <= Ahead(w, s.motion); }
  }

  lemma CalmBefore(r: Robot, ops: seq<Op>)
    requires ops != [] && AllCalm(r, ops)
    ensures AllCalm(r, ops[..|ops| - 1]) && Calm(r, ops[|ops| - 1])
  {
    assert forall op | op in ops[..|ops| - 1] :: op in ops;
  }

  lemma ArrivedEarlier(w: World, r: Robot, ops: seq<Op>, n: nat)
    requires ops != [] && ArrivedBy(w, r, ops[..|ops| - 1], n)
    ensures ArrivedBy(w, r, ops, n)
  {
    assert ops[..|ops| - 1][..n] == ops[..n];
    hide ApplyAll;
  }

  lemma ArrivedNow(w: World, r: Robot, ops: seq<Op>)
    requires ops != []
    requires var s := ApplyAll(w, r, ops); HasArrived(r, s) && s.motion.node == Destination(r.motion)
    ensures ArrivedBy(w, r, ops, |ops|)
  {
    assert ops[..|ops|] == ops;
  }

  lemma CalmLater(w: World, r: Robot, s: Robot, time: real, op: Op)
    requires StillOnTheRoad(w, r, s, time) && Calm(r, op) && Driving(r)
    requires r.status == AtMove ==> r.battery - 0.09 * time > 20.0
    ensures Calm(s, op) && Driving(s)
  {
    hide OnRoute, Ahead;
  }

  /**
    The ticks of a drive: as long as 1.2 metres a second have not covered the road the robot is on it, by exactly so
    much further on; once they have covered more than the road it has arrived at its end after some of the ticks.
   */
  lemma {:induction false} Drives(w: World, r: Robot, ops: seq<Op>)
    requires w.Valid() && OnRoute(w, r.motion) && AllCalm(r, ops) && Driving(r) && r.battery >= 0.0
    requires r.status == AtMove ==> r.battery - 0.09 * Time(ops) > 20.0
    ensures Time(ops) >= 0.0
    ensures 1.2 * Time(ops) < Ahead(w, r.motion) ==> StillOnTheRoad(w, r, ApplyAll(w, r, ops), Time(ops))
    ensures 1.2 * Time(ops) > Ahead(w, r.motion) ==> exists n :: ArrivedBy(w, r, ops, n)
    ensures StillOnTheRoad(w, r, ApplyAll(w, r, ops), Time(ops)) || exists n :: ArrivedBy(w, r, ops, n)
    decreases |ops|
  {
    if ops == [] {
      RoadShortens(w, r.motion, 0.0);
    } else {
      var before, op := ops[..|ops| - 1], ops[|ops| - 1];
      CalmBefore(r, ops);
      Drives(w, r, before);
      var s := ApplyAll(w, r, before);
      assert Time(ops) == Time(before) + op.dt && ApplyAll(w, r, ops) == Apply(w, s, op);
      assert op.dt >= 0.0;
      if StillOnTheRoad(w, r, s, Time(before)) {
        CalmLater(w, r, s, Time(before), op);
        OneTickFurther(w, r, s, Time(before), op);
        NotPastTheEnd(w, r, Apply(w, s, op), Time(ops));
        hide *;
        var t := Apply(w, s, op);
        if HasArrived(r, t) && t.motion.node == Destination(r.motion) { ArrivedNow(w, r, ops); }
      } else {
        var n :| ArrivedBy(w, r, before, n);
        ArrivedEarlier(w, r, ops, n);
      }
    }
  }

  lemma NotPastTheEnd(w: World, r: Robot, s: Robot, time: real)
    ensures StillOnTheRoad(w, r, s, time) ==> 1.2 * time <= Ahead(w, r.motion)
  {
  }

  // ---- working ------------------------------------------------------------------------------

  /** One tick at work: 0.05 percent of battery per second, until the 12 seconds are over and FINISHED is staged. */
  lemma TickWorks(w: World, r: Robot, op: Op)
    requires Calm(r, op) && r.status == AtWork && r.battery > 20.0 && r.task.Some?
    ensures var s := Apply(w, r, op);
      && s.battery == Drained(r.battery, 0.05 * op.dt) && s.workLeft == r.workLeft - op.dt && s.motion == r.motion
      && if s.workLeft > 0.0 then s == r.(battery := s.battery, workLeft := s.workLeft)
         else Closed(r, s, Finished) && s.status == Idle && s.task.None? && s.taskMission.None?
  {
    CalmTickRuns(w, r, op);
    hide FindMission;
  }

  /** At work for 12 seconds, not a tick longer or shorter, and then the action in hand is reported FINISHED. */
  lemma {:induction false} WorksTwelveSeconds(w: World, r: Robot, ops: seq<Op>)
    requires r.status == AtWork && r.task.Some? && r.workLeft == 12.0 && AllCalm(r, ops) && ops != []
    requires r.battery - 0.05 * Time(ops) > 20.0 && Time(ops[..|ops| - 1]) < 12.0
    ensures Time(ops) >= 0.0 && Time(ops[..|ops| - 1]) >= 0.0
    ensures var before, s := ApplyAll(w, r, ops[..|ops| - 1]), ApplyAll(w, r, ops);
      && before == r.(battery := before.battery, workLeft := 12.0 - Time(ops[..|ops| - 1]))
      && before.battery == r.battery - 0.05 * Time(ops[..|ops| - 1])
      && if Time(ops) < 12.0 then s == r.(battery := r.battery - 0.05 * Time(ops), workLeft := 12.0 - Time(ops))
         else Closed(r, s, Finished) && s.status == Idle && s.task.None?
    decreases |ops|
  {
    var front, op := ops[..|ops| - 1], ops[|ops| - 1];
    CalmBefore(r, ops);
    assert op.dt >= 0.0 && Time(ops) == Time(front) + op.dt;
    if front != [] { FrontTime(r, front); WorksTwelveSeconds(w, r, front); }
    var s := ApplyAll(w, r, front);
    assert s == r.(battery := r.battery - 0.05 * Time(front), workLeft := 12.0 - Time(front));
    TickWorks(w, s, op);
    hide Apply;
  }

  lemma {:induction false} FrontTime(r: Robot, ops: seq<Op>)
    requires AllCalm(r, ops)
    ensures Time(ops) >= 0.0
    ensures ops != [] ==> Time(ops[..|ops| - 1]) <= Time(ops)
  {
    if ops != [] {
      CalmBefore(r, ops);
      FrontTime(r, ops[..|ops| - 1]);
    }
  }

  // ---- charging, waiting ------------------------------------------------------------------------

  /** Charging: 0.45 percent per second, up to 100, and the robot is idle again from 90 on. */
  lemma TickCharges(w: World, r: Robot, op: Op)
    requires Calm(r, op) && r.status == Charging
    ensures var s := Apply(w, r, op); var b := r.battery + 0.45 * op.dt;
      && s.battery == (if b > 100.0 then 100.0 else b)
      && s == r.(battery := s.battery, status := s.status, task := s.task)
      && if b >= 90.0 then s.status == Idle && s.task.None? else s.status == Charging && s.task == r.task
  {
  }

  lemma {:induction false} ChargesUpToNinety(w: World, r: Robot, ops: seq<Op>)
    requires r.status == Charging && AllCalm(r, ops) && ops != []
    requires r.battery + 0.45 * Time(ops[..|ops| - 1]) < 90.0
    ensures var s := ApplyAll(w, r, ops); var b := r.battery + 0.45 * Time(ops);
      && s.battery == (if b > 100.0 then 100.0 else b)
      && if b >= 90.0 then s.status == Idle && s.task.None? else s == r.(battery := b)
    decreases |ops|
  {
    var front, op := ops[..|ops| - 1], ops[|ops| - 1];
    CalmBefore(r, ops);
    if front != [] {
      FrontTime(r, front);
      ChargesUpToNinety(w, r, front);
    }
    var s := ApplyAll(w, r, front);
    assert s == r.(battery := r.battery + 0.45 * Time(front));
    TickCharges(w, s, op);
    hide Apply;
  }

  /** Idle without a new task, or held: 0.004 percent per second and nothing else. */
  lemma TickWaits(w: World, r: Robot, op: Op)
    requires Calm(r, op)
    requires Held(r.status) || (r.status == Idle && r.battery > 20.0 && op.draws.task.None?)
    ensures Apply(w, r, op) == r.(battery := Drained(r.battery, 0.004 * op.dt))
  {
  }

  // ---- being sent somewhere ---------------------------------------------------------------------

  /** On the shortest road from where `r` stands to the target, or there already. */
  ghost predicate SentTo(w: World, r: Robot, s: Robot, target: string) {
    && s.motion.node == r.motion.node && s.motion.progress == 0.0 && s.motion.seqId == 0
    && [s.motion.node] + s.motion.path == w.shortest(r.motion.node, target)
  }

  lemma RoadIsShortest(w: World, r: Robot, target: string, status: Status)
    requires w.Valid() && OnMap(w, r.motion) && target in w.waypoints
    ensures SentTo(w, r, Routed(w, r, target, status), target)
  {
    RoadBegins(w, r.motion.node, target);
    hide World.Valid, OnMap;
    HeadAndRest(w.shortest(r.motion.node, target));
  }

  lemma HeadAndRest(p: seq<string>)
    requires p != []
    ensures [p[0]] + p[1..] == p
  {
  }

  lemma RoadBegins(w: World, a: string, b: string)
    requires w.Valid() && a in w.waypoints && b in w.waypoints
    ensures w.shortest(a, b) != [] && w.shortest(a, b)[0] == a
  {
  }

  lemma ArrivesIfThere(r: Robot)
    requires r.status in {AtMove, ToCharger}
    ensures var s := ArriveIfThere(r);
      && s.motion == r.motion && s.battery == r.battery && s.mission == r.mission && s.id == r.id && SameAction(r, s)
      && if s.motion.path == [] then HasArrived(r, s) else s.status == r.status
  {
  }

  lemma RoutedIsSent(w: World, r: Robot, target: string, status: Status)
    requires w.Valid() && OnMap(w, r.motion) && target in w.waypoints && status in {AtMove, ToCharger}
    ensures var s := RouteTo(w, r, target, status);
      && SentTo(w, r, s, target) && s.battery == r.battery && s.mission == r.mission && s.id == r.id && SameAction(r, s)
      && (if s.motion.path == [] then HasArrived(r.(status := status), s) else s.status == status)
  {
    RoadIsShortest(w, r, target, status);
    ArrivesIfThere(Routed(w, r, target, status));
    hide World.Valid, OnMap, ArriveIfThere;
  }

  /** An idle robot that is drawn a task is sent to its target with it, under a newly minted id. */
  lemma TickAssigns(w: World, r: Robot, op: Op)
    requires w.Valid() && OnMap(w, r.motion) && Calm(r, op) && r.status == Idle && r.battery > 20.0
    requires op.draws.task.Some? && op.draws.task.value.target in w.waypoints
    ensures var s, d := Apply(w, r, op), op.draws.task.value;
      && SentTo(w, r, s, d.target) && s.battery == Drained(r.battery, 0.004 * op.dt)
      && s.task == Some(d.kind) && s.actionSeq == r.actionSeq + 1
      && s.actionId == Some(MintedId(r.serial, r.actionSeq + 1))
      && if s.motion.path == [] then s.status == AtWork && s.workLeft == 12.0 else s.status == AtMove
  {
    CalmTickRuns(w, r, op);
    var d := op.draws.task.value;
    RoutedIsSent(w, TagTask(op.missions, Tasked(Idled(r, op.dt), d.kind)).1, d.target, AtMove);
    hide RouteTo, FindMission, SentTo, MintedId;
  }

  /** Low on battery: reported FAILED, sent to the nearest charger and driven towards it in the same tick. */
  lemma TickDiverts(w: World, r: Robot, op: Op)
    requires w.Valid() && OnMap(w, r.motion) && Calm(r, op) && r.status in {Idle, AtMove, AtWork} && r.battery <= 20.0
    ensures var s, sent := Apply(w, r, op), Divert(w, r);
      && SentTo(w, r, sent, w.nearestCharger(r.motion.node)) && sent.battery == r.battery
      && s.pending == StageTerminal(r, Failed).pending && s.task.None? && s.actionId.None? && s.taskMission.None?
      && if sent.motion.path == [] then s == sent && s.status == Charging
         else sent.status == ToCharger && s == Apply(w, sent, op)
  {
    CalmTickRuns(w, r, op);
    DivertedIsSent(w, r);
    var sent := Divert(w, r);
    hide Divert, Advance, SentTo;
    if sent.status == ToCharger {
      CalmTickRuns(w, sent, op);
      AdvanceMoves(w, sent, op.dt);
    }
  }

  lemma DivertedIsSent(w: World, r: Robot)
    requires w.Valid() && OnMap(w, r.motion)
    ensures var s := Divert(w, r);
      && SentTo(w, r, s, w.nearestCharger(r.motion.node))
      && s.battery == r.battery && s.fault == r.fault && s.id == r.id
      && s.pending == StageTerminal(r, Failed).pending && s.task.None? && s.actionId.None? && s.taskMission.None?
      && s.status == if s.motion.path == [] then Charging else ToCharger
  {
    RoutedIsSent(w, StageTerminal(r, Failed), w.nearestCharger(r.motion.node), ToCharger);
    hide RouteTo, World.Valid;
  }

  // ---- faults --------------------------------------------------------------------------------------

  /** The fault that strikes a robot in a tick: the scripted one, or the one that is drawn. */
  function FaultOf(r: Robot, op: Op): FaultDraw
    requires op.Tick? && (op.draws.fault.Some? || (r.id == "AMR-07" && op.tick == 20))
  {
    if r.id == "AMR-07" && op.tick == 20 then FaultDraw("localization", 12) else op.draws.fault.value
  }

  /** When a fault strikes, and what it does: the tick it strikes in is the first it counts down. */
  lemma TickStrikes(w: World, r: Robot, op: Op)
    ensures FaultStrikes(r, op) <==>
      op.Tick? && r.fault.None? && (op.draws.fault.Some? || (r.id == "AMR-07" && op.tick == 20))
    ensures FaultStrikes(r, op) ==>
      var s, f := Apply(w, r, op), FaultOf(r, op);
      && s.resume == (if r.status == AtMove || r.status == ToCharger then r.status else Idle)
      && s.faultTicks == f.ticks - 1
      && s == r.(resume := s.resume, faultTicks := s.faultTicks, status := s.status, fault := s.fault)
      && if f.ticks > 1 then s.status == Faulted && s.fault == Some(f.kind)
         else s.status == s.resume && s.fault.None?
  {
    hide StepRunning;
  }

  /** Every tick of a fault counts it down; in the last the robot goes back to what it had been doing. */
  lemma TickRecovers(w: World, r: Robot, op: Op)
    requires Calm(r, op) && r.status == Faulted
    ensures Apply(w, r, op) ==
      if r.faultTicks > 1 then r.(faultTicks := r.faultTicks - 1)
      else r.(faultTicks := r.faultTicks - 1, fault := None, status := r.resume)
  {
  }

  // ---- orders and verbs ---------------------------------------------------------------------------------

  lemma {:induction false} KnownNodes(w: World, nodes: seq<string>) returns (at: seq<nat>)
    ensures Picks(nodes, at, OnlyWaypoints(w, nodes))
    ensures forall i | 0 <= i < |nodes| :: i in at <==> nodes[i] in w.waypoints
  {
    if nodes == [] {
      at := [];
    } else {
      var rest := KnownNodes(w, nodes[1..]);
      var moved := seq(|rest|, j requires 0 <= j < |rest| => rest[j] + 1);
      at := (if nodes[0] in w.waypoints then [0] else []) + moved;
      LaterBy(nodes[0], nodes[1..], rest, moved, OnlyWaypoints(w, nodes[1..]), nodes[0] in w.waypoints);
      assert nodes == [nodes[0]] + nodes[1..];
      LaterMembers(rest, moved, at, nodes[0] in w.waypoints);
      forall i | 0 < i < |nodes| ensures i in at <==> nodes[i] in w.waypoints { assert nodes[1..][i - 1] == nodes[i]; }
    }
  }

  /** The first action of an order that names a type is the one it is taken for. */
  lemma {:induction false} FirstTyped(actions: seq<OrderAction>)
    ensures FirstAction(actions).None? <==> forall i | 0 <= i < |actions| :: actions[i].kind == ""
    ensures FirstAction(actions).Some? ==>
      exists i :: 0 <= i < |actions| && FirstAction(actions) == Some(actions[i]) && actions[i].kind != ""
                  && forall j | 0 <= j < i :: actions[j].kind == ""
  {
    if actions != [] && actions[0].kind == "" {
      FirstTyped(actions[1..]);
      assert forall i | 1 <= i < |actions| :: actions[i] == actions[1..][i - 1];
      if FirstAction(actions).Some? {
        var i :| 0 <= i < |actions| - 1 && FirstAction(actions) == Some(actions[1..][i]) && actions[1..][i].kind != ""
                 && forall j | 0 <= j < i :: actions[1..][j].kind == "";
        assert FirstAction(actions) == Some(actions[i + 1]);
        forall j | 0 <= j < i + 1 ensures actions[j].kind == "" { if j > 0 { assert actions[1..][j - 1].kind == ""; } }
      }
    }
  }

  /** When an order is accepted; one that is not changes nothing but the staged errors. */
  lemma OrderVerdict(w: World, r: Robot, o: Order)
    ensures var s, v := ApplyOrder(w, r, o).0, ApplyOrder(w, r, o).1;
      && (v == Accepted <==>
            && o.orderId != "" && (o.orderId != r.order.orderId || o.updateId > r.order.updateId)
            && r.status !in {Faulted, Paused, EStopped}
            && (o.nodes == [] || exists i :: 0 <= i < |o.nodes| && o.nodes[i] in w.waypoints))
      && (v == Accepted ==> s == Adopt(w, r, o))
      && (v != Accepted ==> s == r.(errors := s.errors))
  {
    var at := KnownNodes(w, o.nodes);
    SomeKnown(w, o.nodes, at);
    hide OnlyWaypoints, Adopt;
  }

  /**
    Where an accepted order takes the robot: along its known nodes, less a first one that restates where the robot is,
    out of its mission, with the order's action in hand.
   */
  lemma OrderSends(w: World, r: Robot, o: Order)
    requires Judge(w, r, o) == Accepted
    ensures var s := ApplyOrder(w, r, o).0; var known, a := OnlyWaypoints(w, o.nodes), FirstAction(o.actions);
      && s.order == OrderRef(o.orderId, o.updateId, r.order.counter) && s.mission.None? && s.taskMission.None?
      && s.battery == r.battery && s.motion.node == r.motion.node && s.motion.progress == 0.0
      && s.motion.path == (if known != [] && known[0] == r.motion.node then known[1..] else known)
      && s.task == (if a.Some? then Some(a.value.kind) else None)
      && (a.Some? && a.value.id != "" ==> s.actionId == Some(a.value.id))
      && if s.motion.path == [] then HasArrived(s.(status := AtMove), s) else s.status == AtMove
  {
    hide OnlyWaypoints, FirstAction, Superseded;
    SupersedingKeeps(r, FirstAction(o.actions));
  }

  lemma SomeKnown(w: World, nodes: seq<string>, at: seq<nat>)
    requires Picks(nodes, at, OnlyWaypoints(w, nodes))
    requires forall i | 0 <= i < |nodes| :: i in at <==> nodes[i] in w.waypoints
    ensures OnlyWaypoints(w, nodes) != [] <==> exists i :: 0 <= i < |nodes| && nodes[i] in w.waypoints
  {
    hide OnlyWaypoints;
    if at != [] { assert at[0] in at && nodes[at[0]] in w.waypoints; }
  }

  lemma SupersedingKeeps(r: Robot, a: Option<OrderAction>)
    ensures var s := Superseded(r, a);
      s.motion == r.motion && s.battery == r.battery && s.order == r.order && s.errors == r.errors
  {
  }

  /** `charge` sends every robot that is neither faulted nor charging to the nearest charger, whatever it was doing. */
  lemma ChargeSends(w: World, r: Robot)
    requires w.Valid() && OnMap(w, r.motion)
    ensures ApplyVerb(w, r, Charge).1 <==> r.status != Faulted
    ensures r.status !in {Faulted, Charging} ==>
      var s := ApplyVerb(w, r, Charge).0;
      && SentTo(w, r, s, w.nearestCharger(r.motion.node)) && s.task.None? && s.actionId.None?
      && s.status == if s.motion.path == [] then Charging else ToCharger
    ensures r.status in {Faulted, Charging} ==> ApplyVerb(w, r, Charge).0 == r
  {
    var freed := if Held(r.status) then r.(status := r.resume) else r;
    RoutedIsSent(w, StageTerminal(freed, Failed), w.nearestCharger(r.motion.node), ToCharger);
    hide RouteTo, World.Valid;
  }

  /** The other verbs: what each makes of a robot in every status. */
  lemma VerbsHold(w: World, r: Robot)
    ensures ApplyVerb(w, r, Pause) ==
      if r.status == Faulted then (r, false) else if r.status in {Paused, EStopped} then (r, true)
      else (r.(resume := r.status, status := Paused), true)
    ensures var (s, ok) := ApplyVerb(w, r, EStop);
      ok && s.status == EStopped && s == r.(resume := s.resume, status := EStopped)
      && s.resume == if r.status == Faulted then Idle else if r.status == EStopped then r.resume else r.status
    ensures var (s, ok) := ApplyVerb(w, r, CancelOrder);
      && (ok <==> r.status != Faulted)
      && (ok ==> s.motion == r.motion.(path := []) && s.task.None? && s.actionId.None? && s.taskMission.None?
                 && s.status == if r.status in {AtMove, AtWork, ToCharger} then Idle else r.status)
      && (!ok ==> s == r)
    ensures var (s, ok) := ApplyVerb(w, r, Resume);
      && (ok <==> r.status in {Paused, EStopped})
      && (ok && r.resume in {AtMove, AtWork} ==>
            s.status == Idle && s.motion == r.motion.(path := []) && s.task.None? && s.actionId.None?)
      && (ok && r.resume !in {AtMove, AtWork} ==> s == r.(status := r.resume))
      && (!ok ==> s == r)
  {
  }

  lemma VerbsByName(cmd: string)
    ensures ParseVerb(cmd) == Some(Pause) <==> cmd == "pause"
    ensures ParseVerb(cmd) == Some(Resume) <==> cmd == "resume"
    ensures ParseVerb(cmd) == Some(Charge) <==> cmd == "charge"
    ensures ParseVerb(cmd) == Some(EStop) <==> cmd == "estop"
    ensures ParseVerb(cmd) == Some(CancelOrder) <==> cmd == "cancel_order"
  {
  }

  // ---- what a message says -----------------------------------------------------------------------------------

  /** A state message says RUNNING of the action in hand exactly while the robot is at work on it. */
  lemma SaysRunning(r: Robot)
    ensures r.status == AtWork && r.task.Some? ==>
      Snapshot(r) == [ActionState(ActionIdOf(r), r.task.value, ActionStatus.Running)]
    ensures r.status != AtWork || r.task.None? ==> Snapshot(r) == []
    ensures r.pending == [] ==> Publish(r).1 == Snapshot(r)
  {
  }
}
