/** The simulator in its own form: robots, missions and a fleet that are updated in place. */
module FleetSim {
  import opened Options
  import opened RouteTravel
  import opened ActionReports
  import State = RobotState
  import Pool = MissionPool
  import Runs = MissionRuns
  import Projection = FleetProjection

  lemma StageIgnoresStatus(r: State.Robot, status: State.Status)
    ensures State.StageTerminal(r.(status := status), Failed) == State.StageTerminal(r, Failed).(status := status)
  {
  }

  class Robot {
    const id: string
    const serial: string
    var status: State.Status
    var resumeStatus: State.Status
    var motion: Motion
    var battery: real
    var workLeft: real
    var faultKind: Option<string>
    var faultTicksLeft: int
    var tasksDone: nat
    var taskKind: Option<string>
    var currentActionId: Option<string>
    var actionSeq: nat
    var missionId: Option<nat>
    var taskMission: Option<nat>
    var order: State.OrderRef
    var pendingActionStates: seq<Staged<ActionState>>
    var pendingErrors: seq<Staged<State.UpdateError>>

    constructor (id: string, serial: string, node: string, battery: real)
      ensures View() == State.NewRobot(id, serial, node, battery)
    {
      this.id, this.serial, this.battery := id, serial, battery;
      motion, order := Motion(node, [], 0.0, 0), State.OrderRef("", 0, 0);
      status, resumeStatus := State.Idle, State.Idle;
      workLeft, faultKind, faultTicksLeft, tasksDone := 0.0, None, 0, 0;
      taskKind, currentActionId, actionSeq := None, None, 0;
      missionId, taskMission := None, None;
      pendingActionStates, pendingErrors := [], [];
    }

    ghost function View(): State.Robot
      reads this
    {
      State.Robot(id, serial, status, resumeStatus, motion, battery, workLeft, faultKind, faultTicksLeft, tasksDone,
                  taskKind, currentActionId, actionSeq, missionId, taskMission, order, pendingActionStates,
                  pendingErrors)
    }

    function ActionId(): (s: string)
      reads this
      ensures s == State.ActionIdOf(View())
    {
      if currentActionId.Some? && currentActionId.value != "" then currentActionId.value
      else State.MintedId(serial, actionSeq)
    }

    method StageTerminal(terminal: ActionStatus)
      modifies this`pendingActionStates
      ensures View() == State.StageTerminal(old(View()), terminal)
    {
      if taskKind.None? { return; }
      pendingActionStates := pendingActionStates + [Staged(ActionState(ActionId(), taskKind.value, terminal), REPEATS)];
    }

    method DropTask()
      modifies this`taskKind, this`currentActionId
      ensures View() == State.DropTask(old(View()))
    {
      taskKind := None;
      currentActionId := None;
    }

    method NewGeneratedActionId() returns (newest: string)
      modifies this`actionSeq
      ensures View() == old(View()).(actionSeq := old(actionSeq) + 1)
      ensures newest == State.MintedId(serial, actionSeq)
    {
      actionSeq := actionSeq + 1;
      newest := State.MintedId(serial, actionSeq);
    }

    method Arrive()
      modifies this
      ensures View() == State.Arrive(old(View()))
    {
      if status == State.ToCharger {
        status := State.Charging;
      } else if status == State.AtMove && taskKind.Some? {
        status := State.AtWork;
        workLeft := State.WORK_SECONDS;
      } else {
        status := State.Idle;
      }
    }

    method ArriveIfThere()
      modifies this
      ensures View() == State.ArriveIfThere(old(View()))
    {
      if motion.path == [] { Arrive(); }
    }

    method RouteTo(w: World, target: string, to: State.Status)
      modifies this
      ensures View() == State.RouteTo(w, old(View()), target, to)
    {
      var route := w.shortest(motion.node, target);
      motion := Motion(motion.node, if route == [] then [] else route[1..], 0.0, 0);
      status := to;
      order := State.OrderRef("ord-" + id + "-" + State.Decimal(order.counter + 1), 0, order.counter + 1);
      ArriveIfThere();
    }

    /** The movement loop spends the whole budget on the legs ahead. */
    method Drive(w: World, distance: real)
      modifies this`motion
      ensures View() == old(View()).(motion := Travel(w, old(View()).motion, distance))
    {
      var budget := distance;
      while budget > 0.0 && motion.path != []
        invariant Travel(w, motion, budget) == Travel(w, old(motion), distance)
        decreases |motion.path|, budget > 0.0
      {
        var remaining := w.leg(motion.node, motion.path[0]) - motion.progress;
        if budget >= remaining {
          budget := budget - remaining;
          motion := Motion(motion.path[0], motion.path[1..], 0.0, motion.seqId + 2);
        } else {
          motion := motion.(progress := motion.progress + budget);
          budget := 0.0;
        }
      }
    }

    method AdvanceAlongPath(w: World, dt: real)
      modifies this
      ensures View() == State.Advance(w, old(View()), dt)
    {
      battery := MaxReal(battery - State.MOVE_DRAIN * dt, 0.0);
      Drive(w, State.SPEED_MPS * dt);
      ArriveIfThere();
    }

    method RaiseFault(kind: string, ticks: int)
      modifies this
      ensures View() == State.RaiseFault(old(View()), State.FaultDraw(kind, ticks))
    {
      faultKind, faultTicksLeft := Some(kind), ticks;
      resumeStatus := if status == State.AtMove || status == State.ToCharger then status else State.Idle;
      status := State.Faulted;
    }

    method MaybeFault(tick: nat, draw: Option<State.FaultDraw>)
      modifies this
      ensures View() == State.MaybeFault(old(View()), tick, draw)
    {
      if faultKind.Some? { return; }
      if id == State.SCRIPTED_FAULT_ROBOT && tick == State.SCRIPTED_FAULT_TICK {
        RaiseFault("localization", State.SCRIPTED_FAULT_DURATION_TICKS);
        return;
      }
      if draw.Some? { RaiseFault(draw.value.kind, draw.value.ticks); }
    }

    method StepFaulted()
      modifies this
      ensures View() == State.StepFaulted(old(View()))
    {
      faultTicksLeft := faultTicksLeft - 1;
      if faultTicksLeft <= 0 {
        faultKind := None;
        status := resumeStatus;
      }
    }

    method SpendIdle(dt: real)
      modifies this`battery
      ensures View() == State.Idled(old(View()), dt)
    {
      battery := MaxReal(battery - State.IDLE_DRAIN * dt, 0.0);
    }

    method StepCharging(dt: real)
      modifies this
      ensures View() == State.StepCharging(old(View()), dt)
    {
      battery := MinReal(battery + State.CHARGE_RATE * dt, 100.0);
      if battery >= State.CHARGED_ENOUGH {
        status := State.Idle;
        taskKind := None;
      }
    }

    method Divert(w: World)
      modifies this
      ensures View() == State.Divert(w, old(View()))
    {
      StageTerminal(Failed);
      RouteTo(w, w.nearestCharger(motion.node), State.ToCharger);
      DropTask();
      taskMission := None;
    }

    method ApplyPause() returns (ok: bool)
      modifies this
      ensures (View(), ok) == State.ApplyPause(old(View()))
    {
      if status == State.Faulted { return false; }
      if State.Held(status) { return true; }
      resumeStatus := status;
      status := State.Paused;
      return true;
    }

    method ApplyEStop()
      modifies this
      ensures View() == State.ApplyEStop(old(View()))
    {
      if status != State.EStopped {
        resumeStatus := if status != State.Faulted then status else State.Idle;
        status := State.EStopped;
      }
    }

    method ApplyResume() returns (ok: bool)
      modifies this
      ensures (View(), ok) == State.ApplyResume(old(View()))
    {
      ghost var r := View();
      StageIgnoresStatus(r, resumeStatus);
      hide State.StageTerminal;
      if !State.Held(status) { return false; }
      status := resumeStatus;
      if status == State.AtMove || status == State.AtWork {
        StageTerminal(Failed);
        status := State.Idle;
        motion := motion.(path := []);
        DropTask();
      }
      return true;
    }

    method ApplyCancel() returns (ok: bool)
      modifies this
      ensures (View(), ok) == State.ApplyCancel(old(View()))
    {
      if status == State.Faulted { return false; }
      StageTerminal(Failed);
      motion := motion.(path := []);
      DropTask();
      taskMission := None;
      if status == State.AtMove || status == State.AtWork || status == State.ToCharger {
        status := State.Idle;
      }
      return true;
    }

    method ApplyCharge(w: World) returns (ok: bool)
      modifies this
      ensures (View(), ok) == State.ApplyCharge(w, old(View()))
    {
      hide State.StageTerminal, State.RouteTo;
      ghost var r := View();
      if status == State.Faulted { return false; }
      if status == State.Charging { return true; }
      if State.Held(status) { status := resumeStatus; }
      assert View() == if State.Held(r.status) then r.(status := r.resume) else r;
      StageTerminal(Failed);
      RouteTo(w, w.nearestCharger(motion.node), State.ToCharger);
      DropTask();
      return true;
    }

    method ApplyVerb(w: World, v: State.Verb) returns (ok: bool)
      modifies this
      ensures (View(), ok) == State.ApplyVerb(w, old(View()), v)
    {
      match v
      case Pause => ok := ApplyPause();
      case EStop => ApplyEStop(); ok := true;
      case Resume => ok := ApplyResume();
      case CancelOrder => ok := ApplyCancel();
      case Charge => ok := ApplyCharge(w);
    }

    /** Gives the order's action its id, then reports the action it supersedes unless it is the same one. */
    method Supersede(action: Option<State.OrderAction>) returns (newId: Option<string>)
      modifies this`actionSeq, this`pendingActionStates
      ensures View() == State.Superseded(old(View()), action)
      ensures newId == State.OrderActionId(old(View()), action)
    {
      newId := None;
      if action.Some? {
        if action.value.id != "" {
          newId := Some(action.value.id);
        } else {
          var newest := NewGeneratedActionId();
          newId := Some(newest);
        }
      }
      if Some(ActionId()) != newId { StageTerminal(Failed); }
    }

    /** Sets out with the order's action as the task; a robot under an order has left the mission pool. */
    method TakeUp(action: Option<State.OrderAction>, newId: Option<string>)
      modifies this`taskMission, this`missionId, this`taskKind, this`currentActionId, this`status
      ensures View() == old(View()).(
        taskMission := None, mission := None, actionId := newId, status := State.AtMove,
        task := if action.Some? then Some(action.value.kind) else None)
    {
      taskMission, missionId := None, None;
      taskKind := if action.Some? then Some(action.value.kind) else None;
      currentActionId := newId;
      status := State.AtMove;
    }

    method Adopt(w: World, o: State.Order)
      modifies this
      ensures View() == State.Adopt(w, old(View()), o)
    {
      var route := State.OnlyWaypoints(w, o.nodes);
      if route != [] && route[0] == motion.node { route := route[1..]; }
      var action := State.FirstAction(o.actions);
      var newId := Supersede(action);
      motion := Motion(motion.node, route, 0.0, 0);
      order := State.OrderRef(o.orderId, o.updateId, order.counter);
      TakeUp(action, newId);
      ArriveIfThere();
    }

    method ApplyOrder(w: World, o: State.Order) returns (v: State.Verdict)
      modifies this
      ensures (View(), v) == State.ApplyOrder(w, old(View()), o)
    {
      if o.orderId == "" { return State.NoOrderId; }
      if order.orderId == o.orderId && o.updateId <= order.updateId {
        if o.updateId < order.updateId {
          pendingErrors := pendingErrors + [Staged(State.UpdateError(o.orderId, o.updateId, order.updateId), REPEATS)];
        }
        return State.StaleUpdate;
      }
      if status == State.Faulted || State.Held(status) { return State.Unavailable; }
      if o.nodes != [] && State.OnlyWaypoints(w, o.nodes) == [] { return State.NoValidNodes; }
      Adopt(w, o);
      return State.Accepted;
    }

    /** One state message: merge the staged evidence in, count it down, drop what is spent. */
    method Publish() returns (actionStates: seq<ActionState>)
      modifies this`pendingActionStates, this`pendingErrors
      ensures (View(), actionStates) == State.Publish(old(View()))
    {
      actionStates := if status == State.AtWork && taskKind.Some?
        then [ActionState(ActionId(), taskKind.value, ActionStatus.Running)] else [];
      if pendingActionStates != [] {
        actionStates := MergeActionStates(actionStates, Entries(pendingActionStates));
        pendingActionStates := CountDown(pendingActionStates);
      }
      pendingErrors := CountDown(pendingErrors);
    }
  }

  class Mission {
    const id: nat
    const crew: seq<string>
    const planned: int
    var done: nat
    var state: State.MissionState
    var completedTick: Option<nat>

    constructor (id: nat, crew: seq<string>, planned: int)
      ensures View() == State.Mission(id, crew, planned, 0, State.Queued, None)
    {
      this.id, this.crew, this.planned := id, crew, planned;
      done, state, completedTick := 0, State.Queued, None;
    }

    ghost function View(): State.Mission
      reads this
    {
      State.Mission(id, crew, planned, done, state, completedTick)
    }
  }

  method CountDown<T>(p: seq<Staged<T>>) returns (q: seq<Staged<T>>)
    ensures q == Age(p)
  {
    q := [];
    for n := 0 to |p|
      invariant q == Age(p[..n])
    {
      var e := p[n];
      assert p[..n + 1] == p[..n] + [e];
      AgeConcat(p[..n], [e]);
      if e.left > 1 { q := q + [e.(left := e.left - 1)]; }
    }
    assert p[..|p|] == p;
  }

  class Fleet {
    var robots: seq<Robot>
    var missions: seq<Mission>
    var missionSeq: nat
    var tickCount: nat

    ghost predicate Valid()
      reads this
    {
      && (forall i, j | 0 <= i < j < |robots| :: robots[i] != robots[j])
      && (forall i, j | 0 <= i < j < |missions| :: missions[i] != missions[j])
    }

    /** Every mission object is one of those given or was made since. */
    twostate predicate MissionsFrom(known: seq<Mission>)
      reads this
    {
      forall m | m in missions :: m in known || fresh(m)
    }

    ghost function Robots(): seq<State.Robot>
      reads this, robots
    {
      seq(|robots|, i requires 0 <= i < |robots| reads this, robots => robots[i].View())
    }

    ghost function Missions(): seq<State.Mission>
      reads this, missions
    {
      seq(|missions|, i requires 0 <= i < |missions| reads this, missions => missions[i].View())
    }

    ghost function View(): Pool.Fleet
      reads this, robots, missions
    {
      Pool.Fleet(Robots(), Missions(), missionSeq, tickCount)
    }

    static method NewRobots(size: nat, place: nat -> (string, real)) returns (rs: seq<Robot>)
      ensures |rs| == size && forall i, j | 0 <= i < j < size :: rs[i] != rs[j]
      ensures forall i | 0 <= i < size :: fresh(rs[i]) && rs[i].View() == NewAt(place, i)
    {
      rs := [];
      for i := 0 to size
        invariant |rs| == i && forall j, k | 0 <= j < k < i :: rs[j] != rs[k]
        invariant forall j | 0 <= j < i :: fresh(rs[j]) && rs[j].View() == NewAt(place, j)
      {
        var name := State.RobotName(i + 1);
        var (node, battery) := place(i);
        var r := new Robot(name, State.SerialOf(name), node, battery);
        rs := rs + [r];
      }
    }

    /** A fleet of new robots, placed and charged as drawn, with its missions topped up for the first time. */
    constructor (size: nat, place: nat -> (string, real), rng: Pool.Generator)
      requires Pool.Samples(rng)
      ensures Valid() && |robots| == size && tickCount == 0
      ensures forall i | 0 <= i < size :: fresh(robots[i])
      ensures forall i | 0 <= i < |missions| :: fresh(missions[i])
      ensures Runs.Initial(View())
      ensures forall i | 0 <= i < size ::
        robots[i].View() == NewAt(place, i).(mission := robots[i].View().mission)
    {
      hide Pool.Spawn, Pool.ValidPicks, Pool.Samples, Runs.Initial, NewAt;
      var rs := NewRobots(size, place);
      robots, missions, missionSeq, tickCount := rs, [], 0, 0;
      new;
      ghost var f := View();
      assert f == Pool.Fleet(Robots(), [], 0, 0);
      assert forall i | 0 <= i < size :: Robots()[i] == NewAt(place, i);
      ghost var picks := SpawnMissions(rng);
      StartsAsBuilt(place, f, picks);
      forall i | 0 <= i < |missions| ensures fresh(missions[i]) {
        assert missions[i] in missions;
      }
      assert forall i | 0 <= i < size :: View().robots[i] == robots[i].View();
    }

    /** Position of the first mission with that id, or the number of missions. */
    method FindMission(id: nat) returns (k: nat)
      ensures k == State.FindMission(Missions(), id)
    {
      k := 0;
      while k < |missions| && missions[k].id != id
        invariant k <= |missions|
        invariant forall j | 0 <= j < k :: missions[j].id != id
      {
        k := k + 1;
      }
      FoundMission(Missions(), id, k);
    }

    method TagTask(i: nat)
      requires Valid() && i < |robots|
      modifies robots[i], missions
      ensures (Missions(), robots[i].View()) == State.TagTask(old(Missions()), old(robots[i].View()))
    {
      hide State.FindMission;
      var r := robots[i];
      r.taskMission := None;
      if r.missionId.None? { return; }
      var k := FindMission(r.missionId.value);
      if k < |missions| && missions[k].state != State.Done {
        var m := missions[k];
        r.taskMission := Some(m.id);
        if m.state == State.Queued { m.state := State.MissionState.Running; }
        assert Missions() == old(Missions())[k := State.StartMission(old(Missions())[k])];
      }
    }

    method AssignTask(w: World, i: nat, d: State.TaskDraw)
      requires Valid() && i < |robots|
      modifies robots[i], missions
      ensures (Missions(), robots[i].View()) == State.AssignTask(w, old(Missions()), old(robots[i].View()), d)
    {
      var r := robots[i];
      r.taskKind := Some(d.kind);
      var newest := r.NewGeneratedActionId();
      r.currentActionId := Some(newest);
      assert r.View() == State.Tasked(old(robots[i].View()), d.kind);
      assert Missions() == old(Missions());
      TagTask(i);
      label tagged:
      r.RouteTo(w, d.target, State.AtMove);
      assert Missions() == old@tagged(Missions());
    }

    /** A robot finished a task: count it toward the mission it was tagged with. */
    method CreditMission(i: nat)
      requires Valid() && i < |robots|
      modifies robots[i], missions
      ensures (Missions(), robots[i].View()) == State.CreditMission(old(Missions()), old(robots[i].View()))
    {
      hide State.FindMission;
      var r := robots[i];
      var tag := r.taskMission;
      r.taskMission := None;
      if tag.None? { return; }
      var k := FindMission(tag.value);
      if k < |missions| && missions[k].state != State.Done {
        missions[k].done := missions[k].done + 1;
        assert Missions() == old(Missions())[k := old(Missions())[k].(done := old(Missions())[k].done + 1)];
      }
    }

    method StepWorking(i: nat, dt: real)
      requires Valid() && i < |robots|
      modifies robots[i], missions
      ensures (Missions(), robots[i].View()) == State.StepWorking(old(Missions()), old(robots[i].View()), dt)
    {
      hide State.StageTerminal, State.CreditMission;
      var r := robots[i];
      r.battery := MaxReal(r.battery - State.WORK_DRAIN * dt, 0.0);
      r.workLeft := r.workLeft - dt;
      if r.workLeft <= 0.0 {
        r.StageTerminal(Finished);
        r.tasksDone := r.tasksDone + 1;
        r.taskKind := None;
        r.currentActionId := None;
        r.status := State.Idle;
        assert Missions() == old(Missions());
        CreditMission(i);
      }
    }

    method StepRunning(w: World, i: nat, dt: real, d: State.Draws)
      requires Valid() && i < |robots|
      modifies robots[i], missions
      ensures (Missions(), robots[i].View()) == State.StepRunning(w, old(Missions()), old(robots[i].View()), dt, d)
    {
      var r := robots[i];
      if r.battery <= State.LOW_BATTERY_GO_CHARGE && r.status != State.ToCharger { r.Divert(w); }
      assert Missions() == old(Missions());
      match r.status
      case Idle =>
        r.SpendIdle(dt);
        assert Missions() == old(Missions());
        if d.task.Some? { AssignTask(w, i, d.task.value); }
      case AtWork =>
        StepWorking(i, dt);
      case AtMove =>
        r.AdvanceAlongPath(w, dt);
        assert Missions() == old(Missions());
      case ToCharger =>
        r.AdvanceAlongPath(w, dt);
        assert Missions() == old(Missions());
      case _ =>
    }

    method StepRobot(w: World, i: nat, dt: real, d: State.Draws)
      requires Valid() && i < |robots|
      modifies robots[i], missions
      ensures (Missions(), robots[i].View())
           == State.StepRobot(w, old(Missions()), tickCount, old(robots[i].View()), dt, d)
    {
      var r := robots[i];
      r.MaybeFault(tickCount, d.fault);
      assert Missions() == old(Missions());
      match r.status
      case Faulted => r.StepFaulted(); assert Missions() == old(Missions());
      case Paused => r.SpendIdle(dt); assert Missions() == old(Missions());
      case EStopped => r.SpendIdle(dt); assert Missions() == old(Missions());
      case Charging => r.StepCharging(dt); assert Missions() == old(Missions());
      case _ => StepRunning(w, i, dt, d);
    }

    method StepOne(w: World, i: nat, dt: real, d: State.Draws)
      requires Valid() && i < |robots|
      modifies robots[i], missions
      ensures View() == Pool.StepOne(w, old(View()), dt, d, i)
    {
      hide State.StepRobot;
      StepRobot(w, i, dt, d);
      assert Robots() == old(Robots())[i := robots[i].View()];
    }

    method StepAll(w: World, dt: real, draws: seq<State.Draws>)
      requires Valid() && |draws| == |robots|
      modifies robots, missions
      ensures View() == Pool.StepUpTo(w, old(View()), dt, draws, |robots|)
    {
      hide Pool.StepOne;
      for i := 0 to |robots|
        invariant View() == Pool.StepUpTo(w, old(View()), dt, draws, i)
      {
        StepOne(w, i, dt, draws[i]);
      }
    }

    method FreeCrew(id: nat)
      requires Valid()
      modifies robots
      ensures forall i | 0 <= i < |robots| ::
        robots[i].View() == Unowned(old(robots[i].View()), id)
    {
      for k := 0 to |robots|
        invariant forall i | 0 <= i < |robots| ::
          robots[i].View() == if i < k then Unowned(old(robots[i].View()), id) else old(robots[i].View())
      {
        if robots[k].missionId == Some(id) { robots[k].missionId := None; }
      }
    }

    /** A mission at its plan is done, and its robots are free. */
    method CompleteMission(k: nat)
      requires Valid() && k < |missions|
      modifies robots, missions[k]
      ensures Missions() == old(Missions())[k := Pool.Complete(old(Missions())[k], tickCount)]
      ensures forall i | 0 <= i < |robots| ::
        robots[i].View() == if Pool.Completes(old(Missions())[k]) then Unowned(old(robots[i].View()), missions[k].id)
                            else old(robots[i].View())
    {
      ghost var ms := Missions();
      var m := missions[k];
      assert m.View() == ms[k];
      if m.state != State.Done && m.done >= m.planned {
        m.state := State.Done;
        m.completedTick := Some(tickCount);
        FreeCrew(m.id);
      }
      assert forall j | 0 <= j < |ms| && j != k :: missions[j].View() == ms[j];
    }

    ghost predicate CompletedUpTo(ms: seq<State.Mission>, rs: seq<State.Robot>, k: nat)
      reads this, robots, missions
    {
      && |ms| == |missions| && |rs| == |robots| && k <= |ms|
      && (forall j | 0 <= j < |missions| ::
            missions[j].View() == if j < k then Pool.Complete(ms[j], tickCount) else ms[j])
      && forall i | 0 <= i < |robots| :: robots[i].View() == Pool.Release(ms[..k], rs[i])
    }

    method CompleteNext(ghost ms: seq<State.Mission>, ghost rs: seq<State.Robot>, k: nat)
      requires Valid() && k < |missions| && CompletedUpTo(ms, rs, k)
      modifies robots, missions
      ensures CompletedUpTo(ms, rs, k + 1)
    {
      hide Pool.Release, Pool.Complete, Pool.Completes, Unowned;
      assert Missions()[k] == ms[k];
      ghost var before := Missions();
      CompleteMission(k);
      forall j | 0 <= j < |missions| ensures missions[j].View() == Missions()[j] == before[k := Missions()[k]][j] {
      }
      forall i | 0 <= i < |robots| ensures robots[i].View() == Pool.Release(ms[..k + 1], rs[i]) {
        ReleaseOneMore(ms, rs[i], k);
      }
    }

    /** Completes what has reached its plan and frees the robots of those missions. */
    method CompleteMissions()
      requires Valid()
      modifies robots, missions
      ensures View() == Pool.CompleteAll(old(View()))
    {
      ghost var ms, rs := Missions(), Robots();
      assert forall i | 0 <= i < |rs| :: Pool.Release(ms[..0], rs[i]) == rs[i];
      hide Pool.Release, Pool.Complete, Pool.Completes, Unowned;
      for k := 0 to |missions|
        invariant CompletedUpTo(ms, rs, k)
      {
        CompleteNext(ms, rs, k);
      }
      assert ms[..|missions|] == ms;
    }

    method CountActive() returns (n: nat)
      ensures n == Pool.ActiveCount(Missions())
    {
      n := 0;
      for k := |missions| downto 0
        invariant n == Pool.ActiveCount(Missions()[k..])
      {
        if missions[k].state != State.Done { n := n + 1; }
      }
    }

    /** Positions of the robots nobody owns. */
    method FreeRobots() returns (free: seq<nat>)
      ensures |free| == Pool.FreeCount(Robots())
      ensures forall j | 0 <= j < |free| :: free[j] < |robots| && robots[free[j]].missionId.None?
      ensures forall i, j | 0 <= i < j < |free| :: free[i] != free[j]
    {
      free := [];
      for k := |robots| downto 0
        invariant |free| == Pool.FreeCount(Robots()[k..])
        invariant forall j | 0 <= j < |free| :: k <= free[j] < |robots| && robots[free[j]].missionId.None?
        invariant forall i, j | 0 <= i < j < |free| :: free[i] != free[j]
      {
        if robots[k].missionId.None? { free := [k] + free; }
      }
    }

    method Enlist(crew: seq<nat>, id: nat) returns (names: seq<string>)
      requires Valid() && forall c | 0 <= c < |crew| :: crew[c] < |robots|
      modifies robots
      ensures |names| == |crew| && forall c | 0 <= c < |crew| :: names[c] == robots[crew[c]].id
      ensures Robots() == Pool.TakenOn(old(Robots()), crew, id)
    {
      names := [];
      for c := 0 to |crew|
        invariant |names| == c && forall j | 0 <= j < c :: names[j] == robots[crew[j]].id
        invariant forall i | 0 <= i < |robots| ::
          robots[i].View() ==
            if i in crew[..c] then old(robots[i].View()).(mission := Some(id)) else old(robots[i].View())
      {
        robots[crew[c]].missionId := Some(id);
        names := names + [robots[crew[c]].id];
        assert crew[..c + 1] == crew[..c] + [crew[c]];
      }
      assert crew[..|crew|] == crew;
    }

    method AddMission(names: seq<string>, planned: int)
      requires Valid()
      modifies this`missions
      ensures Valid() && Robots() == old(Robots())
      ensures Missions() == old(Missions()) + [State.Mission(missionSeq, names, planned, 0, State.Queued, None)]
      ensures MissionsFrom(old(missions))
    {
      var m := new Mission(missionSeq, names, planned);
      ghost var ms := Missions();
      assert m !in missions;
      missions := missions + [m];
      assert forall k | 0 <= k < |ms| :: missions[k].View() == ms[k];
    }

    /** The crew of the next mission is taken on. */
    method TakeCrew(p: Pool.Pick) returns (names: seq<string>)
      requires Valid() && Pool.ValidPick(View(), p)
      modifies this`missionSeq, robots
      ensures missionSeq == old(missionSeq) + 1 && Missions() == old(Missions())
      ensures |names| == |p.crew| && forall c | 0 <= c < |names| :: names[c] == old(Robots())[p.crew[c]].id
      ensures Robots() == Pool.TakenOn(old(Robots()), p.crew, missionSeq)
    {
      ghost var rs := Robots();
      assert forall i | 0 <= i < |p.crew| :: p.crew[i] < |rs|;
      hide Pool.ValidPick, Pool.TakenOn;
      missionSeq := missionSeq + 1;
      names := Enlist(p.crew, missionSeq);
    }

    /** Puts one new mission, crewed as picked, into the pool. */
    method SpawnMission(p: Pool.Pick)
      requires Valid() && Pool.ValidPick(View(), p)
      modifies this`missionSeq, this`missions, robots
      ensures Valid() && robots == old(robots) && MissionsFrom(old(missions))
      ensures View() == Pool.SpawnOne(old(View()), p)
    {
      hide Pool.SpawnOne, Pool.ValidPick, Pool.TakenOn;
      ghost var f := View();
      var names := TakeCrew(p);
      Pool.SpawnedFleet(f, p, names);
      AddMission(names, p.planned);
    }

    /** The next mission the generator asks for, or none when the pool is full or too few robots are free. */
    method NextPick(rng: Pool.Generator) returns (p: Option<Pool.Pick>)
      requires Valid() && Pool.Samples(rng)
      ensures p.Some? <==> Pool.ShortOfMissions(View())
      ensures p.Some? ==> Pool.ValidPick(View(), p.value)
    {
      var active := CountActive();
      if active >= Pool.TARGET_CONCURRENT { return None; }
      var free := FreeRobots();
      if |free| < Pool.MIN_ROBOTS { return None; }
      var pick := rng(missionSeq, free);
      assert Pool.DrawsCrew(pick, free);
      forall i | 0 <= i < |pick.crew| ensures pick.crew[i] < |robots| && Robots()[pick.crew[i]].mission.None? {
        var j :| 0 <= j < |free| && free[j] == pick.crew[i];
      }
      return Some(pick);
    }

    /** Tops the pool up; `rng` is the mission generator, which samples crews from the free robots. */
    method SpawnMissions(rng: Pool.Generator) returns (ghost picks: seq<Pool.Pick>)
      requires Valid() && Pool.Samples(rng)
      modifies this`missionSeq, this`missions, robots
      ensures Valid() && robots == old(robots) && MissionsFrom(old(missions))
      ensures Pool.ValidPicks(old(View()), picks) && View() == Pool.Spawn(old(View()), picks)
    {
      picks := [];
      ghost var start := View();
      hide Pool.SpawnOne, Pool.ValidPick, Pool.Samples, Pool.FreeCount, Pool.ActiveCount;
      var p := NextPick(rng);
      while p.Some?
        invariant Valid() && robots == old(robots) && MissionsFrom(old(missions))
        invariant p.Some? <==> Pool.ShortOfMissions(View())
        invariant p.Some? ==> Pool.ValidPick(View(), p.value)
        invariant Pool.ValidCourse(start, picks) && View() == Pool.Spawn(start, picks)
        decreases Pool.TARGET_CONCURRENT - Pool.ActiveCount(Missions())
      {
        Pool.SpawnSnoc(start, picks, p.value);
        Pool.SpawnFillsUp(View(), p.value);
        SpawnMission(p.value);
        picks := picks + [p.value];
        p := NextPick(rng);
      }
    }

    /** Drops missions that have been done for long; the rest keep their order. */
    method PruneMissions()
      requires Valid()
      modifies this`missions
      ensures Valid() && Robots() == old(Robots()) && Missions() == Pool.Prune(old(Missions()), tickCount)
      ensures forall m | m in missions :: m in old(missions)
    {
      var kept: seq<Mission> := [];
      ghost var ms := Missions();
      for k := |missions| downto 0
        invariant forall j | 0 <= j < |kept| :: exists i :: k <= i < |missions| && kept[j] == missions[i]
        invariant forall i, j | 0 <= i < j < |kept| :: kept[i] != kept[j]
        invariant seq(|kept|, j requires 0 <= j < |kept| reads kept => kept[j].View()) == Pool.Prune(ms[k..], tickCount)
      {
        var m := missions[k];
        assert ms[k..][0] == m.View() && ms[k..][1..] == ms[k + 1..];
        if m.state != State.Done || tickCount - m.completedTick.GetOr(0) <= Pool.DONE_LINGER_TICKS {
          kept := [m] + kept;
        }
      }
      missions := kept;
    }

    method MissionUpkeep(rng: Pool.Generator) returns (ghost picks: seq<Pool.Pick>)
      requires Valid() && Pool.Samples(rng)
      modifies this`missionSeq, this`missions, robots, missions
      ensures Valid() && robots == old(robots) && tickCount == old(tickCount) && MissionsFrom(old(missions))
      ensures var c := Pool.CompleteAll(old(View()));
        Pool.ValidPicks(c, picks) &&
        View() == Pool.Spawn(c, picks).(missions := Pool.Prune(Pool.Spawn(c, picks).missions, tickCount))
    {
      CompleteMissions();
      picks := SpawnMissions(rng);
      PruneMissions();
    }

    method PublishAll() returns (messages: seq<seq<ActionState>>)
      requires Valid()
      modifies robots
      ensures View() == Pool.PublishAll(old(View()))
      ensures |messages| == |robots|
      ensures forall i | 0 <= i < |robots| :: messages[i] == State.Publish(old(robots[i].View())).1
    {
      hide State.Publish;
      messages := [];
      for k := 0 to |robots|
        invariant |messages| == k && forall i | 0 <= i < k :: messages[i] == State.Publish(old(robots[i].View())).1
        invariant forall i | 0 <= i < |robots| ::
          robots[i].View() == if i < k then State.Publish(old(robots[i].View())).0 else old(robots[i].View())
      {
        var message := robots[k].Publish();
        messages := messages + [message];
      }
    }

    method Advance(w: World, dt: real, draws: seq<State.Draws>)
      requires Valid() && |draws| == |robots|
      modifies this`tickCount, robots, missions
      ensures View() == Pool.Stepped(w, old(View()), dt, draws)
    {
      hide Pool.StepUpTo;
      ghost var f := View();
      tickCount := tickCount + 1;
      assert View() == f.(tick := f.tick + 1);
      StepAll(w, dt, draws);
    }

    /** One tick: every robot steps, missions are kept up, and every robot publishes its state. */
    method Tick(w: World, dt: real, draws: seq<State.Draws>, rng: Pool.Generator)
      returns (messages: seq<seq<ActionState>>, ghost picks: seq<Pool.Pick>)
      requires Valid() && |draws| == |robots| && Pool.Samples(rng)
      modifies this, robots, missions
      ensures Valid() && robots == old(robots) && MissionsFrom(old(missions))
      ensures Pool.Possible(w, old(View()), Pool.Ticked(dt, draws, picks))
      ensures View() == Pool.After(w, old(View()), Pool.Ticked(dt, draws, picks))
      ensures var h := Pool.KeptUp(w, old(View()), dt, draws, picks);
        |messages| == |h.robots| && forall i | 0 <= i < |h.robots| :: messages[i] == State.Publish(h.robots[i]).1
    {
      ghost var f := View();
      Advance(w, dt, draws);
      ghost var g := View();
      picks := MissionUpkeep(rng);
      ghost var h := View();
      messages := PublishAll();
      TickInThree(w, f, g, h, View(), dt, draws, picks);
    }

    method FindRobot(id: string) returns (k: nat)
      ensures k == Pool.FindRobot(Robots(), id)
    {
      k := 0;
      while k < |robots| && robots[k].id != id
        invariant k <= |robots|
        invariant forall j | 0 <= j < k :: robots[j].id != id
      {
        k := k + 1;
      }
      ghost var found := Pool.FindRobot(Robots(), id);
      assert found < |robots| ==> Robots()[found].id == id;
      assert k < |robots| ==> Robots()[k].id == id;
    }

    method ApplyOrder(w: World, id: string, o: State.Order) returns (ok: bool)
      requires Valid()
      modifies robots
      ensures View() == Pool.After(w, old(View()), Pool.Ordered(id, o))
      ensures ok <==> var k := Pool.FindRobot(old(Robots()), id);
        k < |robots| && State.Judge(w, old(Robots())[k], o) == State.Accepted
    {
      var k := FindRobot(id);
      if k == |robots| { return false; }
      ghost var rs := Robots();
      var v := robots[k].ApplyOrder(w, o);
      assert Robots() == rs[k := robots[k].View()];
      return v == State.Accepted;
    }

    /** A state message on request, beside those of the ticks. */
    method RequestState(w: World, id: string) returns (message: Option<seq<ActionState>>)
      requires Valid()
      modifies robots
      ensures View() == Pool.After(w, old(View()), Pool.StateRequested(id))
      ensures var k := Pool.FindRobot(old(Robots()), id);
        message == if k < |robots| then Some(State.Publish(old(Robots())[k]).1) else None
    {
      var k := FindRobot(id);
      if k == |robots| { return None; }
      ghost var rs := Robots();
      var said := robots[k].Publish();
      assert Robots() == rs[k := robots[k].View()];
      return Some(said);
    }

    method ApplyCommand(w: World, id: string, cmd: string) returns (ok: bool)
      requires Valid()
      modifies robots
      ensures View() == Pool.After(w, old(View()), Pool.Commanded(id, cmd))
      ensures ok <==> var k, v := Pool.FindRobot(old(Robots()), id), State.ParseVerb(cmd);
        k < |robots| && v.Some? && State.ApplyVerb(w, old(Robots())[k], v.value).1
    {
      var k := FindRobot(id);
      if k == |robots| { return false; }
      var v := State.ParseVerb(cmd);
      if v.None? { return false; }
      ghost var rs := Robots();
      ok := robots[k].ApplyVerb(w, v.value);
      assert Robots() == rs[k := robots[k].View()];
    }
  }

  ghost function NewAt(place: nat -> (string, real), i: nat): State.Robot {
    State.NewRobot(State.RobotName(i + 1), State.SerialOf(State.RobotName(i + 1)), place(i).0, place(i).1)
  }

  lemma StartsAsBuilt(place: nat -> (string, real), f: Pool.Fleet, picks: seq<Pool.Pick>)
    requires f == Pool.Fleet(f.robots, [], 0, 0) && forall i | 0 <= i < |f.robots| :: f.robots[i] == NewAt(place, i)
    requires Pool.ValidPicks(f, picks)
    ensures var g := Pool.Spawn(f, picks);
      && Runs.Initial(g) && g.tick == 0 && |g.robots| == |f.robots|
      && forall i | 0 <= i < |g.robots| :: g.robots[i] == NewAt(place, i).(mission := g.robots[i].mission)
  {
    forall i, j | 0 <= i < j < |f.robots|
      ensures f.robots[i].id != f.robots[j].id
    {
      if f.robots[i].id == f.robots[j].id { State.RobotNamesDiffer(i + 1, j + 1); }
    }
    assert Runs.BuiltFrom(Pool.Spawn(f, picks), f.robots, picks);
    SpawnKeepsTick(f, picks);
    SpawnKeepsSize(f, picks);
    forall i | 0 <= i < |f.robots|
      ensures Pool.Spawn(f, picks).robots[i] == NewAt(place, i).(mission := Pool.Spawn(f, picks).robots[i].mission)
    {
      Projection.SpawnTouchesMission(f, picks, i);
    }
  }

  lemma {:induction false} SpawnKeepsSize(f: Pool.Fleet, picks: seq<Pool.Pick>)
    requires Pool.ValidCourse(f, picks)
    ensures |Pool.Spawn(f, picks).robots| == |f.robots|
    decreases |picks|
  {
    if picks != [] { SpawnKeepsSize(f, picks[..|picks| - 1]); }
  }

  lemma TickInThree(w: World, f: Pool.Fleet, g: Pool.Fleet, h: Pool.Fleet, end: Pool.Fleet,
                    dt: real, draws: seq<State.Draws>, picks: seq<Pool.Pick>)
    requires |draws| == |f.robots| && g == Pool.Stepped(w, f, dt, draws)
    requires var c := Pool.CompleteAll(g);
      && Pool.ValidPicks(c, picks)
      && h == Pool.Spawn(c, picks).(missions := Pool.Prune(Pool.Spawn(c, picks).missions, g.tick))
    requires end == Pool.PublishAll(h)
    ensures Pool.Possible(w, f, Pool.Ticked(dt, draws, picks))
    ensures h == Pool.KeptUp(w, f, dt, draws, picks) && end == Pool.After(w, f, Pool.Ticked(dt, draws, picks))
  {
    SpawnKeepsTick(Pool.CompleteAll(g), picks);
  }

  lemma {:induction false} SpawnKeepsTick(f: Pool.Fleet, picks: seq<Pool.Pick>)
    requires Pool.ValidCourse(f, picks)
    ensures Pool.Spawn(f, picks).tick == f.tick
    decreases |picks|
  {
    if picks != [] { SpawnKeepsTick(f, picks[..|picks| - 1]); }
  }

  ghost function Unowned(r: State.Robot, id: nat): State.Robot {
    if r.mission == Some(id) then r.(mission := None) else r
  }

  lemma ReleaseOneMore(ms: seq<State.Mission>, r: State.Robot, k: nat)
    requires k < |ms|
    ensures var s := Pool.Release(ms[..k], r);
      Pool.Release(ms[..k + 1], r) == if Pool.Completes(ms[k]) then Unowned(s, ms[k].id) else s
  {
    assert ms[..k + 1] == ms[..k] + [ms[k]];
    if Pool.FreedBy(ms[..k], r.mission) {
      var j :| 0 <= j < k && Pool.Completes(ms[..k][j]) && ms[..k][j].id == r.mission.value;
      assert ms[..k + 1][j] == ms[..k][j];
    }
    if Pool.Completes(ms[k]) { assert ms[..k + 1][k] == ms[k]; }
  }

  lemma {:induction false} FoundMission(ms: seq<State.Mission>, id: nat, k: nat)
    requires k <= |ms| && (forall j | 0 <= j < k :: ms[j].id != id) && (k < |ms| ==> ms[k].id == id)
    ensures State.FindMission(ms, id) == k
  {
  }
}
