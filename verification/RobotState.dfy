/** One robot of the fleet as a value, and what each event does to it. */
module RobotState {
  import opened Options
  import opened RouteTravel
  import opened ActionReports

  // ---- generated action ids -----------------------------------------------

  function Digit(d: nat): char
    requires d < 10
  {
    '0' + d as char
  }

  function Decimal(n: nat): (s: string)
    ensures |s| > 0
  {
    if n < 10 then [Digit(n)] else Decimal(n / 10) + [Digit(n % 10)]
  }

  /** The id of the n-th action this vehicle made up itself. */
  function MintedId(serial: string, n: nat): (id: string)
    ensures id != ""
  {
    "a-" + serial + "-" + Decimal(n)
  }

  lemma {:induction false} DecimalInjective(a: nat, b: nat)
    requires Decimal(a) == Decimal(b)
    ensures a == b
  {
    var s, t := Decimal(a), Decimal(b);
    assert s[|s| - 1] == Digit(a % 10) && t[|t| - 1] == Digit(b % 10);
    assert a % 10 == b % 10;
    if a >= 10 && b >= 10 {
      assert s[..|s| - 1] == Decimal(a / 10) && t[..|t| - 1] == Decimal(b / 10);
      DecimalInjective(a / 10, b / 10);
    }
  }

  lemma MintedIdInjective(serial: string, a: nat, b: nat)
    requires MintedId(serial, a) == MintedId(serial, b)
    ensures a == b
  {
    var prefix := "a-" + serial + "-";
    assert MintedId(serial, a)[|prefix|..] == Decimal(a);
    assert MintedId(serial, b)[|prefix|..] == Decimal(b);
    DecimalInjective(a, b);
  }

  // ---- names ----------------------------------------------------------------

  function TwoDigits(n: nat): string { if n < 10 then "0" + Decimal(n) else Decimal(n) }

  /** The name of the n-th robot of a fleet. */
  function RobotName(n: nat): string { "AMR-" + TwoDigits(n) }

  predicate Legal(c: char) {
    'A' <= c <= 'Z' || 'a' <= c <= 'z' || '0' <= c <= '9' || c == '_' || c == '.' || c == ':'
  }

  /** The serial number made of a robot's name: every character that is not allowed in one becomes '_'. */
  function SerialOf(name: string): string {
    seq(|name|, i requires 0 <= i < |name| => if Legal(name[i]) then name[i] else '_')
  }

  lemma {:induction false} NoLeadingZero(n: nat)
    requires n >= 1
    ensures Decimal(n)[0] != '0'
  {
    if n >= 10 { NoLeadingZero(n / 10); }
  }

  lemma RobotNamesDiffer(a: nat, b: nat)
    requires RobotName(a) == RobotName(b)
    ensures a == b
  {
    assert RobotName(a)[4..] == TwoDigits(a) && RobotName(b)[4..] == TwoDigits(b);
    if a >= 10 { NoLeadingZero(a); }
    if b >= 10 { NoLeadingZero(b); }
    assert a < 10 && b < 10 ==> TwoDigits(a)[1..] == Decimal(a) && TwoDigits(b)[1..] == Decimal(b);
    DecimalInjective(a, b);
  }

  /** A serial number has legal characters only: those of the name, and '_' for all others. */
  lemma SerialIsLegal(name: string)
    ensures |SerialOf(name)| == |name| && '-' !in SerialOf(name)
    ensures forall i | 0 <= i < |name| ::
      var c := name[i];
      var legal := 'A' <= c <= 'Z' || 'a' <= c <= 'z' || '0' <= c <= '9' || c in {'_', '.', ':'};
      SerialOf(name)[i] == if legal then c else '_'
  {
  }

  lemma {:induction false} DecimalHasDigits(n: nat)
    ensures forall c | c in Decimal(n) :: '0' <= c <= '9'
  {
    if n >= 10 { DecimalHasDigits(n / 10); }
  }

  lemma SerialsDiffer(a: nat, b: nat)
    requires SerialOf(RobotName(a)) == SerialOf(RobotName(b))
    ensures a == b
  {
    var x, y := RobotName(a), RobotName(b);
    DecimalHasDigits(a);
    DecimalHasDigits(b);
    assert forall c | c in TwoDigits(a) || c in TwoDigits(b) :: '0' <= c <= '9';
    assert x[..4] == "AMR-" == y[..4] && x[4..] == TwoDigits(a) && y[4..] == TwoDigits(b);
    SerialIsLegal(x);
    SerialIsLegal(y);
    assert |x| == |y|;
    forall i | 0 <= i < |x| ensures x[i] == y[i] {
      if i < 4 {
        assert x[i] == x[..4][i] && y[i] == y[..4][i];
      } else {
        assert x[i] in TwoDigits(a) && y[i] in TwoDigits(b);
        assert SerialOf(x)[i] == x[i] && SerialOf(y)[i] == y[i];
      }
    }
    assert x == y;
    RobotNamesDiffer(a, b);
  }

  /** No two actions that robots of one fleet make up have the same id, whichever robots they are. */
  lemma FleetIdsDiffer(a: nat, b: nat, m: nat, n: nat)
    requires MintedId(SerialOf(RobotName(a)), m) == MintedId(SerialOf(RobotName(b)), n)
    ensures a == b && m == n
  {
    var s, t := SerialOf(RobotName(a)), SerialOf(RobotName(b));
    SerialIsLegal(RobotName(a));
    SerialIsLegal(RobotName(b));
    SameUpToDash(s, t, Decimal(m), Decimal(n));
    SerialsDiffer(a, b);
    DecimalInjective(m, n);
  }

  lemma SameUpToDash(s: string, t: string, x: string, y: string)
    requires "a-" + s + "-" + x == "a-" + t + "-" + y && '-' !in s && '-' !in t
    ensures s == t && x == y
  {
    var one, two := "a-" + s + "-" + x, "a-" + t + "-" + y;
    assert one[2..] == s + "-" + x && two[2..] == t + "-" + y;
    var rest := one[2..];
    assert rest[|s|] == '-' && rest[|t|] == '-';
    assert forall i | 0 <= i < |s| :: rest[i] == s[i] && s[i] in s;
    assert forall i | 0 <= i < |t| :: rest[i] == t[i] && t[i] in t;
    assert |s| == |t|;
    assert s == rest[..|s|] == t && x == rest[|s| + 1..] == y;
  }

  // ---- the robot ----------------------------------------------------------

  datatype Status = Idle | AtMove | AtWork | ToCharger | Charging | Faulted | Paused | EStopped

  predicate Held(s: Status) { s == Paused || s == EStopped }

  /** The order bookkeeping of the vehicle: current order, its update number, the internal order counter. */
  datatype OrderRef = OrderRef(orderId: string, updateId: int, counter: nat)

  datatype UpdateError = UpdateError(orderId: string, rejected: int, current: int)

  datatype Robot = Robot(
    id: string,
    serial: string,
    status: Status,
    resume: Status,
    motion: Motion,
    battery: real,
    workLeft: real,
    fault: Option<string>,
    faultTicks: int,
    tasksDone: nat,
    task: Option<string>,
    actionId: Option<string>,
    actionSeq: nat,
    mission: Option<nat>,
    taskMission: Option<nat>,
    order: OrderRef,
    pending: seq<Staged<ActionState>>,
    errors: seq<Staged<UpdateError>>)

  /** A robot as built: idle where it stands, with nothing in hand and nothing to report. */
  function NewRobot(id: string, serial: string, node: string, battery: real): Robot {
    Robot(id, serial, Idle, Idle, Motion(node, [], 0.0, 0), battery, 0.0, None, 0, 0, None, None, 0, None, None,
          OrderRef("", 0, 0), [], [])
  }

  const SPEED_MPS: real := 1.2
  const MOVE_DRAIN: real := 0.09
  const WORK_DRAIN: real := 0.05
  const IDLE_DRAIN: real := 0.004
  const CHARGE_RATE: real := 0.45
  const LOW_BATTERY_GO_CHARGE: real := 20.0
  const CHARGED_ENOUGH: real := 90.0
  const WORK_SECONDS: real := 12.0
  const SCRIPTED_FAULT_ROBOT := "AMR-07"
  const SCRIPTED_FAULT_TICK := 20
  const SCRIPTED_FAULT_DURATION_TICKS := 12

  /** The id the action in flight is reported under, running or terminal. */
  function ActionIdOf(r: Robot): string {
    if r.actionId.Some? && r.actionId.value != "" then r.actionId.value
    else MintedId(r.serial, r.actionSeq)
  }

  function InFlight(r: Robot): Option<string> {
    if r.task.Some? then Some(ActionIdOf(r)) else None
  }

  function StageTerminal(r: Robot, status: ActionStatus): Robot {
    if r.task.None? then r
    else r.(pending := r.pending + [Staged(ActionState(ActionIdOf(r), r.task.value, status), REPEATS)])
  }

  /** Clears what identifies the action in flight. */
  function DropTask(r: Robot): Robot { r.(task := None, actionId := None) }

  function Arrive(r: Robot): Robot {
    r.(status := match r.status
                 case ToCharger => Charging
                 case AtMove => if r.task.Some? then AtWork else Idle
                 case _ => Idle,
       workLeft := if r.status == AtMove && r.task.Some? then WORK_SECONDS else r.workLeft)
  }

  /** The robot with a new internal order along the shortest path to `target`. */
  function Routed(w: World, r: Robot, target: string, status: Status): Robot {
    var path := w.shortest(r.motion.node, target);
    r.(motion := Motion(r.motion.node, if path == [] then [] else path[1..], 0.0, 0),
       status := status,
       order := OrderRef("ord-" + r.id + "-" + Decimal(r.order.counter + 1), 0, r.order.counter + 1))
  }

  function ArriveIfThere(r: Robot): Robot { if r.motion.path == [] then Arrive(r) else r }

  function RouteTo(w: World, r: Robot, target: string, status: Status): Robot {
    ArriveIfThere(Routed(w, r, target, status))
  }

  function Advance(w: World, r: Robot, dt: real): Robot {
    ArriveIfThere(r.(
      battery := MaxReal(r.battery - MOVE_DRAIN * dt, 0.0),
      motion := Travel(w, r.motion, SPEED_MPS * dt)))
  }

  // ---- missions, as far as a robot touches them ---------------------------

  datatype MissionState = Queued | Running | Done

  datatype Mission = Mission(
    id: nat, crew: seq<string>, planned: int, done: nat, state: MissionState, completedTick: Option<nat>)

  predicate Active(m: Mission) { m.state != Done }

  /** First mission with that id, or the length of the list. */
  function FindMission(ms: seq<Mission>, id: nat): (k: nat)
    ensures k <= |ms|
    ensures k < |ms| ==> ms[k].id == id
    ensures forall j | 0 <= j < k :: ms[j].id != id
  {
    if ms == [] || ms[0].id == id then 0 else 1 + FindMission(ms[1..], id)
  }

  function StartMission(m: Mission): Mission {
    if m.state == Queued then m.(state := MissionState.Running) else m
  }

  // ---- the tick -----------------------------------------------------------

  datatype FaultDraw = FaultDraw(kind: string, ticks: int)
  datatype TaskDraw = TaskDraw(target: string, kind: string)

  /** What the random generator decides for one robot in one tick. */
  datatype Draws = Draws(fault: Option<FaultDraw>, task: Option<TaskDraw>)

  function RaiseFault(r: Robot, f: FaultDraw): Robot {
    r.(fault := Some(f.kind), faultTicks := f.ticks, status := Faulted,
       resume := if r.status == AtMove || r.status == ToCharger then r.status else Idle)
  }

  function MaybeFault(r: Robot, tick: nat, draw: Option<FaultDraw>): Robot {
    if r.fault.Some? then r
    else if r.id == SCRIPTED_FAULT_ROBOT && tick == SCRIPTED_FAULT_TICK then
      RaiseFault(r, FaultDraw("localization", SCRIPTED_FAULT_DURATION_TICKS))
    else if draw.Some? then RaiseFault(r, draw.value)
    else r
  }

  function Divert(w: World, r: Robot): Robot {
    DropTask(RouteTo(w, StageTerminal(r, Failed), w.nearestCharger(r.motion.node), ToCharger)).(taskMission := None)
  }

  /** Tags the task in hand with the robot's mission, if that is still active, and starts the mission. */
  function TagTask(ms: seq<Mission>, r: Robot): (seq<Mission>, Robot) {
    var k := if r.mission.Some? then FindMission(ms, r.mission.value) else |ms|;
    if k < |ms| && Active(ms[k]) then (ms[k := StartMission(ms[k])], r.(taskMission := r.mission))
    else (ms, r.(taskMission := None))
  }

  /** The robot with a task of its own making, under a newly minted action id. */
  function Tasked(r: Robot, kind: string): Robot {
    r.(task := Some(kind), actionSeq := r.actionSeq + 1, actionId := Some(MintedId(r.serial, r.actionSeq + 1)))
  }

  function AssignTask(w: World, ms: seq<Mission>, r: Robot, d: TaskDraw): (seq<Mission>, Robot) {
    var (tagged, named) := TagTask(ms, Tasked(r, d.kind));
    (tagged, RouteTo(w, named, d.target, AtMove))
  }

  function CreditMission(ms: seq<Mission>, r: Robot): (seq<Mission>, Robot) {
    var k := if r.taskMission.Some? then FindMission(ms, r.taskMission.value) else |ms|;
    (if k < |ms| && Active(ms[k]) then ms[k := ms[k].(done := ms[k].done + 1)] else ms,
     r.(taskMission := None))
  }

  function StepFaulted(r: Robot): Robot {
    var ticked := r.(faultTicks := r.faultTicks - 1);
    if ticked.faultTicks <= 0 then ticked.(fault := None, status := r.resume) else ticked
  }

  function StepCharging(r: Robot, dt: real): Robot {
    var charged := r.(battery := MinReal(r.battery + CHARGE_RATE * dt, 100.0));
    if charged.battery >= CHARGED_ENOUGH then charged.(status := Idle, task := None) else charged
  }

  function StepWorking(ms: seq<Mission>, r: Robot, dt: real): (seq<Mission>, Robot) {
    var worked := r.(battery := MaxReal(r.battery - WORK_DRAIN * dt, 0.0), workLeft := r.workLeft - dt);
    if worked.workLeft <= 0.0 then
      CreditMission(ms, DropTask(StageTerminal(worked, Finished)).(tasksDone := r.tasksDone + 1, status := Idle))
    else (ms, worked)
  }

  function Idled(r: Robot, dt: real): Robot { r.(battery := MaxReal(r.battery - IDLE_DRAIN * dt, 0.0)) }

  /** A robot that is neither faulted, held nor charging: it works on, once a low battery has had its say. */
  function StepRunning(w: World, ms: seq<Mission>, r: Robot, dt: real, d: Draws): (seq<Mission>, Robot) {
    var s := if r.battery <= LOW_BATTERY_GO_CHARGE && r.status != ToCharger then Divert(w, r) else r;
    match s.status
    case Idle =>
      if d.task.Some? then AssignTask(w, ms, Idled(s, dt), d.task.value) else (ms, Idled(s, dt))
    case AtWork => StepWorking(ms, s, dt)
    case AtMove => (ms, Advance(w, s, dt))
    case ToCharger => (ms, Advance(w, s, dt))
    case _ => (ms, s)
  }

  function StepRobot(w: World, ms: seq<Mission>, tick: nat, r: Robot, dt: real, d: Draws): (seq<Mission>, Robot) {
    var s := MaybeFault(r, tick, d.fault);
    match s.status
    case Faulted => (ms, StepFaulted(s))
    case Paused => (ms, Idled(s, dt))
    case EStopped => (ms, Idled(s, dt))
    case Charging => (ms, StepCharging(s, dt))
    case _ => StepRunning(w, ms, s, dt, d)
  }

  // ---- inbound orders -----------------------------------------------------

  /** An action of an order; a missing type or id is the empty string. */
  datatype OrderAction = OrderAction(kind: string, id: string)

  datatype Order = Order(orderId: string, updateId: int, nodes: seq<string>, actions: seq<OrderAction>)

  datatype Verdict = Accepted | NoOrderId | StaleUpdate | Unavailable | NoValidNodes

  function OnlyWaypoints(w: World, nodes: seq<string>): seq<string> {
    if nodes == [] then []
    else (if nodes[0] in w.waypoints then [nodes[0]] else []) + OnlyWaypoints(w, nodes[1..])
  }

  function FirstAction(actions: seq<OrderAction>): Option<OrderAction> {
    if actions == [] then None
    else if actions[0].kind != "" then Some(actions[0])
    else FirstAction(actions[1..])
  }

  function Judge(w: World, r: Robot, o: Order): Verdict {
    if o.orderId == "" then NoOrderId
    else if r.order.orderId == o.orderId && o.updateId <= r.order.updateId then StaleUpdate
    else if r.status == Faulted || Held(r.status) then Unavailable
    else if o.nodes != [] && OnlyWaypoints(w, o.nodes) == [] then NoValidNodes
    else Accepted
  }

  /** The id the order's action will run under; one is minted only when the order names none. */
  function OrderActionId(r: Robot, a: Option<OrderAction>): Option<string> {
    if a.None? then None
    else Some(if a.value.id != "" then a.value.id else MintedId(r.serial, r.actionSeq + 1))
  }

  function ApplyOrder(w: World, r: Robot, o: Order): (Robot, Verdict) {
    var v := Judge(w, r, o);
    match v
    case StaleUpdate =>
      (if o.updateId < r.order.updateId
       then r.(errors := r.errors + [Staged(UpdateError(o.orderId, o.updateId, r.order.updateId), REPEATS)])
       else r, v)
    case Accepted => (Adopt(w, r, o), v)
    case _ => (r, v)
  }

  /** The route of an order: its known waypoints, less a first one that restates where the robot is. */
  function OrderPath(w: World, r: Robot, o: Order): seq<string> {
    var valid := OnlyWaypoints(w, o.nodes);
    if valid != [] && valid[0] == r.motion.node then valid[1..] else valid
  }

  /** The robot once the order's action has its id and the action it supersedes is reported. */
  function Superseded(r: Robot, a: Option<OrderAction>): Robot {
    var minted := r.(actionSeq := if a.Some? && a.value.id == "" then r.actionSeq + 1 else r.actionSeq);
    if Some(ActionIdOf(minted)) != OrderActionId(r, a) then StageTerminal(minted, Failed) else minted
  }

  function Adopt(w: World, r: Robot, o: Order): Robot {
    var action := FirstAction(o.actions);
    ArriveIfThere(Superseded(r, action).(
      motion := Motion(r.motion.node, OrderPath(w, r, o), 0.0, 0),
      order := OrderRef(o.orderId, o.updateId, r.order.counter),
      taskMission := None,
      mission := None,
      task := if action.Some? then Some(action.value.kind) else None,
      actionId := OrderActionId(r, action),
      status := AtMove))
  }

  // ---- operator verbs -----------------------------------------------------

  datatype Verb = Pause | Resume | Charge | EStop | CancelOrder

  function ParseVerb(cmd: string): Option<Verb> {
    if cmd == "pause" then Some(Pause)
    else if cmd == "resume" then Some(Resume)
    else if cmd == "charge" then Some(Charge)
    else if cmd == "estop" then Some(EStop)
    else if cmd == "cancel_order" then Some(CancelOrder)
    else None
  }

  function ApplyPause(r: Robot): (Robot, bool) {
    if r.status == Faulted then (r, false)
    else if Held(r.status) then (r, true)
    else (r.(resume := r.status, status := Paused), true)
  }

  function ApplyEStop(r: Robot): Robot {
    if r.status == EStopped then r
    else r.(resume := if r.status == Faulted then Idle else r.status, status := EStopped)
  }

  /** A held robot goes back to what it was doing, except that a task it was busy with is discarded. */
  function ApplyResume(r: Robot): (Robot, bool) {
    if !Held(r.status) then (r, false)
    else if r.resume == AtMove || r.resume == AtWork then
      (DropTask(StageTerminal(r, Failed)).(status := Idle, motion := r.motion.(path := [])), true)
    else (r.(status := r.resume), true)
  }

  function ApplyCancel(r: Robot): (Robot, bool) {
    if r.status == Faulted then (r, false)
    else
      (DropTask(StageTerminal(r, Failed)).(
         motion := r.motion.(path := []),
         taskMission := None,
         status := if r.status == AtMove || r.status == AtWork || r.status == ToCharger then Idle else r.status),
       true)
  }

  function ApplyCharge(w: World, r: Robot): (Robot, bool) {
    if r.status == Faulted then (r, false)
    else if r.status == Charging then (r, true)
    else
      var freed := if Held(r.status) then r.(status := r.resume) else r;
      (DropTask(RouteTo(w, StageTerminal(freed, Failed), w.nearestCharger(r.motion.node), ToCharger)), true)
  }

  function ApplyVerb(w: World, r: Robot, v: Verb): (Robot, bool) {
    match v
    case Pause => ApplyPause(r)
    case EStop => (ApplyEStop(r), true)
    case Resume => ApplyResume(r)
    case CancelOrder => ApplyCancel(r)
    case Charge => ApplyCharge(w, r)
  }

  // ---- state messages -----------------------------------------------------

  /** The action states of a plain snapshot: the action in flight, while it is being worked on. */
  function Snapshot(r: Robot): seq<ActionState> {
    if r.status == AtWork && r.task.Some? then [ActionState(ActionIdOf(r), r.task.value, ActionStatus.Running)]
    else []
  }

  /** Publishing one state message: what it says about actions, and the robot with its staged evidence aged. */
  function Publish(r: Robot): (Robot, seq<ActionState>) {
    (r.(pending := Age(r.pending), errors := Age(r.errors)),
     if r.pending == [] then Snapshot(r) else Merge(Snapshot(r) + Entries(r.pending)))
  }
}
