/** Order updates: when one is refused, how the refusal is said, and how far progress can be rewound. */
module OrderUpdates {
  import opened Options
  import opened RouteTravel
  import opened ActionReports
  import opened RobotState
  import opened ActionLifecycle
  import opened ActionHistory
  import opened HoldsAndFaults

  // ---- the refusal is said ------------------------------------------------------------------

  /** The update error an order causes: only an update lower than the one in progress, never a repeated one. */
  function RefusalOf(r: Robot, o: Order): seq<UpdateError> {
    if o.orderId != "" && o.orderId == r.order.orderId && o.updateId < r.order.updateId then
      [UpdateError(o.orderId, o.updateId, r.order.updateId)]
    else []
  }

  function Refusals(r: Robot, op: Op): seq<UpdateError> { if op.OrderIn? then RefusalOf(r, op.order) else [] }

  /** An event stages exactly the refusals it causes, and only a message takes anything away. */
  lemma ErrorsStaged(w: World, r: Robot, op: Op)
    requires !op.Report?
    ensures Apply(w, r, op).errors == r.errors + Stage(Refusals(r, op), REPEATS)
  {
    match op
    case Tick(ms, tick, dt, draws) => TickKeepsErrors(w, ms, tick, r, dt, draws);
    case Command(v) => VerbKeepsErrors(w, r, v);
    case OrderIn(o) => OrderStagesErrors(w, r, o);
    case Crew(m) =>
    case Report =>
  }

  lemma TickKeepsErrors(w: World, ms: seq<Mission>, tick: nat, r: Robot, dt: real, d: Draws)
    ensures StepRobot(w, ms, tick, r, dt, d).1.errors == r.errors
  {
  }

  lemma VerbKeepsErrors(w: World, r: Robot, v: Verb)
    ensures ApplyVerb(w, r, v).0.errors == r.errors
  {
  }

  lemma OrderStagesErrors(w: World, r: Robot, o: Order)
    ensures ApplyOrder(w, r, o).0.errors == r.errors + Stage(RefusalOf(r, o), REPEATS)
  {
  }

  lemma MessageAges(w: World, r: Robot)
    ensures Apply(w, r, Report).errors == Age(r.errors)
  {
  }

  lemma DueNow<T>(batches: seq<seq<T>>, current: seq<T>)
    ensures var n := |batches|;
      Due(batches + [current], n) == Batch(batches, n - 2) + Batch(batches, n - 1) + current
  {
  }

  /** `batches` are the refusals cut where a state message went out, `said` the staged errors of each message. */
  datatype Refused = Refused(
    robot: Robot, batches: seq<seq<UpdateError>>, current: seq<UpdateError>, said: seq<seq<UpdateError>>)

  ghost function Refusing(w: World, r: Robot, ops: seq<Op>): Refused
    decreases |ops|
  {
    if ops == [] then Refused(r, [], [], [])
    else
      var h, op := Refusing(w, r, ops[..|ops| - 1]), ops[|ops| - 1];
      var s := Apply(w, h.robot, op);
      if op.Report? then Refused(s, h.batches + [h.current], [], h.said + [Entries(h.robot.errors)])
      else Refused(s, h.batches, h.current + Refusals(h.robot, op), h.said)
  }

  ghost predicate SaidInTime(h: Refused) {
    && |h.said| == |h.batches|
    && h.robot.errors == Window(Batch(h.batches, |h.batches| - 2), Batch(h.batches, |h.batches| - 1), h.current)
    && forall n | 0 <= n < |h.said| :: h.said[n] == Due(h.batches, n)
  }

  lemma SaidAfterMessage(h: Refused, s: Robot)
    requires SaidInTime(h) && s.errors == Age(h.robot.errors)
    ensures SaidInTime(Refused(s, h.batches + [h.current], [], h.said + [Entries(h.robot.errors)]))
  {
    var n := |h.batches|;
    WindowAges(Batch(h.batches, n - 2), Batch(h.batches, n - 1), h.current);
    CutBatches(h.batches, h.current);
    DueNow(h.batches, h.current);
    hide Due, Window, Batch, Entries, Age;
  }

  lemma SaidAfterEvent(h: Refused, s: Robot, more: seq<UpdateError>)
    requires SaidInTime(h) && s.errors == h.robot.errors + Stage(more, REPEATS)
    ensures SaidInTime(Refused(s, h.batches, h.current + more, h.said))
  {
    var n := |h.batches|;
    WindowGrows(Batch(h.batches, n - 2), Batch(h.batches, n - 1), h.current, more);
  }

  /** Over any run each refusal rides exactly the next three state messages, in the order of the refusals. */
  lemma {:induction false} RefusalsRideThree(w: World, r: Robot, ops: seq<Op>)
    requires r.errors == []
    ensures SaidInTime(Refusing(w, r, ops))
    decreases |ops|
  {
    if ops == [] {
      assert SaidInTime(Refused(r, [], [], []));
    } else {
      hide Apply, SaidInTime;
      var h, op := Refusing(w, r, ops[..|ops| - 1]), ops[|ops| - 1];
      RefusalsRideThree(w, r, ops[..|ops| - 1]);
      if op.Report? {
        MessageAges(w, h.robot);
        SaidAfterMessage(h, Apply(w, h.robot, op));
      } else {
        ErrorsStaged(w, h.robot, op);
        SaidAfterEvent(h, Apply(w, h.robot, op), Refusals(h.robot, op));
      }
    }
  }

  // ---- what becomes of the order in hand -------------------------------------------------------

  /** The next order the vehicle makes up for itself. */
  function OwnOrder(r: Robot): OrderRef {
    OrderRef("ord-" + r.id + "-" + Decimal(r.order.counter + 1), 0, r.order.counter + 1)
  }

  /** The event sends the robot somewhere without an order: to a charger, or on a task of its own. */
  predicate MakesOwnOrder(r: Robot, op: Op) {
    match op
    case Tick(_, tick, _, draws) =>
      && MaybeFault(r, tick, draws.fault) == r && r.status in {Idle, AtMove, AtWork, ToCharger}
      && if r.battery <= LOW_BATTERY_GO_CHARGE && r.status != ToCharger then true
         else r.status == Idle && draws.task.Some?
    case Command(Charge) => r.status != Faulted && r.status != Charging
    case _ => false
  }

  lemma RoutedOrder(w: World, r: Robot, target: string, status: Status)
    ensures var s := RouteTo(w, r, target, status); s.id == r.id && s.order == OwnOrder(r)
  {
  }

  lemma DivertOrder(w: World, r: Robot)
    ensures var s := Divert(w, r); s.id == r.id && s.order == OwnOrder(r)
  {
    hide RouteTo;
    RoutedOrder(w, StageTerminal(r, Failed), w.nearestCharger(r.motion.node), ToCharger);
  }

  lemma AssignOrder(w: World, ms: seq<Mission>, r: Robot, d: TaskDraw)
    ensures var s := AssignTask(w, ms, r, d).1; s.id == r.id && s.order == OwnOrder(r)
  {
    hide RouteTo, Decimal;
    RoutedOrder(w, TagTask(ms, Tasked(r, d.kind)).1, d.target, AtMove);
  }

  lemma RunningOrder(w: World, ms: seq<Mission>, r: Robot, dt: real, d: Draws)
    requires r.status in {Idle, AtMove, AtWork, ToCharger}
    ensures var s := StepRunning(w, ms, r, dt, d).1;
      && s.id == r.id
      && s.order == (if r.battery <= LOW_BATTERY_GO_CHARGE && r.status != ToCharger then OwnOrder(r)
                     else if r.status == Idle && d.task.Some? then OwnOrder(r) else r.order)
  {
    hide Divert, AssignTask, Travel, Decimal;
    if r.battery <= LOW_BATTERY_GO_CHARGE && r.status != ToCharger {
      DivertFrame(w, r);
      DivertOrder(w, r);
    } else if r.status == Idle && d.task.Some? {
      AssignOrder(w, ms, Idled(r, dt), d.task.value);
    }
  }

  lemma TickOrder(w: World, r: Robot, op: Op)
    requires op.Tick?
    ensures var s := Apply(w, r, op); s.id == r.id && s.order == if MakesOwnOrder(r, op) then OwnOrder(r) else r.order
  {
    hide StepRunning, Decimal;
    var t := MaybeFault(r, op.tick, op.draws.fault);
    if t.status in {Idle, AtMove, AtWork, ToCharger} { RunningOrder(w, op.missions, t, op.dt, op.draws); }
  }

  lemma VerbOrder(w: World, r: Robot, v: Verb)
    ensures var s := ApplyVerb(w, r, v).0;
      s.id == r.id && s.order == if MakesOwnOrder(r, Command(v)) then OwnOrder(r) else r.order
  {
    hide RouteTo, Decimal;
    if v == Charge {
      var freed := if Held(r.status) then r.(status := r.resume) else r;
      RoutedOrder(w, StageTerminal(freed, Failed), w.nearestCharger(r.motion.node), ToCharger);
    }
  }

  lemma OrderTaken(w: World, r: Robot, o: Order)
    ensures var s := ApplyOrder(w, r, o).0;
      && s.id == r.id
      && s.order == if Judge(w, r, o) == Accepted then OrderRef(o.orderId, o.updateId, r.order.counter) else r.order
  {
    hide OrderPath, Superseded;
    SupersededKeepsId(r, FirstAction(o.actions));
  }

  lemma SupersededKeepsId(r: Robot, a: Option<OrderAction>)
    ensures Superseded(r, a).id == r.id
  {
  }

  predicate Accepts(w: World, r: Robot, op: Op) { op.OrderIn? && Judge(w, r, op.order) == Accepted }

  /** The order the robot has after an event: the one it accepted, one it made up, or the one it had. */
  lemma OrderChanges(w: World, r: Robot, op: Op)
    ensures var s := Apply(w, r, op);
      && s.id == r.id
      && s.order == (if Accepts(w, r, op) then OrderRef(op.order.orderId, op.order.updateId, r.order.counter)
                     else if MakesOwnOrder(r, op) then OwnOrder(r) else r.order)
  {
    hide StepRobot, ApplyVerb, ApplyOrder, OwnOrder;
    match op
    case Tick(_, _, _, _) => TickOrder(w, r, op);
    case OrderIn(o) => OrderTaken(w, r, o);
    case Command(v) => VerbOrder(w, r, v);
    case Crew(_) =>
    case Report =>
  }

  // ---- how far progress can be rewound ---------------------------------------------------------

  /** The update applied last and the highest applied, of every order the robot ever had. */
  datatype Log = Log(robot: Robot, last: map<string, int>, highest: map<string, int>)

  predicate TakesUp(w: World, r: Robot, op: Op) { Accepts(w, r, op) || MakesOwnOrder(r, op) }

  function Noted(w: World, h: Log, op: Op): Log {
    var s := Apply(w, h.robot, op);
    if TakesUp(w, h.robot, op) then
      var id, u := s.order.orderId, s.order.updateId;
      Log(s, h.last[id := u], h.highest[id := if id in h.highest && h.highest[id] > u then h.highest[id] else u])
    else h.(robot := s)
  }

  function Logged(w: World, r: Robot, ops: seq<Op>): Log {
    if ops == [] then Log(r, map[r.order.orderId := r.order.updateId], map[r.order.orderId := r.order.updateId])
    else Noted(w, Logged(w, r, ops[..|ops| - 1]), ops[|ops| - 1])
  }

  /** The current order stands at the update applied last. */
  ghost predicate InStep(h: Log) {
    && h.robot.order.orderId in h.last && h.last[h.robot.order.orderId] == h.robot.order.updateId
    && h.last.Keys == h.highest.Keys
    && forall id | id in h.last :: h.last[id] <= h.highest[id]
  }

  lemma NotedInStep(w: World, h: Log, op: Op)
    requires InStep(h)
    ensures InStep(Noted(w, h, op))
  {
    OrderChanges(w, h.robot, op);
    hide Apply, MakesOwnOrder, OwnOrder, Judge;
  }

  lemma {:induction false} LoggedInStep(w: World, r: Robot, ops: seq<Op>)
    ensures InStep(Logged(w, r, ops))
  {
    hide Noted;
    if ops != [] {
      LoggedInStep(w, r, ops[..|ops| - 1]);
      NotedInStep(w, Logged(w, r, ops[..|ops| - 1]), ops[|ops| - 1]);
    }
  }

  /** The robot takes orders, and knows the place of one of the order's nodes if it has any. */
  predicate Takes(w: World, r: Robot, o: Order) {
    r.status != Faulted && !Held(r.status) && (o.nodes == [] || OnlyWaypoints(w, o.nodes) != [])
  }

  /**
    At any point of any run, an update of a known order that is no higher than the one applied last is accepted
    exactly if the robot takes orders and that order is not its current one. An update below the highest ever applied
    is accepted in the same case, and on its current order if an earlier rewind left the one applied last below it.
   */
  lemma UpdateVerdicts(w: World, r: Robot, ops: seq<Op>, o: Order)
    requires o.orderId != "" && o.orderId in Logged(w, r, ops).last
    ensures var h, id := Logged(w, r, ops), o.orderId;
      && id in h.highest && h.last[id] <= h.highest[id]
      && (o.updateId <= h.last[id] ==>
            (Judge(w, h.robot, o) == Accepted <==> Takes(w, h.robot, o) && h.robot.order.orderId != id))
      && (o.updateId < h.highest[id] ==>
            (Judge(w, h.robot, o) == Accepted <==>
             Takes(w, h.robot, o) && (h.robot.order.orderId != id || h.last[id] < o.updateId)))
  {
    LoggedInStep(w, r, ops);
    hide Logged;
  }

  /** The event takes the order up at an update below one it had before. */
  predicate RewindsAt(w: World, r: Robot, ops: seq<Op>, id: string, k: nat)
    requires k < |ops|
  {
    var h := Logged(w, r, ops[..k]);
    var s := Apply(w, h.robot, ops[k]);
    && TakesUp(w, h.robot, ops[k]) && s.order.orderId == id && id in h.highest && s.order.updateId < h.highest[id]
  }

  /** The event offers an update below the one applied last, to a robot that takes orders and is on another order. */
  predicate OffersOld(w: World, h: Log, op: Op, id: string) {
    && op.OrderIn? && op.order.orderId == id && id != "" && id in h.last && op.order.updateId < h.last[id]
    && h.robot.order.orderId != id && Takes(w, h.robot, op.order)
  }

  /** The vehicle makes up an order under an id that stood at a higher update: master control used it before. */
  predicate ReusesId(h: Log, op: Op, id: string) {
    MakesOwnOrder(h.robot, op) && OwnOrder(h.robot).orderId == id && id in h.last && h.last[id] > 0
  }

  predicate GivesWayAt(w: World, r: Robot, ops: seq<Op>, id: string, k: nat)
    requires k < |ops|
  {
    var h := Logged(w, r, ops[..k]);
    OffersOld(w, h, ops[k], id) || ReusesId(h, ops[k], id)
  }

  /** As long as no update was rewound, the event takes the order up at a lower update exactly in those two cases. */
  lemma RewindsOnce(w: World, r: Robot, ops: seq<Op>, op: Op, id: string)
    ensures var h := Logged(w, r, ops); var s := Apply(w, h.robot, op);
      var lower := TakesUp(w, h.robot, op) && s.order.orderId == id && id in h.last && s.order.updateId < h.last[id];
      lower <==> OffersOld(w, h, op, id) || ReusesId(h, op, id)
  {
    var h := Logged(w, r, ops);
    OrderChanges(w, h.robot, op);
    if op.OrderIn? && op.order.orderId != "" && op.order.orderId in h.last { UpdateVerdicts(w, r, ops, op.order); }
    hide Logged, Apply, Takes;
  }

  lemma RewoundIfBehind(w: World, r: Robot, ops: seq<Op>, id: string, n: nat)
    requires n <= |ops|
    requires var h := Logged(w, r, ops[..n]); id in h.last && id in h.highest && h.last[id] < h.highest[id]
    ensures exists k | 0 <= k < |ops| :: GivesWayAt(w, r, ops, id, k)
  {
    if n > 0 {
      assert ops[..n][..n - 1] == ops[..n - 1];
      var h, op := Logged(w, r, ops[..n - 1]), ops[n - 1];
      assert Logged(w, r, ops[..n]) == Noted(w, h, op);
      LoggedInStep(w, r, ops[..n - 1]);
      if id in h.last && h.last[id] < h.highest[id] {
        RewoundIfBehind(w, r, ops, id, n - 1);
      } else {
        hide Logged, Apply, OffersOld, ReusesId;
        RewindsOnce(w, r, ops[..n - 1], op, id);
        assert GivesWayAt(w, r, ops, id, n - 1);
      }
    }
  }

  /**
    Progress on an order is rewound somewhere in a run exactly if somewhere an outdated update of it reaches a robot
    that takes orders and has meanwhile gone on to another one, be it of master control or its own, or the vehicle
    makes up an order of its own under that id.
   */
  lemma ProgressIsRewound(w: World, r: Robot, ops: seq<Op>, id: string)
    ensures (exists k | 0 <= k < |ops| :: RewindsAt(w, r, ops, id, k)) <==>
      (exists k | 0 <= k < |ops| :: GivesWayAt(w, r, ops, id, k))
  {
    hide Apply, OffersOld, ReusesId, TakesUp;
    if k :| 0 <= k < |ops| && RewindsAt(w, r, ops, id, k) {
      LoggedInStep(w, r, ops[..k]);
      RewindsOnce(w, r, ops[..k], ops[k], id);
      var h := Logged(w, r, ops[..k]);
      if h.last[id] < h.highest[id] {
        RewoundIfBehind(w, r, ops, id, k);
      } else {
        assert GivesWayAt(w, r, ops, id, k);
      }
    }
    if k :| 0 <= k < |ops| && GivesWayAt(w, r, ops, id, k) {
      LoggedInStep(w, r, ops[..k]);
      RewindsOnce(w, r, ops[..k], ops[k], id);
      assert RewindsAt(w, r, ops, id, k);
    }
  }

  /**
    And it is: a robot that breaks off to charge makes up an order of its own, and from then on accepts the very
    update of the old order that it refused as outdated a moment before.
   */
  lemma DivertForgetsUpdates(w: World, r: Robot, o: Order, dt: real)
    requires r.status in {AtMove, AtWork} && r.fault.None? && r.battery <= LOW_BATTERY_GO_CHARGE
    requires o.orderId != "" && o.orderId == r.order.orderId && o.orderId != OwnOrder(r).orderId
    requires o.updateId < r.order.updateId && Takes(w, r, o)
    ensures ApplyOrder(w, r, o).1 == StaleUpdate
    ensures var s := Apply(w, r, QuietTick(dt));
      ApplyOrder(w, s, o).1 == Accepted && ApplyOrder(w, s, o).0.order.updateId == o.updateId
  {
    var s := Apply(w, r, QuietTick(dt));
    OrderChanges(w, r, QuietTick(dt));
    DivertedStatus(w, r, dt);
    hide Apply, OwnOrder;
    OrderTaken(w, s, o);
  }

  lemma DivertedStatus(w: World, r: Robot, dt: real)
    requires r.status in {AtMove, AtWork} && r.fault.None? && r.battery <= LOW_BATTERY_GO_CHARGE
    ensures ChargerBound(Apply(w, r, QuietTick(dt)).status)
  {
    hide Travel, Divert;
    DivertFrame(w, r);
  }

  /** An order of master control under the id the vehicle gives its next own order falls back to update 0 with it. */
  lemma OwnOrderResetsUpdates(w: World, r: Robot, op: Op)
    requires MakesOwnOrder(r, op) && r.order.orderId == OwnOrder(r).orderId && r.order.updateId > 0
    ensures Apply(w, r, op).order.orderId == r.order.orderId && Apply(w, r, op).order.updateId == 0
  {
    OrderChanges(w, r, op);
  }
}
