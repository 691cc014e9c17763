/** Every robot of a fleet run lives one of the robot runs of ActionHistory. */
module FleetProjection {
  import opened Options
  import opened RouteTravel
  import opened RobotState
  import Life = ActionLifecycle
  import opened ActionHistory
  import opened MissionPool
  import opened MissionRuns

  /** What one fleet event is to the robot at position i. */
  function OpsOf(w: World, f: Fleet, e: Event, i: nat): seq<Life.Op>
    requires Possible(w, f, e) && i < |f.robots|
  {
    match e
    case Ticked(dt, draws, picks) =>
      var seen := StepUpTo(w, f.(tick := f.tick + 1), dt, draws, i).missions;
      var kept := KeptUp(w, f, dt, draws, picks);
      [Life.Tick(seen, f.tick + 1, dt, draws[i]),
       Life.Crew(if i < |kept.robots| then kept.robots[i].mission else None), Life.Report]
    case Ordered(id, o) => if FindRobot(f.robots, id) == i then [Life.OrderIn(o)] else []
    case Commanded(id, cmd) =>
      if FindRobot(f.robots, id) == i && ParseVerb(cmd).Some? then [Life.Command(ParseVerb(cmd).value)] else []
    case StateRequested(id) => if FindRobot(f.robots, id) == i then [Life.Report] else []
  }

  lemma {:induction false} SpawnTouchesMission(f: Fleet, picks: seq<Pick>, i: nat)
    requires ValidCourse(f, picks) && i < |f.robots|
    ensures var g := Spawn(f, picks);
      |g.robots| == |f.robots| && g.robots[i] == f.robots[i].(mission := g.robots[i].mission)
    decreases |picks|
  {
    if picks != [] { SpawnTouchesMission(f, picks[..|picks| - 1], i); }
  }

  lemma {:induction false} StepUpToAt(w: World, f: Fleet, dt: real, draws: seq<Draws>, i: nat, k: nat)
    requires |draws| == |f.robots| && i < k <= |f.robots|
    ensures StepUpTo(w, f, dt, draws, k).robots[i]
         == StepRobot(w, StepUpTo(w, f, dt, draws, i).missions, f.tick, f.robots[i], dt, draws[i]).1
    decreases k
  {
    hide StepRobot;
    var g := StepUpTo(w, f, dt, draws, k - 1);
    if i < k - 1 {
      StepUpToAt(w, f, dt, draws, i, k - 1);
      assert StepOne(w, g, dt, draws[k - 1], k - 1).robots[i] == g.robots[i];
    }
  }

  function Records(w: World, h: History, ops: seq<Life.Op>): History {
    if ops == [] then h else Record(w, Records(w, h, ops[..|ops| - 1]), ops[|ops| - 1])
  }

  lemma {:induction false} RunRecords(w: World, r: Robot, ops: seq<Life.Op>, more: seq<Life.Op>)
    ensures Run(w, r, ops + more) == Records(w, Run(w, r, ops), more)
    decreases |more|
  {
    hide Record;
    if more == [] {
      assert ops + more == ops;
    } else {
      RunRecords(w, r, ops, more[..|more| - 1]);
      assert (ops + more)[..|ops + more| - 1] == ops + more[..|more| - 1];
    }
  }

  lemma TickIsThreeOps(w: World, f: Fleet, e: Event, i: nat, h: History)
    requires Possible(w, f, e) && e.Ticked? && i < |f.robots| && h.robot == f.robots[i]
    ensures |After(w, f, e).robots| == |f.robots|
    ensures Records(w, h, OpsOf(w, f, e, i)).robot == After(w, f, e).robots[i]
  {
    hide StepRobot, Spawn, Publish;
    var ops := OpsOf(w, f, e, i);
    var f1 := f.(tick := f.tick + 1);
    StepUpToAt(w, f1, e.dt, e.draws, i, |f.robots|);
    var s := Stepped(w, f, e.dt, e.draws).robots[i];
    var c := CompleteAll(Stepped(w, f, e.dt, e.draws));
    SpawnTouchesMission(c, e.picks, i);
    var kept := KeptUp(w, f, e.dt, e.draws, e.picks);
    assert kept.robots[i] == s.(mission := kept.robots[i].mission);
    assert ops[..2][..1] == [ops[0]] && ops[..1][..0] == [];
    assert Records(w, h, ops[..0]) == h;
    assert Records(w, h, ops[..1]).robot == s;
    assert Records(w, h, ops[..2]).robot == kept.robots[i];
  }

  lemma EventIsOps(w: World, f: Fleet, e: Event, i: nat, h: History)
    requires Possible(w, f, e) && i < |f.robots| && h.robot == f.robots[i]
    ensures |After(w, f, e).robots| == |f.robots|
    ensures Records(w, h, OpsOf(w, f, e, i)).robot == After(w, f, e).robots[i]
  {
    if e.Ticked? {
      TickIsThreeOps(w, f, e, i, h);
    } else {
      assert Records(w, h, []) == h;
      var ops := OpsOf(w, f, e, i);
      if ops != [] { assert ops[..0] == []; }
    }
  }

  /** The life of robot i in the first n events of a fleet run. */
  ghost function LifeOf(w: World, fleets: seq<Fleet>, events: seq<Event>, n: nat, i: nat): seq<Life.Op>
    requires IsRun(w, fleets, events) && n < |fleets|
  {
    if n == 0 || i >= |fleets[n - 1].robots| then []
    else
      assert Possible(w, fleets[n - 1], events[n - 1]);
      LifeOf(w, fleets, events, n - 1, i) + OpsOf(w, fleets[n - 1], events[n - 1], i)
  }

  lemma {:induction false} RunIsApplyAll(w: World, r: Robot, ops: seq<Life.Op>)
    ensures Run(w, r, ops).robot == Life.ApplyAll(w, r, ops)
  {
    if ops != [] {
      RunIsApplyAll(w, r, ops[..|ops| - 1]);
      hide StepRobot, ApplyOrder, ApplyVerb, Publish;
    }
  }

  /** Every robot of a fleet run lives the run of its own ticks, orders, verbs, crewings and messages. */
  lemma {:induction false} RobotLivesItsOps(w: World, fleets: seq<Fleet>, events: seq<Event>, n: nat, i: nat)
    requires IsRun(w, fleets, events) && n < |fleets| && i < |fleets[0].robots|
    ensures |fleets[n].robots| == |fleets[0].robots|
    ensures Run(w, fleets[0].robots[i], LifeOf(w, fleets, events, n, i)).robot == fleets[n].robots[i]
    ensures Life.ApplyAll(w, fleets[0].robots[i], LifeOf(w, fleets, events, n, i)) == fleets[n].robots[i]
    decreases n
  {
    if n > 0 {
      RobotLivesItsOps(w, fleets, events, n - 1, i);
      var f, e := fleets[n - 1], events[n - 1];
      assert Possible(w, f, e) && fleets[n] == After(w, f, e);
      LifeStep(w, fleets[0].robots[i], LifeOf(w, fleets, events, n - 1, i), f, e, i);
    }
    RunIsApplyAll(w, fleets[0].robots[i], LifeOf(w, fleets, events, n, i));
  }

  /**
    In a run of the whole fleet, what ActionHistory proves of one robot holds of each robot that started fresh, while
    all of them share one mission pool: its action history is sound throughout exactly if no order it accepted
    borrowed one of its ids.
   */
  lemma {:induction false} EveryRobotIsSound(w: World, fleets: seq<Fleet>, events: seq<Event>, n: nat, i: nat)
    requires IsRun(w, fleets, events) && n < |fleets| && i < |fleets[0].robots| && Fresh(fleets[0].robots[i])
    ensures var r, ops := fleets[0].robots[i], LifeOf(w, fleets, events, n, i);
      && i < |fleets[n].robots| && Run(w, r, ops).robot == fleets[n].robots[i]
      && (SoundThroughout(w, r, ops) <==> BorrowsNothing(w, r, ops))
    ensures ForeignOrders(events, fleets[0].robots[i].serial) ==>
      Sound(Run(w, fleets[0].robots[i], LifeOf(w, fleets, events, n, i)))
  {
    var r, ops := fleets[0].robots[i], LifeOf(w, fleets, events, n, i);
    RobotLivesItsOps(w, fleets, events, n, i);
    ActionIdentityMovesForward(w, r, ops);
    if ForeignOrders(events, r.serial) {
      LifeIsForeign(w, fleets, events, n, i, r.serial);
      ForeignBorrowsNothing(w, r, ops);
    }
  }

  /** No order of the run carries an id of the form this vehicle mints. */
  ghost predicate ForeignOrders(events: seq<Event>, serial: string) {
    forall e | e in events && e.Ordered? :: Life.Foreign(serial, Life.OrderIn(e.order))
  }

  ghost predicate AllForeign(serial: string, ops: seq<Life.Op>) { forall op | op in ops :: Life.Foreign(serial, op) }

  lemma ForeignConcat(serial: string, a: seq<Life.Op>, b: seq<Life.Op>)
    requires AllForeign(serial, a) && AllForeign(serial, b)
    ensures AllForeign(serial, a + b)
  {
    hide Life.Foreign;
  }

  lemma {:induction false} LifeIsForeign(w: World, fleets: seq<Fleet>, events: seq<Event>, n: nat, i: nat,
                                         serial: string)
    requires IsRun(w, fleets, events) && n < |fleets| && ForeignOrders(events, serial)
    ensures AllForeign(serial, LifeOf(w, fleets, events, n, i))
    decreases n
  {
    hide AllForeign, OpsOf, After, Possible;
    if n == 0 || i >= |fleets[n - 1].robots| {
      NothingForeign(serial);
    } else {
      LifeIsForeign(w, fleets, events, n - 1, i, serial);
      assert Possible(w, fleets[n - 1], events[n - 1]);
      OpsAreForeign(w, fleets[n - 1], events[n - 1], i, serial);
      ForeignConcat(serial, LifeOf(w, fleets, events, n - 1, i), OpsOf(w, fleets[n - 1], events[n - 1], i));
    }
  }

  lemma NothingForeign(serial: string)
    ensures AllForeign(serial, [])
  {
  }

  lemma LifeStep(w: World, r: Robot, before: seq<Life.Op>, f: Fleet, e: Event, i: nat)
    requires Possible(w, f, e) && i < |f.robots| && Run(w, r, before).robot == f.robots[i]
    ensures |After(w, f, e).robots| == |f.robots|
    ensures Run(w, r, before + OpsOf(w, f, e, i)).robot == After(w, f, e).robots[i]
  {
    RunRecords(w, r, before, OpsOf(w, f, e, i));
    EventIsOps(w, f, e, i, Run(w, r, before));
  }

  lemma OpsAreForeign(w: World, f: Fleet, e: Event, i: nat, serial: string)
    requires Possible(w, f, e) && i < |f.robots|
    requires e.Ordered? ==> Life.Foreign(serial, Life.OrderIn(e.order))
    ensures AllForeign(serial, OpsOf(w, f, e, i))
  {
  }
}
