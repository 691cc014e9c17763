/** The simulator object from construction through any inputs: what it goes through is a run of the specification. */
module FleetLife {
  import opened RouteTravel
  import State = RobotState
  import History = ActionHistory
  import Pool = MissionPool
  import Runs = MissionRuns
  import Sim = FleetSim

  datatype Input =
    | Tick(dt: real, draws: seq<State.Draws>)
    | Order(robot: string, order: State.Order)
    | Command(robot: string, cmd: string)
    | StateRequest(robot: string)

  /** What the input is to the specification; of a tick only the picks of the generator are open. */
  ghost predicate Is(input: Input, e: Pool.Event) {
    match input
    case Tick(dt, draws) => e.Ticked? && e.dt == dt && e.draws == draws
    case Order(robot, o) => e == Pool.Ordered(robot, o)
    case Command(robot, cmd) => e == Pool.Commanded(robot, cmd)
    case StateRequest(robot) => e == Pool.StateRequested(robot)
  }

  method Handle(w: World, fleet: Sim.Fleet, rng: Pool.Generator, input: Input) returns (ghost e: Pool.Event)
    requires fleet.Valid() && Pool.Samples(rng) && (input.Tick? ==> |input.draws| == |fleet.robots|)
    modifies fleet, fleet.robots, fleet.missions
    ensures fleet.Valid() && fleet.robots == old(fleet.robots)
    ensures forall i | 0 <= i < |fleet.missions| :: fleet.missions[i] in old(fleet.missions) || fresh(fleet.missions[i])
    ensures Is(input, e) && Pool.Possible(w, old(fleet.View()), e)
    ensures fleet.View() == Pool.After(w, old(fleet.View()), e)
  {
    hide Pool.After;
    match input {
      case Tick(dt, draws) =>
        ghost var picks;
        var messages;
        messages, picks := fleet.Tick(w, dt, draws, rng);
        e := Pool.Ticked(dt, draws, picks);
      case Order(robot, o) =>
        var ok := fleet.ApplyOrder(w, robot, o);
        e := Pool.Ordered(robot, o);
      case Command(robot, cmd) =>
        var ok := fleet.ApplyCommand(w, robot, cmd);
        e := Pool.Commanded(robot, cmd);
      case StateRequest(robot) =>
        var message := fleet.RequestState(w, robot);
        e := Pool.StateRequested(robot);
    }
  }

  ghost predicate AllFresh(f: Pool.Fleet) { forall i | 0 <= i < |f.robots| :: History.Fresh(f.robots[i]) }

  lemma BornFresh(place: nat -> (string, real), f: Pool.Fleet)
    requires forall i | 0 <= i < |f.robots| :: f.robots[i] == Sim.NewAt(place, i).(mission := f.robots[i].mission)
    ensures AllFresh(f)
  {
  }

  /** Each event leads from one fleet to the next. */
  ghost predicate Chain(w: World, fleets: seq<Pool.Fleet>, events: seq<Pool.Event>) {
    && |fleets| == |events| + 1
    && forall n | 0 <= n < |events| ::
         Pool.Possible(w, fleets[n], events[n]) && fleets[n + 1] == Pool.After(w, fleets[n], events[n])
  }

  lemma ChainSnoc(w: World, fleets: seq<Pool.Fleet>, events: seq<Pool.Event>, e: Pool.Event)
    requires Chain(w, fleets, events) && Pool.Possible(w, fleets[|events|], e)
    ensures Chain(w, fleets + [Pool.After(w, fleets[|events|], e)], events + [e])
  {
    hide Pool.After, Pool.Possible;
    var gs, es := fleets + [Pool.After(w, fleets[|events|], e)], events + [e];
    forall n | 0 <= n < |es|
      ensures Pool.Possible(w, gs[n], es[n]) && gs[n + 1] == Pool.After(w, gs[n], es[n])
    {
      if n < |events| { assert Pool.Possible(w, fleets[n], events[n]); }
    }
  }

  method HandleAll(w: World, fleet: Sim.Fleet, rng: Pool.Generator, inputs: seq<Input>)
    returns (ghost fleets: seq<Pool.Fleet>, ghost events: seq<Pool.Event>)
    requires fleet.Valid() && Pool.Samples(rng) && forall i | i in inputs && i.Tick? :: |i.draws| == |fleet.robots|
    modifies fleet, fleet.robots, fleet.missions
    ensures fleet.Valid() && fleet.robots == old(fleet.robots)
    ensures |events| == |inputs| && forall n | 0 <= n < |inputs| :: Is(inputs[n], events[n])
    ensures Chain(w, fleets, events) && fleets[0] == old(fleet.View()) && fleets[|events|] == fleet.View()
  {
    hide Pool.After, Pool.Possible, Is, Pool.Samples;
    fleets, events := [fleet.View()], [];
    for n := 0 to |inputs|
      invariant fleet.Valid() && fleet.robots == old(fleet.robots)
      invariant forall i | 0 <= i < |fleet.missions| ::
        fleet.missions[i] in old(fleet.missions) || fresh(fleet.missions[i])
      invariant |events| == n && forall k | 0 <= k < n :: Is(inputs[k], events[k])
      invariant Chain(w, fleets, events) && fleets[0] == old(fleet.View()) && fleets[n] == fleet.View()
    {
      ghost var e := Handle(w, fleet, rng, inputs[n]);
      ChainSnoc(w, fleets, events, e);
      fleets, events := fleets + [fleet.View()], events + [e];
    }
  }

  /**
    Any inputs to a newly built fleet: the views it goes through are a run of the specification, so everything
    proved of runs holds of the object, and every robot of it starts with a clean action history.
   */
  method Live(w: World, size: nat, place: nat -> (string, real), rng: Pool.Generator, inputs: seq<Input>)
    returns (fleet: Sim.Fleet, ghost fleets: seq<Pool.Fleet>, ghost events: seq<Pool.Event>)
    requires Pool.Samples(rng) && forall i | i in inputs && i.Tick? :: |i.draws| == size
    ensures fresh(fleet) && fleet.Valid()
    ensures |events| == |inputs| && forall n | 0 <= n < |inputs| :: Is(inputs[n], events[n])
    ensures Runs.IsRun(w, fleets, events) && fleets[|events|] == fleet.View() && AllFresh(fleets[0])
    ensures Pool.ActiveCount(fleet.View().missions) <= 3
    ensures forall r | r in fleet.View().robots && r.mission.Some? :: Runs.InOneCrew(fleet.View().missions, r)
  {
    fleet := new Sim.Fleet(size, place, rng);
    BornFresh(place, fleet.View());
    hide Runs.Initial, Pool.After, Pool.Possible, AllFresh, Is, Pool.Samples;
    fleets, events := HandleAll(w, fleet, rng, inputs);
    Runs.MissionPoolHolds(w, fleets, events, |events|);
  }
}
