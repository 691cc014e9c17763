/** The fleet: robots stepped in order, and the pool of missions that owns most of them. */
module MissionPool {
  import opened Collections
  import opened Options
  import opened RouteTravel
  import opened RobotState

  const TARGET_CONCURRENT := 3
  const MIN_ROBOTS := 2
  const MAX_ROBOTS := 4
  const MIN_TASKS := 10
  const MAX_TASKS := 20
  const DONE_LINGER_TICKS := 6

  datatype Fleet = Fleet(robots: seq<Robot>, missions: seq<Mission>, missionSeq: nat, tick: nat)

  // ---- stepping every robot ------------------------------------------------

  /** The fleet after its first k robots took their step of this tick. */
  function StepUpTo(w: World, f: Fleet, dt: real, draws: seq<Draws>, k: nat): (g: Fleet)
    requires |draws| == |f.robots| && k <= |f.robots|
    ensures |g.robots| == |f.robots| && |g.missions| == |f.missions|
    ensures g.missionSeq == f.missionSeq && g.tick == f.tick
    ensures forall j | k <= j < |f.robots| :: g.robots[j] == f.robots[j]
  {
    if k == 0 then f
    else
      var g := StepUpTo(w, f, dt, draws, k - 1);
      StepOne(w, g, dt, draws[k - 1], k - 1)
  }

  function StepOne(w: World, f: Fleet, dt: real, d: Draws, i: nat): (g: Fleet)
    requires i < |f.robots|
    ensures |g.missions| == |f.missions|
  {
    var (ms, r) := StepRobot(w, f.missions, f.tick, f.robots[i], dt, d);
    MissionCountKept(w, f.missions, f.tick, f.robots[i], dt, d);
    f.(missions := ms, robots := f.robots[i := r])
  }

  lemma MissionCountKept(w: World, ms: seq<Mission>, tick: nat, r: Robot, dt: real, d: Draws)
    ensures |StepRobot(w, ms, tick, r, dt, d).0| == |ms|
  {
  }

  // ---- upkeep --------------------------------------------------------------

  predicate Completes(m: Mission) { Active(m) && m.done >= m.planned }

  function Complete(m: Mission, tick: nat): Mission {
    if Completes(m) then m.(state := Done, completedTick := Some(tick)) else m
  }

  predicate FreedBy(ms: seq<Mission>, mission: Option<nat>) {
    mission.Some? && exists k :: 0 <= k < |ms| && Completes(ms[k]) && ms[k].id == mission.value
  }

  function Release(ms: seq<Mission>, r: Robot): Robot {
    if FreedBy(ms, r.mission) then r.(mission := None) else r
  }

  function CompleteAll(f: Fleet): Fleet {
    f.(missions := seq(|f.missions|, i requires 0 <= i < |f.missions| => Complete(f.missions[i], f.tick)),
       robots := seq(|f.robots|, i requires 0 <= i < |f.robots| => Release(f.missions, f.robots[i])))
  }

  function ActiveCount(ms: seq<Mission>): (n: nat)
    ensures n <= |ms|
  {
    if ms == [] then 0 else (if Active(ms[0]) then 1 else 0) + ActiveCount(ms[1..])
  }

  lemma {:induction false} ActiveCountSnoc(ms: seq<Mission>, m: Mission)
    ensures ActiveCount(ms + [m]) == ActiveCount(ms) + (if Active(m) then 1 else 0)
  {
    if ms == [] {
      assert ms + [m] == [m];
    } else {
      ActiveCountSnoc(ms[1..], m);
      assert (ms + [m])[1..] == ms[1..] + [m];
    }
  }

  function FreeCount(rs: seq<Robot>): (n: nat)
    ensures n <= |rs|
  {
    if rs == [] then 0 else (if rs[0].mission.None? then 1 else 0) + FreeCount(rs[1..])
  }

  /** What the random generator decides for one new mission: which robots (by position) and how many tasks. */
  datatype Pick = Pick(crew: seq<nat>, planned: int)

  predicate ShortOfMissions(f: Fleet) {
    ActiveCount(f.missions) < TARGET_CONCURRENT && FreeCount(f.robots) >= MIN_ROBOTS
  }

  predicate ValidPick(f: Fleet, p: Pick) {
    && MIN_ROBOTS <= |p.crew| <= MAX_ROBOTS && MIN_TASKS <= p.planned <= MAX_TASKS
    && (forall i | 0 <= i < |p.crew| :: p.crew[i] < |f.robots| && f.robots[p.crew[i]].mission.None?)
    && (forall i, j | 0 <= i < j < |p.crew| :: p.crew[i] != p.crew[j])
  }

  /** The generator samples a crew from the free robots, without repetition. */
  ghost predicate DrawsCrew(p: Pick, free: seq<nat>) {
    |free| >= MIN_ROBOTS && Distinct(free) ==>
      && MIN_ROBOTS <= |p.crew| <= MAX_ROBOTS && MIN_TASKS <= p.planned <= MAX_TASKS
      && (forall i | 0 <= i < |p.crew| :: p.crew[i] in free)
      && (forall i, j | 0 <= i < j < |p.crew| :: p.crew[i] != p.crew[j])
  }

  /** A mission generator: given how many missions there were and the positions of the free robots, its next pick. */
  type Generator = (nat, seq<nat>) -> Pick

  ghost predicate Samples(rng: Generator) { forall n, free :: DrawsCrew(rng(n, free), free) }

  /** The least a generator can do: the first free robots and the smallest plan. */
  function LeastPick(n: nat, free: seq<nat>): Pick {
    Pick(if |free| < MIN_ROBOTS then free else free[..MIN_ROBOTS], MIN_TASKS)
  }

  lemma SomeGeneratorSamples()
    ensures Samples(LeastPick)
  {
    forall n: nat, free: seq<nat> | |free| >= MIN_ROBOTS && Distinct(free)
      ensures DrawsCrew(LeastPick(n, free), free)
    {
      var crew := LeastPick(n, free).crew;
      assert forall i | 0 <= i < |crew| :: crew[i] == free[i];
    }
  }

  function SpawnOne(f: Fleet, p: Pick): Fleet
    requires ValidPick(f, p)
  {
    var id := f.missionSeq + 1;
    var crew := seq(|p.crew|, i requires 0 <= i < |p.crew| => f.robots[p.crew[i]].id);
    f.(missionSeq := id,
       missions := f.missions + [Mission(id, crew, p.planned, 0, Queued, None)],
       robots := seq(|f.robots|, i requires 0 <= i < |f.robots| =>
         if i in p.crew then f.robots[i].(mission := Some(id)) else f.robots[i]))
  }

  lemma SpawnedCrewIs(f: Fleet, p: Pick, names: seq<string>)
    requires ValidPick(f, p)
    requires |names| == |p.crew| && forall c | 0 <= c < |names| :: names[c] == f.robots[p.crew[c]].id
    ensures SpawnOne(f, p).missions
         == f.missions + [Mission(f.missionSeq + 1, names, p.planned, 0, Queued, None)]
  {
    var crew := SpawnOne(f, p).missions[|f.missions|].crew;
    assert crew == names;
  }

  /** The robots with those at the crew's positions taken on by the mission. */
  function TakenOn(rs: seq<Robot>, crew: seq<nat>, id: nat): seq<Robot> {
    seq(|rs|, i requires 0 <= i < |rs| => if i in crew then rs[i].(mission := Some(id)) else rs[i])
  }

  lemma SpawnedRobotsAre(f: Fleet, p: Pick)
    requires ValidPick(f, p)
    ensures SpawnOne(f, p).robots == TakenOn(f.robots, p.crew, f.missionSeq + 1)
  {
    var g, rs := SpawnOne(f, p), TakenOn(f.robots, p.crew, f.missionSeq + 1);
    forall i | 0 <= i < |rs|
      ensures g.robots[i] == rs[i]
    {
    }
  }

  /** The new fleet from the crew's names and the robots as taken on. */
  lemma SpawnedFleet(f: Fleet, p: Pick, names: seq<string>)
    requires ValidPick(f, p)
    requires |names| == |p.crew| && forall c | 0 <= c < |names| :: names[c] == f.robots[p.crew[c]].id
    ensures SpawnOne(f, p) == f.(missionSeq := f.missionSeq + 1,
              robots := TakenOn(f.robots, p.crew, f.missionSeq + 1),
              missions := f.missions + [Mission(f.missionSeq + 1, names, p.planned, 0, Queued, None)])
  {
    SpawnedCrewIs(f, p, names);
    SpawnedRobotsAre(f, p);
    hide TakenOn;
  }

  lemma SpawnFillsUp(f: Fleet, p: Pick)
    requires ValidPick(f, p)
    ensures ActiveCount(SpawnOne(f, p).missions) == ActiveCount(f.missions) + 1
  {
    ActiveCountSnoc(f.missions, SpawnOne(f, p).missions[|f.missions|]);
  }

  /** Each pick was made while missions were short, from the fleet the earlier picks had left. */
  predicate ValidCourse(f: Fleet, picks: seq<Pick>)
    decreases |picks|, 0
  {
    picks == [] ||
    var front, p := picks[..|picks| - 1], picks[|picks| - 1];
    ValidCourse(f, front) && ShortOfMissions(Spawn(f, front)) && ValidPick(Spawn(f, front), p)
  }

  function Spawn(f: Fleet, picks: seq<Pick>): Fleet
    requires ValidCourse(f, picks)
    decreases |picks|, 1
  {
    if picks == [] then f else SpawnOne(Spawn(f, picks[..|picks| - 1]), picks[|picks| - 1])
  }

  /** A whole run of the top-up loop: it stops exactly when missions are no longer short. */
  predicate ValidPicks(f: Fleet, picks: seq<Pick>) {
    ValidCourse(f, picks) && !ShortOfMissions(Spawn(f, picks))
  }

  lemma SpawnSnoc(f: Fleet, picks: seq<Pick>, p: Pick)
    requires ValidCourse(f, picks) && ShortOfMissions(Spawn(f, picks)) && ValidPick(Spawn(f, picks), p)
    ensures ValidCourse(f, picks + [p]) && Spawn(f, picks + [p]) == SpawnOne(Spawn(f, picks), p)
  {
    assert (picks + [p])[..|picks|] == picks;
  }

  predicate Lingers(m: Mission, tick: nat) {
    Active(m) || tick - m.completedTick.GetOr(0) <= DONE_LINGER_TICKS
  }

  function Prune(ms: seq<Mission>, tick: nat): seq<Mission> {
    if ms == [] then []
    else (if Lingers(ms[0], tick) then [ms[0]] else []) + Prune(ms[1..], tick)
  }

  function PublishAll(f: Fleet): Fleet {
    f.(robots := seq(|f.robots|, i requires 0 <= i < |f.robots| => Publish(f.robots[i]).0))
  }

  // ---- fleet events --------------------------------------------------------

  function Stepped(w: World, f: Fleet, dt: real, draws: seq<Draws>): Fleet
    requires |draws| == |f.robots|
  {
    StepUpTo(w, f.(tick := f.tick + 1), dt, draws, |f.robots|)
  }

  /** The fleet at the end of a tick, when its robots are about to publish their states. */
  function KeptUp(w: World, f: Fleet, dt: real, draws: seq<Draws>, picks: seq<Pick>): Fleet
    requires |draws| == |f.robots| && ValidPicks(CompleteAll(Stepped(w, f, dt, draws)), picks)
  {
    var g := Spawn(CompleteAll(Stepped(w, f, dt, draws)), picks);
    g.(missions := Prune(g.missions, g.tick))
  }

  function Tick(w: World, f: Fleet, dt: real, draws: seq<Draws>, picks: seq<Pick>): Fleet
    requires |draws| == |f.robots| && ValidPicks(CompleteAll(Stepped(w, f, dt, draws)), picks)
  {
    PublishAll(KeptUp(w, f, dt, draws, picks))
  }

  /** Position of the first robot with that id, or the size of the fleet. */
  function FindRobot(rs: seq<Robot>, id: string): (k: nat)
    ensures k <= |rs|
    ensures k < |rs| ==> rs[k].id == id
    ensures forall j | 0 <= j < k :: rs[j].id != id
  {
    if rs == [] || rs[0].id == id then 0 else 1 + FindRobot(rs[1..], id)
  }

  datatype Event =
    | Ticked(dt: real, draws: seq<Draws>, picks: seq<Pick>)
    | Ordered(robot: string, order: Order)
    | Commanded(robot: string, cmd: string)
    | StateRequested(robot: string)

  predicate Possible(w: World, f: Fleet, e: Event) {
    e.Ticked? ==> |e.draws| == |f.robots| && ValidPicks(CompleteAll(Stepped(w, f, e.dt, e.draws)), e.picks)
  }

  function After(w: World, f: Fleet, e: Event): Fleet
    requires Possible(w, f, e)
  {
    match e
    case Ticked(dt, draws, picks) => Tick(w, f, dt, draws, picks)
    case Ordered(id, o) =>
      var k := FindRobot(f.robots, id);
      if k < |f.robots| then f.(robots := f.robots[k := ApplyOrder(w, f.robots[k], o).0]) else f
    case Commanded(id, cmd) =>
      var k, v := FindRobot(f.robots, id), ParseVerb(cmd);
      if k < |f.robots| && v.Some? then f.(robots := f.robots[k := ApplyVerb(w, f.robots[k], v.value).0]) else f
    case StateRequested(id) =>
      var k := FindRobot(f.robots, id);
      if k < |f.robots| then f.(robots := f.robots[k := Publish(f.robots[k]).0]) else f
  }

  // ---- what a robot's step does to the pool ---------------------------------

  ghost predicate Untouched(ms: seq<Mission>, r: Robot, ms': seq<Mission>, s: Robot) {
    ms' == ms && (s.taskMission.None? || s.taskMission == r.taskMission)
  }

  ghost predicate Started(ms: seq<Mission>, r: Robot, ms': seq<Mission>, s: Robot) {
    r.mission.Some? && s.taskMission == r.mission &&
    var k := FindMission(ms, r.mission.value);
    k < |ms| && Active(ms[k]) && ms' == ms[k := StartMission(ms[k])]
  }

  ghost predicate Credited(ms: seq<Mission>, r: Robot, ms': seq<Mission>, s: Robot) {
    r.taskMission.Some? && s.taskMission.None? &&
    var k := FindMission(ms, r.taskMission.value);
    k < |ms| && Active(ms[k]) && ms' == ms[k := ms[k].(done := ms[k].done + 1)]
  }

  ghost predicate Touched(ms: seq<Mission>, r: Robot, ms': seq<Mission>, s: Robot) {
    && s.id == r.id && s.mission == r.mission
    && (Untouched(ms, r, ms', s) || Started(ms, r, ms', s) || Credited(ms, r, ms', s))
  }

  lemma DivertTouches(w: World, r: Robot)
    ensures var s := Divert(w, r); s.id == r.id && s.mission == r.mission && s.taskMission.None?
  {
  }

  lemma AssignTouches(w: World, ms: seq<Mission>, r: Robot, d: TaskDraw)
    ensures var (ms', s) := AssignTask(w, ms, r, d); Touched(ms, r, ms', s)
  {
    hide FindMission, Decimal;
  }

  lemma WorkTouches(ms: seq<Mission>, r: Robot, dt: real)
    ensures var (ms', s) := StepWorking(ms, r, dt); Touched(ms, r, ms', s)
  {
    hide FindMission;
  }

  lemma QuietTouches(ms: seq<Mission>, r: Robot, s: Robot)
    requires s.id == r.id && s.mission == r.mission && s.taskMission in {None, r.taskMission}
    ensures Touched(ms, r, ms, s)
  {
  }

  lemma TouchedAfter(ms: seq<Mission>, r: Robot, s: Robot, ms': seq<Mission>, t: Robot)
    requires s.id == r.id && s.mission == r.mission && s.taskMission in {None, r.taskMission} && Touched(ms, s, ms', t)
    ensures Touched(ms, r, ms', t)
  {
  }

  lemma RunningTouches(w: World, ms: seq<Mission>, r: Robot, dt: real, d: Draws)
    ensures var (ms', s) := StepRunning(w, ms, r, dt, d); Touched(ms, r, ms', s)
  {
    hide Travel, Divert, AssignTask, StepWorking, Touched;
    var s := if r.battery <= LOW_BATTERY_GO_CHARGE && r.status != ToCharger then Divert(w, r) else r;
    DivertTouches(w, r);
    var (ms', t) := StepRunning(w, ms, r, dt, d);
    if s.status == AtWork {
      WorkTouches(ms, s, dt);
    } else if s.status == Idle && d.task.Some? {
      AssignTouches(w, ms, Idled(s, dt), d.task.value);
      TouchedAfter(ms, s, Idled(s, dt), ms', t);
    } else {
      QuietTouches(ms, s, t);
    }
    TouchedAfter(ms, r, s, ms', t);
  }

  lemma StepTouches(w: World, ms: seq<Mission>, tick: nat, r: Robot, dt: real, d: Draws)
    ensures var (ms', s) := StepRobot(w, ms, tick, r, dt, d); Touched(ms, r, ms', s)
  {
    var t := MaybeFault(r, tick, d.fault);
    RunningTouches(w, ms, t, dt, d);
    hide StepRunning, Started, Credited;
  }
}
