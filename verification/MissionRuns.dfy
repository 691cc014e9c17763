/** Whole runs of the fleet: what the mission pool keeps. */
module MissionRuns {
  import opened Collections
  import opened Options
  import opened RouteTravel
  import opened RobotState
  import opened MissionPool

  // ---- the invariant -------------------------------------------------------

  ghost predicate UniqueMissions(ms: seq<Mission>) {
    forall i, j | 0 <= i < j < |ms| :: ms[i].id != ms[j].id
  }

  ghost predicate UniqueRobots(rs: seq<Robot>) {
    forall i, j | 0 <= i < j < |rs| :: rs[i].id != rs[j].id
  }

  ghost predicate WellFormed(m: Mission, seqNo: nat) {
    && 1 <= m.id <= seqNo && m.planned >= MIN_TASKS && |m.crew| <= MAX_ROBOTS
    && (m.state == Queued ==> m.done == 0)
  }

  predicate Owns(m: Mission, r: Robot) { Active(m) && r.mission == Some(m.id) && r.id in m.crew }

  ghost predicate Owned(ms: seq<Mission>, r: Robot) {
    r.mission.Some? ==> exists k :: 0 <= k < |ms| && Owns(ms[k], r)
  }

  /** A task tagged with a mission that is still active belongs to that mission's crew, and the mission runs. */
  predicate TagFits(m: Mission, r: Robot) {
    Active(m) && r.taskMission == Some(m.id) ==> r.mission == r.taskMission && m.state == MissionState.Running
  }

  ghost predicate Tagged(ms: seq<Mission>, seqNo: nat, r: Robot) {
    && (r.taskMission.Some? ==> r.taskMission.value <= seqNo)
    && forall k | 0 <= k < |ms| :: TagFits(ms[k], r)
  }

  ghost predicate Pooled(f: Fleet) {
    && UniqueMissions(f.missions) && UniqueRobots(f.robots)
    && (forall k | 0 <= k < |f.missions| :: WellFormed(f.missions[k], f.missionSeq))
    && (forall i | 0 <= i < |f.robots| :: Owned(f.missions, f.robots[i]))
    && (forall i | 0 <= i < |f.robots| :: Tagged(f.missions, f.missionSeq, f.robots[i]))
    && ActiveCount(f.missions) <= TARGET_CONCURRENT
  }

  /** Between ticks no active mission has reached its plan. */
  ghost predicate Unfinished(f: Fleet) {
    forall k | 0 <= k < |f.missions| :: !Completes(f.missions[k])
  }

  // ---- one robot's step ----------------------------------------------------

  /** Identity and crew stay; the state only moves from queued to running; work done never shrinks. */
  predicate Evolves(m: Mission, n: Mission) {
    && n.id == m.id && n.crew == m.crew && n.planned == m.planned && n.completedTick == m.completedTick
    && (n.state == m.state || (m.state == Queued && n.state == MissionState.Running))
    && m.done <= n.done
    && (!Active(m) ==> n == m)
  }

  ghost predicate AllEvolve(ms: seq<Mission>, ns: seq<Mission>) {
    |ns| == |ms| && forall k | 0 <= k < |ms| :: Evolves(ms[k], ns[k])
  }

  lemma {:induction false} ActiveCountSame(ms: seq<Mission>, ns: seq<Mission>)
    requires AllEvolve(ms, ns)
    ensures ActiveCount(ms) == ActiveCount(ns)
  {
    if ms != [] {
      assert Evolves(ms[0], ns[0]);
      forall k | 0 <= k < |ms[1..]| ensures Evolves(ms[1..][k], ns[1..][k]) { assert Evolves(ms[k + 1], ns[k + 1]); }
      ActiveCountSame(ms[1..], ns[1..]);
    }
  }

  lemma TouchedEvolves(ms: seq<Mission>, r: Robot, ns: seq<Mission>, s: Robot)
    requires Touched(ms, r, ns, s)
    ensures AllEvolve(ms, ns)
  {
  }

  lemma OthersKept(ms: seq<Mission>, ns: seq<Mission>, seqNo: nat, r: Robot)
    requires AllEvolve(ms, ns) && Owned(ms, r) && Tagged(ms, seqNo, r)
    ensures Owned(ns, r) && Tagged(ns, seqNo, r)
  {
    if r.mission.Some? {
      var k :| 0 <= k < |ms| && Owns(ms[k], r);
      assert Evolves(ms[k], ns[k]);
      assert Owns(ns[k], r);
    }
    forall k | 0 <= k < |ns| ensures TagFits(ns[k], r) {
      assert Evolves(ms[k], ns[k]) && TagFits(ms[k], r);
    }
  }

  lemma StepperKept(ms: seq<Mission>, seqNo: nat, r: Robot, ns: seq<Mission>, s: Robot)
    requires Touched(ms, r, ns, s) && UniqueMissions(ms) && Owned(ms, r) && Tagged(ms, seqNo, r)
    requires forall k | 0 <= k < |ms| :: WellFormed(ms[k], seqNo)
    ensures Owned(ns, s) && Tagged(ns, seqNo, s)
    ensures forall k | 0 <= k < |ns| :: WellFormed(ns[k], seqNo)
  {
    TouchedEvolves(ms, r, ns, s);
    OthersKept(ms, ns, seqNo, r);
    forall k | 0 <= k < |ns| ensures WellFormed(ns[k], seqNo) && TagFits(ns[k], s) {
      assert WellFormed(ms[k], seqNo) && TagFits(ms[k], r) && TagFits(ns[k], r);
    }
    if s.mission.Some? {
      var k :| 0 <= k < |ns| && Owns(ns[k], r);
      assert Owns(ns[k], s);
    }
  }

  lemma StepOneKeeps(w: World, f: Fleet, dt: real, d: Draws, i: nat)
    requires Pooled(f) && i < |f.robots|
    ensures Pooled(StepOne(w, f, dt, d, i))
    ensures AllEvolve(f.missions, StepOne(w, f, dt, d, i).missions)
  {
    var r := f.robots[i];
    StepTouches(w, f.missions, f.tick, r, dt, d);
    var (ns, s) := StepRobot(w, f.missions, f.tick, r, dt, d);
    TouchedEvolves(f.missions, r, ns, s);
    StepperKept(f.missions, f.missionSeq, r, ns, s);
    ActiveCountSame(f.missions, ns);
    var g := StepOne(w, f, dt, d, i);
    forall j | 0 <= j < |g.robots|
      ensures Owned(g.missions, g.robots[j]) && Tagged(g.missions, g.missionSeq, g.robots[j])
    {
      if j != i { OthersKept(f.missions, ns, f.missionSeq, f.robots[j]); }
    }
    assert UniqueMissions(ns) by {
      forall a, b | 0 <= a < b < |ns| ensures ns[a].id != ns[b].id {
        assert Evolves(f.missions[a], ns[a]) && Evolves(f.missions[b], ns[b]);
      }
    }
  }

  // ---- the overshoot bound -------------------------------------------------

  /** How many of the robots belong to the mission. */
  function Owners(rs: seq<Robot>, id: nat): nat {
    if rs == [] then 0
    else Owners(rs[..|rs| - 1], id) + (if rs[|rs| - 1].mission == Some(id) then 1 else 0)
  }

  /** Halfway through a tick a mission gained at most one task from each of its robots that have stepped. */
  ghost predicate Bounded(start: seq<Mission>, f: Fleet, k: nat)
    requires k <= |f.robots| && |start| == |f.missions|
  {
    forall j | 0 <= j < |f.missions| && Active(f.missions[j]) ::
      f.missions[j].done <= start[j].done + Owners(f.robots[..k], f.missions[j].id)
  }

  lemma BoundedStep(w: World, start: seq<Mission>, f: Fleet, dt: real, d: Draws, i: nat)
    requires Pooled(f) && i < |f.robots| && |start| == |f.missions| && Bounded(start, f, i)
    ensures Bounded(start, StepOne(w, f, dt, d, i), i + 1)
  {
    var r := f.robots[i];
    StepTouches(w, f.missions, f.tick, r, dt, d);
    StepOneKeeps(w, f, dt, d, i);
    var g := StepOne(w, f, dt, d, i);
    assert g.robots[..i + 1][..i] == f.robots[..i];
    forall j | 0 <= j < |g.missions| && Active(g.missions[j])
      ensures g.missions[j].done <= start[j].done + Owners(g.robots[..i + 1], g.missions[j].id)
    {
      assert Evolves(f.missions[j], g.missions[j]);
      assert TagFits(f.missions[j], r);
    }
  }

  lemma EvolveTransitive(ms: seq<Mission>, ns: seq<Mission>, os: seq<Mission>)
    requires AllEvolve(ms, ns) && AllEvolve(ns, os)
    ensures AllEvolve(ms, os)
  {
    forall j | 0 <= j < |ms| ensures Evolves(ms[j], os[j]) {
      assert Evolves(ms[j], ns[j]) && Evolves(ns[j], os[j]);
    }
  }

  lemma BoundedAtStart(f: Fleet)
    ensures Bounded(f.missions, f, 0) && AllEvolve(f.missions, f.missions)
  {
  }

  lemma {:induction false} StepUpToKeeps(w: World, f: Fleet, dt: real, draws: seq<Draws>, k: nat)
    requires Pooled(f) && |draws| == |f.robots| && k <= |f.robots|
    ensures var g := StepUpTo(w, f, dt, draws, k);
      Pooled(g) && Bounded(f.missions, g, k) && AllEvolve(f.missions, g.missions)
    decreases k
  {
    BoundedAtStart(f);
    hide Pooled, Bounded, AllEvolve, StepOne;
    if k > 0 {
      StepUpToKeeps(w, f, dt, draws, k - 1);
      var g := StepUpTo(w, f, dt, draws, k - 1);
      NextStepKeeps(w, f.missions, g, dt, draws[k - 1], k - 1);
      assert StepUpTo(w, f, dt, draws, k) == StepOne(w, g, dt, draws[k - 1], k - 1);
    }
  }

  lemma NextStepKeeps(w: World, start: seq<Mission>, g: Fleet, dt: real, d: Draws, i: nat)
    requires Pooled(g) && i < |g.robots| && AllEvolve(start, g.missions) && Bounded(start, g, i)
    ensures var h := StepOne(w, g, dt, d, i);
      Pooled(h) && Bounded(start, h, i + 1) && AllEvolve(start, h.missions)
  {
    assert |start| == |g.missions|;
    hide Pooled, Bounded, AllEvolve, StepOne;
    BoundedStep(w, start, g, dt, d, i);
    StepOneKeeps(w, g, dt, d, i);
    EvolveTransitive(start, g.missions, StepOne(w, g, dt, d, i).missions);
  }

  /** The ids of the robots that belong to the mission. */
  ghost function OwnerIds(rs: seq<Robot>, id: nat): set<string> {
    set r | r in rs && r.mission == Some(id) :: r.id
  }

  lemma {:induction false} OwnersAreIds(rs: seq<Robot>, id: nat)
    requires UniqueRobots(rs)
    ensures Owners(rs, id) == |OwnerIds(rs, id)|
  {
    if rs == [] {
      assert OwnerIds(rs, id) == {};
    } else {
      var front, r := rs[..|rs| - 1], rs[|rs| - 1];
      OwnersAreIds(front, id);
      if r.mission == Some(id) {
        assert OwnerIds(rs, id) == OwnerIds(front, id) + {r.id};
        assert r.id !in OwnerIds(front, id);
      } else {
        assert OwnerIds(rs, id) == OwnerIds(front, id);
      }
    }
  }

  lemma OwnersFitCrew(f: Fleet, k: nat)
    requires Pooled(f) && k < |f.missions|
    ensures Owners(f.robots, f.missions[k].id) <= |f.missions[k].crew|
  {
    var m := f.missions[k];
    OwnersAreIds(f.robots, m.id);
    DistinctSize(m.crew);
    var crew := Elements(m.crew);
    forall r | r in f.robots && r.mission == Some(m.id) ensures r.id in crew {
      var i :| 0 <= i < |f.robots| && f.robots[i] == r;
      assert Owned(f.missions, f.robots[i]);
      var j :| 0 <= j < |f.missions| && Owns(f.missions[j], r);
      assert j == k;
    }
    assert OwnerIds(f.robots, m.id) <= crew;
    SubsetSize(OwnerIds(f.robots, m.id), crew);
  }

  /** One tick's steps add at most a crew's worth of tasks to a mission. */
  lemma SteppedGains(w: World, f: Fleet, dt: real, draws: seq<Draws>, k: nat)
    requires Pooled(f) && |draws| == |f.robots| && k < |f.missions|
    ensures var g := Stepped(w, f, dt, draws);
      Pooled(g) && AllEvolve(f.missions, g.missions) && g.tick == f.tick + 1 && g.missionSeq == f.missionSeq
      && (Active(g.missions[k]) ==> g.missions[k].done <= f.missions[k].done + |g.missions[k].crew|)
  {
    hide StepUpTo;
    var f1 := f.(tick := f.tick + 1);
    assert Pooled(f1);
    StepUpToKeeps(w, f1, dt, draws, |f.robots|);
    var g := Stepped(w, f, dt, draws);
    assert g.robots[..|f.robots|] == g.robots;
    OwnersFitCrew(g, k);
    hide Pooled, Active;
  }

  // ---- upkeep --------------------------------------------------------------

  lemma {:induction false} ActiveCountShrinks(ms: seq<Mission>, ns: seq<Mission>)
    requires |ns| == |ms| && forall k | 0 <= k < |ms| :: Active(ns[k]) ==> Active(ms[k])
    ensures ActiveCount(ns) <= ActiveCount(ms)
  {
    if ms != [] { ActiveCountShrinks(ms[1..], ns[1..]); }
  }

  lemma CompleteKeepsRobot(f: Fleet, r: Robot)
    requires UniqueMissions(f.missions) && Owned(f.missions, r) && Tagged(f.missions, f.missionSeq, r)
    ensures var g := CompleteAll(f);
      Owned(g.missions, Release(f.missions, r)) && Tagged(g.missions, f.missionSeq, Release(f.missions, r))
  {
    var g, s := CompleteAll(f), Release(f.missions, r);
    if s.mission.Some? {
      var k :| 0 <= k < |f.missions| && Owns(f.missions[k], r);
      assert Owns(g.missions[k], s);
    }
    CompletionFitsTags(f, r, s);
  }

  lemma CompleteKeeps(f: Fleet)
    requires Pooled(f)
    ensures Pooled(CompleteAll(f)) && Unfinished(CompleteAll(f))
  {
    hide Owned, Tagged;
    var g := CompleteAll(f);
    ActiveCountShrinks(f.missions, g.missions);
    forall i | 0 <= i < |g.robots|
      ensures Owned(g.missions, g.robots[i]) && Tagged(g.missions, g.missionSeq, g.robots[i])
    {
      CompleteKeepsRobot(f, f.robots[i]);
    }
  }

  lemma CompletionFitsTags(f: Fleet, r: Robot, s: Robot)
    requires UniqueMissions(f.missions) && Tagged(f.missions, f.missionSeq, r) && s == Release(f.missions, r)
    ensures Tagged(CompleteAll(f).missions, f.missionSeq, s)
  {
    var g := CompleteAll(f);
    forall k | 0 <= k < |g.missions| ensures TagFits(g.missions[k], s) {
      assert TagFits(f.missions[k], r);
    }
  }

  lemma SpawnOneKeepsRobot(f: Fleet, p: Pick, i: nat)
    requires Pooled(f) && ValidPick(f, p) && i < |f.robots|
    ensures var g := SpawnOne(f, p); Owned(g.missions, g.robots[i]) && Tagged(g.missions, g.missionSeq, g.robots[i])
  {
    var g, n := SpawnOne(f, p), |f.missions|;
    var r, s := f.robots[i], g.robots[i];
    assert Owned(f.missions, r) && Tagged(f.missions, f.missionSeq, r);
    if i in p.crew {
      var c :| 0 <= c < |p.crew| && p.crew[c] == i;
      assert g.missions[n].crew[c] == s.id;
      assert Owns(g.missions[n], s);
    } else if s.mission.Some? {
      var k :| 0 <= k < n && Owns(f.missions[k], r);
      assert Owns(g.missions[k], s);
    }
    forall k | 0 <= k < |g.missions| ensures TagFits(g.missions[k], s) {
      if k < n { assert TagFits(f.missions[k], r); }
    }
  }

  lemma SpawnOneKeeps(f: Fleet, p: Pick)
    requires Pooled(f) && Unfinished(f) && ShortOfMissions(f) && ValidPick(f, p)
    ensures Pooled(SpawnOne(f, p)) && Unfinished(SpawnOne(f, p))
  {
    hide Owned, Tagged;
    var g, n := SpawnOne(f, p), |f.missions|;
    ActiveCountSnoc(f.missions, g.missions[n]);
    forall i | 0 <= i < |g.robots|
      ensures Owned(g.missions, g.robots[i]) && Tagged(g.missions, g.missionSeq, g.robots[i])
    {
      SpawnOneKeepsRobot(f, p, i);
    }
    forall k | 0 <= k < |g.missions| ensures WellFormed(g.missions[k], g.missionSeq) {
      if k < n { assert WellFormed(f.missions[k], f.missionSeq); }
    }
  }

  lemma {:induction false} SpawnKeeps(f: Fleet, picks: seq<Pick>)
    requires Pooled(f) && Unfinished(f) && ValidCourse(f, picks)
    ensures Pooled(Spawn(f, picks)) && Unfinished(Spawn(f, picks))
    decreases |picks|
  {
    if picks != [] {
      SpawnKeeps(f, picks[..|picks| - 1]);
      SpawnOneKeeps(Spawn(f, picks[..|picks| - 1]), picks[|picks| - 1]);
    }
  }

  lemma {:induction false} PruneMembers(ms: seq<Mission>, tick: nat)
    ensures forall m :: m in Prune(ms, tick) <==> m in ms && Lingers(m, tick)
    ensures ActiveCount(Prune(ms, tick)) == ActiveCount(ms)
    ensures UniqueMissions(ms) ==> UniqueMissions(Prune(ms, tick))
  {
    if ms != [] {
      var rest := Prune(ms[1..], tick);
      PruneMembers(ms[1..], tick);
      assert ms == [ms[0]] + ms[1..];
      if Lingers(ms[0], tick) {
        assert Prune(ms, tick)[1..] == rest;
        if UniqueMissions(ms) {
          assert UniqueMissions(ms[1..]);
          forall j | 0 <= j < |rest| ensures rest[j].id != ms[0].id {
            assert rest[j] in ms[1..];
          }
        }
      } else {
        assert Prune(ms, tick) == rest;
        assert UniqueMissions(ms) ==> UniqueMissions(ms[1..]);
      }
    }
  }

  lemma PruneKeepsRobot(f: Fleet, r: Robot)
    requires Owned(f.missions, r) && Tagged(f.missions, f.missionSeq, r)
    ensures var ns := Prune(f.missions, f.tick); Owned(ns, r) && Tagged(ns, f.missionSeq, r)
  {
    PruneMembers(f.missions, f.tick);
    var ns := Prune(f.missions, f.tick);
    hide Prune;
    if r.mission.Some? {
      var k :| 0 <= k < |f.missions| && Owns(f.missions[k], r);
      assert f.missions[k] in ns;
      var j :| 0 <= j < |ns| && ns[j] == f.missions[k];
      assert Owns(ns[j], r);
    }
    forall k | 0 <= k < |ns| ensures TagFits(ns[k], r) {
      assert ns[k] in f.missions;
    }
  }

  lemma PruneKeeps(f: Fleet)
    requires Pooled(f) && Unfinished(f)
    ensures var g := f.(missions := Prune(f.missions, f.tick)); Pooled(g) && Unfinished(g)
  {
    PruneMembers(f.missions, f.tick);
    var ns := Prune(f.missions, f.tick);
    hide Prune, Owned, Tagged;
    forall k | 0 <= k < |ns| ensures WellFormed(ns[k], f.missionSeq) && !Completes(ns[k]) {
      assert ns[k] in f.missions;
    }
    forall i | 0 <= i < |f.robots| ensures Owned(ns, f.robots[i]) && Tagged(ns, f.missionSeq, f.robots[i]) {
      PruneKeepsRobot(f, f.robots[i]);
    }
  }

  // ---- orders, verbs and messages ------------------------------------------

  /** Same robot to the pool, or one that left it together with its tag. */
  predicate Looser(r: Robot, s: Robot) {
    && s.id == r.id
    && (s.mission == r.mission || (s.mission.None? && s.taskMission.None?))
    && (s.taskMission == r.taskMission || s.taskMission.None?)
  }

  lemma LooserKeeps(f: Fleet, rs: seq<Robot>)
    requires Pooled(f) && |rs| == |f.robots| && forall i | 0 <= i < |rs| :: Looser(f.robots[i], rs[i])
    ensures Pooled(f.(robots := rs))
  {
    forall i | 0 <= i < |rs| ensures Owned(f.missions, rs[i]) && Tagged(f.missions, f.missionSeq, rs[i]) {
      var r, s := f.robots[i], rs[i];
      assert Looser(r, s) && Owned(f.missions, r) && Tagged(f.missions, f.missionSeq, r);
      if s.mission.Some? {
        var k :| 0 <= k < |f.missions| && Owns(f.missions[k], r);
        assert Owns(f.missions[k], s);
      }
      forall k | 0 <= k < |f.missions| ensures TagFits(f.missions[k], s) {
        assert TagFits(f.missions[k], r);
      }
    }
    forall i, j | 0 <= i < j < |rs| ensures rs[i].id != rs[j].id {
      assert Looser(f.robots[i], rs[i]) && Looser(f.robots[j], rs[j]);
    }
  }

  lemma VerbLoosens(w: World, r: Robot, v: Verb)
    ensures Looser(r, ApplyVerb(w, r, v).0)
  {
  }

  lemma OrderLoosens(w: World, r: Robot, o: Order)
    ensures Looser(r, ApplyOrder(w, r, o).0)
  {
  }

  lemma QuietEventKeeps(w: World, f: Fleet, e: Event)
    requires Pooled(f) && Unfinished(f) && !e.Ticked?
    ensures Pooled(After(w, f, e)) && After(w, f, e).missions == f.missions && After(w, f, e).missionSeq == f.missionSeq
  {
    var k := FindRobot(f.robots, e.robot);
    if k < |f.robots| {
      match e
      case Ordered(_, o) => OrderLoosens(w, f.robots[k], o);
      case Commanded(_, cmd) => if ParseVerb(cmd).Some? { VerbLoosens(w, f.robots[k], ParseVerb(cmd).value); }
      case StateRequested(_) =>
    }
    LooserKeeps(f, After(w, f, e).robots);
  }

  // ---- the life of a mission -----------------------------------------------

  /** Queued, running, done, in that order; a mission that completes overshoots by less than its crew. */
  predicate Advances(m: Mission, n: Mission) {
    && n.id == m.id && n.crew == m.crew && n.planned == m.planned && m.done <= n.done
    && (match m.state
        case Queued => n.state != Done
        case Running => n.state != Queued
        case Done => n == m)
    && (Active(m) && n.state == Done ==> m.planned <= n.done <= m.planned + |m.crew| - 1)
  }

  ghost predicate Advanced(f: Fleet, n: Mission) {
    exists k :: 0 <= k < |f.missions| && Advances(f.missions[k], n)
  }

  /** Every mission of g is a later stage of one of f or a new one, and no mission of f is lost before it is done. */
  ghost predicate PoolAdvances(f: Fleet, g: Fleet) {
    && (forall n | n in g.missions :: Advanced(f, n) || (n.id > f.missionSeq && n.state == Queued))
    && (forall m | m in f.missions && Active(m) :: exists n :: n in g.missions && Advances(m, n))
  }

  lemma CompletedAdvances(w: World, f: Fleet, dt: real, draws: seq<Draws>, k: nat)
    requires Pooled(f) && Unfinished(f) && |draws| == |f.robots| && k < |f.missions|
    ensures Advances(f.missions[k], Complete(Stepped(w, f, dt, draws).missions[k], f.tick + 1))
  {
    SteppedGains(w, f, dt, draws, k);
    var g := Stepped(w, f, dt, draws);
    assert Evolves(f.missions[k], g.missions[k]) && WellFormed(f.missions[k], f.missionSeq);
    assert !Completes(f.missions[k]);
  }

  lemma {:induction false} SpawnMembers(f: Fleet, picks: seq<Pick>)
    requires ValidCourse(f, picks)
    ensures var g := Spawn(f, picks);
      && g.tick == f.tick && g.missionSeq >= f.missionSeq
      && |g.missions| >= |f.missions| && g.missions[..|f.missions|] == f.missions
      && forall k | |f.missions| <= k < |g.missions| :: g.missions[k].id > f.missionSeq && g.missions[k].state == Queued
    decreases |picks|
  {
    if picks != [] { SpawnMembers(f, picks[..|picks| - 1]); }
  }

  /** After a tick's steps and completions every mission is a later stage of what it was. */
  lemma CompletionAdvances(w: World, f: Fleet, dt: real, draws: seq<Draws>)
    requires Pooled(f) && Unfinished(f) && |draws| == |f.robots|
    ensures var c := CompleteAll(Stepped(w, f, dt, draws));
      && Pooled(c) && Unfinished(c) && c.missionSeq == f.missionSeq && c.tick == f.tick + 1
      && |c.missions| == |f.missions|
      && forall k | 0 <= k < |f.missions| ::
           Advances(f.missions[k], c.missions[k]) && (Active(f.missions[k]) ==> Lingers(c.missions[k], c.tick))
  {
    var c := CompleteAll(Stepped(w, f, dt, draws));
    StepUpToKeeps(w, f.(tick := f.tick + 1), dt, draws, |f.robots|);
    CompleteKeeps(Stepped(w, f, dt, draws));
    forall k | 0 <= k < |f.missions|
      ensures Advances(f.missions[k], c.missions[k]) && (Active(f.missions[k]) ==> Lingers(c.missions[k], c.tick))
    {
      CompletedAdvances(w, f, dt, draws, k);
      SteppedGains(w, f, dt, draws, k);
      assert Evolves(f.missions[k], Stepped(w, f, dt, draws).missions[k]);
    }
  }

  /** The missions after topping up begin with those before it; the rest are new and queued. */
  lemma SpawnedAt(f: Fleet, c: Fleet, g: Fleet, n: Mission)
    requires |c.missions| == |f.missions| && c.missionSeq == f.missionSeq && |g.missions| >= |c.missions|
    requires g.missions[..|c.missions|] == c.missions
    requires forall k | 0 <= k < |f.missions| :: Advances(f.missions[k], c.missions[k])
    requires forall k | |c.missions| <= k < |g.missions| ::
      g.missions[k].id > c.missionSeq && g.missions[k].state == Queued
    requires n in g.missions
    ensures Advanced(f, n) || (n.id > f.missionSeq && n.state == Queued)
  {
    hide Advances;
    var k :| 0 <= k < |g.missions| && g.missions[k] == n;
    if k < |c.missions| {
      assert c.missions[k] == g.missions[..|c.missions|][k] == n;
      assert Advances(f.missions[k], n);
    }
  }

  lemma SpawnKeepsMission(c: Fleet, g: Fleet, k: nat)
    requires |g.missions| >= |c.missions| && g.missions[..|c.missions|] == c.missions && k < |c.missions|
    ensures c.missions[k] in g.missions
  {
    assert g.missions[k] == g.missions[..|c.missions|][k] == c.missions[k];
  }

  lemma UpkeepAdvances(f: Fleet, c: Fleet, picks: seq<Pick>, ns: seq<Mission>)
    requires c.missionSeq == f.missionSeq && |c.missions| == |f.missions| && ValidPicks(c, picks)
    requires forall k | 0 <= k < |f.missions| ::
      Advances(f.missions[k], c.missions[k]) && (Active(f.missions[k]) ==> Lingers(c.missions[k], c.tick))
    requires ns == Prune(Spawn(c, picks).missions, c.tick)
    ensures forall n | n in ns :: Advanced(f, n) || (n.id > f.missionSeq && n.state == Queued)
    ensures forall m | m in f.missions && Active(m) :: exists n :: n in ns && Advances(m, n)
  {
    var g := Spawn(c, picks);
    SpawnMembers(c, picks);
    PruneMembers(g.missions, c.tick);
    hide Spawn, Prune, Advances, Advanced, Lingers;
    forall n | n in ns ensures Advanced(f, n) || (n.id > f.missionSeq && n.state == Queued) {
      SpawnedAt(f, c, g, n);
    }
    forall m | m in f.missions && Active(m) ensures exists n :: n in ns && Advances(m, n) {
      var k :| 0 <= k < |f.missions| && f.missions[k] == m;
      SpawnKeepsMission(c, g, k);
      assert c.missions[k] in ns;
    }
  }

  /** Topping up and pruning leave a pool in order that is not short of missions. */
  lemma UpkeepKeeps(c: Fleet, picks: seq<Pick>)
    requires Pooled(c) && Unfinished(c) && ValidPicks(c, picks)
    ensures var s := Spawn(c, picks); var p := s.(missions := Prune(s.missions, s.tick));
      Pooled(p) && Unfinished(p) && !ShortOfMissions(p) && s.tick == c.tick
  {
    var s := Spawn(c, picks);
    SpawnKeeps(c, picks);
    SpawnMembers(c, picks);
    hide Spawn, Prune, Pooled, Unfinished;
    PruneKeeps(s);
    PruneMembers(s.missions, s.tick);
  }

  lemma PublishKeeps(p: Fleet)
    requires Pooled(p)
    ensures var g := PublishAll(p);
      && Pooled(g) && g.missions == p.missions && g.missionSeq == p.missionSeq
      && FreeCount(g.robots) == FreeCount(p.robots)
  {
    LooserKeeps(p, PublishAll(p).robots);
    FreeCountSame(p.robots, PublishAll(p).robots);
  }

  lemma TickKeeps(w: World, f: Fleet, e: Event)
    requires Pooled(f) && Unfinished(f) && e.Ticked? && Possible(w, f, e)
    ensures var g := After(w, f, e); Pooled(g) && Unfinished(g) && PoolAdvances(f, g) && !ShortOfMissions(g)
  {
    hide Pooled, CompleteAll, Spawn, Prune, Stepped, PublishAll, FreeCount, ValidPicks, Advances;
    var c := CompleteAll(Stepped(w, f, e.dt, e.draws));
    var p := KeptUp(w, f, e.dt, e.draws, e.picks);
    CompletionAdvances(w, f, e.dt, e.draws);
    UpkeepKeeps(c, e.picks);
    UpkeepAdvances(f, c, e.picks, p.missions);
    PublishKeeps(p);
  }

  lemma {:induction false} FreeCountSame(rs: seq<Robot>, ss: seq<Robot>)
    requires |ss| == |rs| && forall i | 0 <= i < |rs| :: ss[i].mission == rs[i].mission
    ensures FreeCount(ss) == FreeCount(rs)
  {
    if rs != [] { FreeCountSame(rs[1..], ss[1..]); }
  }

  // ---- the run -------------------------------------------------------------

  /** The fleet as built: nobody owned, then a first top-up. */
  ghost predicate BuiltFrom(f: Fleet, rs: seq<Robot>, picks: seq<Pick>) {
    && UniqueRobots(rs) && (forall i | 0 <= i < |rs| :: rs[i].mission.None? && rs[i].taskMission.None?)
    && ValidPicks(Fleet(rs, [], 0, 0), picks) && f == Spawn(Fleet(rs, [], 0, 0), picks)
  }

  ghost predicate Initial(f: Fleet) { exists rs, picks :: BuiltFrom(f, rs, picks) }

  /** `fleets` is a run under `events`: it starts as built and each event leads to the next fleet. */
  ghost predicate IsRun(w: World, fleets: seq<Fleet>, events: seq<Event>) {
    && |fleets| == |events| + 1 && Initial(fleets[0])
    && forall n | 0 <= n < |events| ::
         Possible(w, fleets[n], events[n]) && fleets[n + 1] == After(w, fleets[n], events[n])
  }

  /** Exactly one active mission lists the robot as crew. */
  ghost predicate InOneCrew(ms: seq<Mission>, r: Robot) {
    exists k :: 0 <= k < |ms| && Owns(ms[k], r) && forall j | 0 <= j < |ms| && r.mission == Some(ms[j].id) :: j == k
  }

  lemma {:induction false} RunKeepsPool(w: World, fleets: seq<Fleet>, events: seq<Event>, n: nat)
    requires IsRun(w, fleets, events) && n < |fleets|
    ensures Pooled(fleets[n]) && Unfinished(fleets[n])
  {
    if n == 0 {
      var rs, picks :| BuiltFrom(fleets[0], rs, picks);
      SpawnKeeps(Fleet(rs, [], 0, 0), picks);
    } else {
      RunKeepsPool(w, fleets, events, n - 1);
      assert Possible(w, fleets[n - 1], events[n - 1]);
      if events[n - 1].Ticked? {
        TickKeeps(w, fleets[n - 1], events[n - 1]);
      } else {
        QuietEventKeeps(w, fleets[n - 1], events[n - 1]);
      }
    }
  }

  /**
    Over any run of the fleet: at most three missions are active, and right after a tick fewer only when fewer
    than two robots are free; every owned robot is crew of exactly one active mission; between ticks no active
    mission has reached its plan; missions only go queued, running, done, none disappears before it is done,
    and a mission that completes is over its plan by less than the size of its crew.
   */
  lemma MissionPoolHolds(w: World, fleets: seq<Fleet>, events: seq<Event>, n: nat)
    requires IsRun(w, fleets, events) && n < |fleets|
    ensures ActiveCount(fleets[n].missions) <= 3
    ensures forall r | r in fleets[n].robots && r.mission.Some? :: InOneCrew(fleets[n].missions, r)
    ensures forall m | m in fleets[n].missions && Active(m) :: m.done < m.planned
    ensures n > 0 && events[n - 1].Ticked? && ActiveCount(fleets[n].missions) < 3 ==>
      FreeCount(fleets[n].robots) < 2
    ensures n > 0 ==> PoolAdvances(fleets[n - 1], fleets[n])
  {
    RunKeepsPool(w, fleets, events, n);
    var f := fleets[n];
    forall r | r in f.robots && r.mission.Some? ensures InOneCrew(f.missions, r) {
      var i :| 0 <= i < |f.robots| && f.robots[i] == r;
      assert Owned(f.missions, f.robots[i]);
      var k :| 0 <= k < |f.missions| && Owns(f.missions[k], r);
    }
    if n > 0 {
      RunKeepsPool(w, fleets, events, n - 1);
      assert Possible(w, fleets[n - 1], events[n - 1]);
      if events[n - 1].Ticked? {
        TickKeeps(w, fleets[n - 1], events[n - 1]);
      } else {
        QuietEventKeeps(w, fleets[n - 1], events[n - 1]);
        SamePoolAdvances(fleets[n - 1], f);
      }
    }
  }

  lemma SamePoolAdvances(f: Fleet, g: Fleet)
    requires g.missions == f.missions && Unfinished(f)
    ensures PoolAdvances(f, g)
  {
    forall n | n in g.missions ensures Advanced(f, n) {
      var k :| 0 <= k < |f.missions| && f.missions[k] == n;
      assert Advances(f.missions[k], n);
    }
  }
}
