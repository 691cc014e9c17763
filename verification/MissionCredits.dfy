/** What a robot's step does to the missions, exactly, and what a mission's count means over whole runs. */
module MissionCredits {
  import opened Collections
  import opened Options
  import opened RouteTravel
  import opened ActionReports
  import opened RobotState
  import opened MissionPool
  import opened MissionRuns

  // ---- one robot's step ------------------------------------------------------------------------

  predicate Finishes(r: Robot, s: Robot) { s.tasksDone == r.tasksDone + 1 }

  predicate StartsTask(r: Robot, s: Robot) { s.actionSeq == r.actionSeq + 1 }

  predicate Struck(tick: nat, r: Robot, d: Draws) {
    r.fault.None? && (d.fault.Some? || (r.id == "AMR-07" && tick == 20))
  }

  /** The k-th mission is the first of that id. */
  ghost predicate Names(ms: seq<Mission>, id: Option<nat>, k: nat)
    requires k < |ms|
  {
    id == Some(ms[k].id) && forall j | 0 <= j < k :: ms[j].id != ms[k].id
  }

  ghost predicate NamesActive(ms: seq<Mission>, id: Option<nat>) {
    exists k :: 0 <= k < |ms| && Names(ms, id, k) && ms[k].state != Done
  }

  /**
    A mission after the step: one task more exactly if the step finished a task under its tag while it was not done,
    running exactly if it was, or was queued and the step gave its robot a task; nothing else ever changes.
   */
  ghost predicate Accounted(ms: seq<Mission>, r: Robot, s: Robot, ns: seq<Mission>, k: nat)
    requires k < |ms| == |ns|
  {
    var m, n := ms[k], ns[k];
    && n == m.(done := n.done, state := n.state)
    && n.done == (if Finishes(r, s) && Names(ms, r.taskMission, k) && m.state != Done then m.done + 1 else m.done)
    && n.state == if StartsTask(r, s) && Names(ms, r.mission, k) && m.state == Queued then MissionState.Running
                  else m.state
  }

  ghost predicate AllAccounted(ms: seq<Mission>, r: Robot, s: Robot, ns: seq<Mission>) {
    |ns| == |ms| && forall k | 0 <= k < |ms| :: Accounted(ms, r, s, ns, k)
  }

  lemma {:induction false} FindsNamed(ms: seq<Mission>, id: nat)
    ensures var k := FindMission(ms, id);
      (k < |ms| ==> Names(ms, Some(id), k)) && forall j | 0 <= j < |ms| && j != k :: !Names(ms, Some(id), j)
  {
    var k := FindMission(ms, id);
    forall j | 0 <= j < |ms| && j != k ensures !Names(ms, Some(id), j) {
      if j > k { assert ms[k].id == id; }
    }
  }

  lemma TagAccounts(ms: seq<Mission>, r: Robot)
    ensures var (ns, s) := TagTask(ms, r);
      && |ns| == |ms| && s == r.(taskMission := if NamesActive(ms, r.mission) then r.mission else None)
      && forall k | 0 <= k < |ms| ::
           ns[k] == if Names(ms, r.mission, k) && ms[k].state == Queued then ms[k].(state := MissionState.Running)
                    else ms[k]
  {
    if r.mission.Some? { FindsNamed(ms, r.mission.value); }
    hide FindMission;
  }

  lemma CreditAccounts(ms: seq<Mission>, r: Robot)
    ensures var (ns, s) := CreditMission(ms, r);
      && |ns| == |ms| && s == r.(taskMission := None)
      && forall k | 0 <= k < |ms| ::
           ns[k] == if Names(ms, r.taskMission, k) && ms[k].state != Done then ms[k].(done := ms[k].done + 1) else ms[k]
  {
    if r.taskMission.Some? { FindsNamed(ms, r.taskMission.value); }
    hide FindMission;
  }

  /** A robot that is running and was not struck: what it finishes, starts, and is tagged with afterwards. */
  ghost predicate Works(ms: seq<Mission>, r: Robot, dt: real, d: Draws, s: Robot) {
    var low := r.status in {Idle, AtMove, AtWork} && r.battery <= 20.0;
    var starts := r.status == Idle && r.battery > 20.0 && d.task.Some?;
    var ends := r.status == AtWork && r.battery > 20.0 && r.workLeft - dt <= 0.0;
    && s.tasksDone == r.tasksDone + (if ends then 1 else 0)
    && s.actionSeq == r.actionSeq + (if starts then 1 else 0)
    && s.taskMission == if starts then (if NamesActive(ms, r.mission) then r.mission else None)
                        else if low || ends then None else r.taskMission
  }

  lemma RouteKeepsCounts(w: World, r: Robot, target: string, status: Status)
    ensures var s := RouteTo(w, r, target, status);
      && s.tasksDone == r.tasksDone && s.actionSeq == r.actionSeq && s.taskMission == r.taskMission
      && (status == ToCharger ==> s.status in {ToCharger, Charging})
  {
  }

  lemma DivertKeepsCounts(w: World, r: Robot)
    ensures var s := Divert(w, r);
      && s.tasksDone == r.tasksDone && s.actionSeq == r.actionSeq && s.taskMission.None?
      && s.status in {ToCharger, Charging}
  {
    hide RouteTo;
    RouteKeepsCounts(w, StageTerminal(r, Failed), w.nearestCharger(r.motion.node), ToCharger);
  }

  lemma AssignAccounts(w: World, ms: seq<Mission>, r: Robot, d: TaskDraw)
    ensures var (ns, s) := AssignTask(w, ms, r, d);
      && AllAccounted(ms, r, s, ns) && s.tasksDone == r.tasksDone && s.actionSeq == r.actionSeq + 1
      && s.taskMission == if NamesActive(ms, r.mission) then r.mission else None
  {
    var tasked := Tasked(r, d.kind);
    TagAccounts(ms, tasked);
    RouteKeepsCounts(w, TagTask(ms, tasked).1, d.target, AtMove);
    hide RouteTo, TagTask, Names, NamesActive, MintedId;
  }

  lemma WorkAccounts(ms: seq<Mission>, r: Robot, dt: real)
    ensures var (ns, s) := StepWorking(ms, r, dt);
      && AllAccounted(ms, r, s, ns) && s.actionSeq == r.actionSeq
      && s.tasksDone == r.tasksDone + (if r.workLeft - dt <= 0.0 then 1 else 0)
      && s.taskMission == if r.workLeft - dt <= 0.0 then None else r.taskMission
  {
    var worked := r.(battery := MaxReal(r.battery - WORK_DRAIN * dt, 0.0), workLeft := r.workLeft - dt);
    var done := DropTask(StageTerminal(worked, Finished)).(tasksDone := r.tasksDone + 1, status := Idle);
    CreditAccounts(ms, done);
    assert done.taskMission == r.taskMission;
    hide CreditMission, Names, ActionIdOf;
  }

  lemma NothingAccounts(ms: seq<Mission>, r: Robot, s: Robot)
    requires s.tasksDone == r.tasksDone && s.actionSeq == r.actionSeq
    ensures AllAccounted(ms, r, s, ms)
  {
  }

  lemma SameAccounts(ms: seq<Mission>, r: Robot, t: Robot, s: Robot, ns: seq<Mission>)
    requires AllAccounted(ms, t, s, ns) && t.tasksDone == r.tasksDone && t.actionSeq == r.actionSeq
    requires t.taskMission == r.taskMission && t.mission == r.mission
    ensures AllAccounted(ms, r, s, ns)
  {
    forall k | 0 <= k < |ms| ensures Accounted(ms, r, s, ns, k) { assert Accounted(ms, t, s, ns, k); }
  }

  lemma AdvanceKeepsCounts(w: World, r: Robot, dt: real)
    ensures var s := Advance(w, r, dt);
      s.tasksDone == r.tasksDone && s.actionSeq == r.actionSeq && s.taskMission == r.taskMission
  {
    hide Travel;
  }

  lemma RunningAccounts(w: World, ms: seq<Mission>, r: Robot, dt: real, d: Draws)
    requires r.status in {Idle, AtMove, AtWork, ToCharger}
    ensures var (ns, s) := StepRunning(w, ms, r, dt, d); AllAccounted(ms, r, s, ns) && Works(ms, r, dt, d, s)
  {
    hide Divert, AssignTask, StepWorking, Advance, AllAccounted, NamesActive;
    var (ns, s) := StepRunning(w, ms, r, dt, d);
    if r.battery <= LOW_BATTERY_GO_CHARGE && r.status != ToCharger {
      DivertKeepsCounts(w, r);
      AdvanceKeepsCounts(w, Divert(w, r), dt);
      NothingAccounts(ms, r, s);
    } else {
      match r.status
      case Idle =>
        if d.task.Some? {
          AssignAccounts(w, ms, Idled(r, dt), d.task.value);
          SameAccounts(ms, r, Idled(r, dt), s, ns);
        } else {
          NothingAccounts(ms, r, s);
        }
      case AtWork => WorkAccounts(ms, r, dt);
      case _ =>
        AdvanceKeepsCounts(w, r, dt);
        NothingAccounts(ms, r, s);
    }
  }

  /**
    A robot's step in a tick, over every robot and every mission: it credits a mission if and only if it finishes a
    task under the tag of that mission while the mission is not done, it sets a queued mission running if and only if
    it gives a robot of the mission a task, and it finishes and starts tasks exactly when the robot, not struck by a
    fault, has worked its 12 seconds down or is drawn a task while idle, with battery above 20.
   */
  lemma StepAccounts(w: World, ms: seq<Mission>, tick: nat, r: Robot, dt: real, d: Draws)
    ensures var (ns, s) := StepRobot(w, ms, tick, r, dt, d);
      && AllAccounted(ms, r, s, ns)
      && if r.status in {Idle, AtMove, AtWork, ToCharger} && !Struck(tick, r, d) then Works(ms, r, dt, d, s)
         else s.tasksDone == r.tasksDone && s.actionSeq == r.actionSeq && s.taskMission == r.taskMission
  {
    hide StepRunning, Works, AllAccounted;
    var t := MaybeFault(r, tick, d.fault);
    var (ns, s) := StepRobot(w, ms, tick, r, dt, d);
    if t.status in {Idle, AtMove, AtWork, ToCharger} {
      RunningAccounts(w, ms, r, dt, d);
    } else {
      NothingAccounts(ms, r, s);
    }
  }

  // ---- runs of the fleet --------------------------------------------------------------------------

  /** In its turn of the tick the i-th robot finishes a task under the tag of the mission, which is still active. */
  ghost predicate Earns(w: World, f: Fleet, dt: real, draws: seq<Draws>, i: nat, id: nat)
    requires |draws| == |f.robots| && i < |f.robots|
  {
    var g := StepUpTo(w, f, dt, draws, i);
    var r := g.robots[i];
    && r.taskMission == Some(id) && Finishes(r, StepRobot(w, g.missions, g.tick, r, dt, draws[i]).1)
    && IsActive(g.missions, id)
  }

  ghost predicate IsActive(ms: seq<Mission>, id: nat) {
    exists k :: 0 <= k < |ms| && ms[k].id == id && Active(ms[k])
  }

  /** How many of the first k robots do. */
  ghost function Earned(w: World, f: Fleet, dt: real, draws: seq<Draws>, k: nat, id: nat): nat
    requires |draws| == |f.robots| && k <= |f.robots|
  {
    if k == 0 then 0 else Earned(w, f, dt, draws, k - 1, id) + if Earns(w, f, dt, draws, k - 1, id) then 1 else 0
  }

  lemma OneMoreTask(ms: seq<Mission>, r: Robot, s: Robot, ns: seq<Mission>, j: nat)
    requires UniqueMissions(ms) && AllAccounted(ms, r, s, ns) && j < |ms|
    ensures ns[j].id == ms[j].id
    ensures ns[j].done == ms[j].done +
      if r.taskMission == Some(ms[j].id) && Finishes(r, s) && IsActive(ms, ms[j].id) then 1 else 0
  {
    assert Accounted(ms, r, s, ns, j);
    assert r.taskMission == Some(ms[j].id) ==> Names(ms, r.taskMission, j);
    assert Active(ms[j]) <==> IsActive(ms, ms[j].id);
  }

  lemma {:induction false} MissionsEarn(w: World, f: Fleet, dt: real, draws: seq<Draws>, k: nat, j: nat)
    requires Pooled(f) && |draws| == |f.robots| && k <= |f.robots| && j < |f.missions|
    ensures var g := StepUpTo(w, f, dt, draws, k);
      g.missions[j].id == f.missions[j].id
      && g.missions[j].done == f.missions[j].done + Earned(w, f, dt, draws, k, f.missions[j].id)
    decreases k
  {
    hide StepRobot, AllAccounted, IsActive, Works, Struck, AllEvolve, Bounded;
    if k > 0 {
      MissionsEarn(w, f, dt, draws, k - 1, j);
      StepUpToKeeps(w, f, dt, draws, k - 1);
      var g := StepUpTo(w, f, dt, draws, k - 1);
      assert UniqueMissions(g.missions);
      hide Pooled, UniqueMissions;
      var r := g.robots[k - 1];
      var (ns, s) := StepRobot(w, g.missions, g.tick, r, dt, draws[k - 1]);
      StepAccounts(w, g.missions, g.tick, r, dt, draws[k - 1]);
      OneMoreTask(g.missions, r, s, ns, j);
    }
  }

  lemma NotThereYet(f: Fleet, id: nat)
    requires Pooled(f) && id > f.missionSeq
    ensures !IsActive(f.missions, id)
  {
    forall i | 0 <= i < |f.missions| ensures f.missions[i].id != id {
      assert WellFormed(f.missions[i], f.missionSeq);
    }
  }

  /** Nothing is earned for a mission that is not there yet. */
  lemma {:induction false} NothingEarnedYet(w: World, f: Fleet, dt: real, draws: seq<Draws>, k: nat, id: nat)
    requires Pooled(f) && |draws| == |f.robots| && k <= |f.robots| && id > f.missionSeq
    ensures Earned(w, f, dt, draws, k, id) == 0
    decreases k
  {
    hide Pooled, StepRobot, AllEvolve, Bounded, IsActive;
    if k > 0 {
      NothingEarnedYet(w, f, dt, draws, k - 1, id);
      StepUpToKeeps(w, f, dt, draws, k - 1);
      NotThereYet(StepUpTo(w, f, dt, draws, k - 1), id);
    }
  }

  /** The tasks earned for the mission in the first n events of a run. */
  ghost function EarnedInRun(w: World, fleets: seq<Fleet>, events: seq<Event>, n: nat, id: nat): nat
    requires IsRun(w, fleets, events) && n < |fleets|
  {
    if n == 0 then 0
    else
      var f, e := fleets[n - 1], events[n - 1];
      assert Possible(w, f, e);
      EarnedInRun(w, fleets, events, n - 1, id)
      + if e.Ticked? then Earned(w, f.(tick := f.tick + 1), e.dt, e.draws, |f.robots|, id) else 0
  }

  /** A mission at the end of a tick is one from before with what it earned, or a new one without a task. */
  ghost predicate FromBefore(w: World, f: Fleet, e: Event, m: Mission)
    requires e.Ticked? && |e.draws| == |f.robots|
  {
    || (exists j :: 0 <= j < |f.missions| && f.missions[j].id == m.id
                    && m.done == f.missions[j].done
                                 + Earned(w, f.(tick := f.tick + 1), e.dt, e.draws, |f.robots|, m.id))
    || (m.id > f.missionSeq && m.done == 0)
  }

  lemma SteppedEarn(w: World, f: Fleet, e: Event, k: nat)
    requires Pooled(f) && e.Ticked? && |e.draws| == |f.robots| && k < |f.missions|
    ensures var c := CompleteAll(Stepped(w, f, e.dt, e.draws));
      |c.missions| == |f.missions| && FromBefore(w, f, e, c.missions[k])
  {
    var f1 := f.(tick := f.tick + 1);
    assert Pooled(f1);
    MissionsEarn(w, f1, e.dt, e.draws, |f.robots|, k);
    hide Pooled, StepUpTo, Earned;
    assert f.missions[k].id == f1.missions[k].id;
  }

  lemma NewHasNone(c: Fleet, t: Fleet, k: nat)
    requires Pooled(t) && |c.missions| <= k < |t.missions|
    requires t.missions[k].id > c.missionSeq && t.missions[k].state == Queued
    ensures t.missions[k].done == 0
  {
    assert WellFormed(t.missions[k], t.missionSeq);
  }

  lemma TickEarns(w: World, f: Fleet, e: Event)
    requires Pooled(f) && Unfinished(f) && e.Ticked? && Possible(w, f, e)
    ensures forall m | m in After(w, f, e).missions :: FromBefore(w, f, e, m)
    ensures After(w, f, e).missionSeq >= f.missionSeq
  {
    hide Pooled, Stepped, CompleteAll, Advances, Earned, Unfinished;
    var c := CompleteAll(Stepped(w, f, e.dt, e.draws));
    CompletionAdvances(w, f, e.dt, e.draws);
    SpawnKeeps(c, e.picks);
    SpawnMembers(c, e.picks);
    var t := Spawn(c, e.picks);
    PruneMembers(t.missions, t.tick);
    hide Spawn, Prune;
    forall m | m in After(w, f, e).missions ensures FromBefore(w, f, e, m) {
      assert m in t.missions;
      var k :| 0 <= k < |t.missions| && t.missions[k] == m;
      if k < |f.missions| {
        assert t.missions[k] == t.missions[..|c.missions|][k] == c.missions[k];
        SteppedEarn(w, f, e, k);
      } else {
        NewHasNone(c, t, k);
      }
    }
  }

  ghost predicate Counted(w: World, fleets: seq<Fleet>, events: seq<Event>, n: nat)
    requires IsRun(w, fleets, events) && n < |fleets|
  {
    && (forall m | m in fleets[n].missions :: m.done == EarnedInRun(w, fleets, events, n, m.id))
    && forall id: nat | id > fleets[n].missionSeq :: EarnedInRun(w, fleets, events, n, id) == 0
  }

  lemma StartsUncounted(w: World, fleets: seq<Fleet>, events: seq<Event>)
    requires IsRun(w, fleets, events)
    ensures Counted(w, fleets, events, 0)
  {
    var rs, picks :| BuiltFrom(fleets[0], rs, picks);
    var none := Fleet(rs, [], 0, 0);
    SpawnMembers(none, picks);
    SpawnKeeps(none, picks);
    forall m | m in fleets[0].missions ensures m.done == 0 {
      var k :| 0 <= k < |fleets[0].missions| && fleets[0].missions[k] == m;
      assert WellFormed(fleets[0].missions[k], fleets[0].missionSeq);
    }
  }

  lemma RunStep(w: World, fleets: seq<Fleet>, events: seq<Event>, n: nat)
    requires IsRun(w, fleets, events) && 0 < n < |fleets|
    ensures |fleets| == |events| + 1 && Possible(w, fleets[n - 1], events[n - 1])
    ensures fleets[n] == After(w, fleets[n - 1], events[n - 1])
  {
    var m := n - 1;
    assert Possible(w, fleets[m], events[m]) && fleets[m + 1] == After(w, fleets[m], events[m]);
  }

  lemma EarnedSnoc(w: World, fleets: seq<Fleet>, events: seq<Event>, n: nat, id: nat)
    requires IsRun(w, fleets, events) && 0 < n < |fleets|
    ensures |fleets| == |events| + 1 && Possible(w, fleets[n - 1], events[n - 1])
    ensures var f, e := fleets[n - 1], events[n - 1];
      EarnedInRun(w, fleets, events, n, id) == EarnedInRun(w, fleets, events, n - 1, id)
        + if e.Ticked? then Earned(w, f.(tick := f.tick + 1), e.dt, e.draws, |f.robots|, id) else 0
  {
    RunStep(w, fleets, events, n);
    hide IsRun, Earned, After;
  }

  lemma WasCounted(w: World, fleets: seq<Fleet>, events: seq<Event>, n: nat, j: nat)
    requires IsRun(w, fleets, events) && n < |fleets| && Counted(w, fleets, events, n) && j < |fleets[n].missions|
    ensures var m := fleets[n].missions[j]; m.done == EarnedInRun(w, fleets, events, n, m.id)
  {
    assert fleets[n].missions[j] in fleets[n].missions;
    hide EarnedInRun, IsRun;
  }

  lemma WasUncounted(w: World, fleets: seq<Fleet>, events: seq<Event>, n: nat, id: nat)
    requires IsRun(w, fleets, events) && n < |fleets| && Counted(w, fleets, events, n) && id > fleets[n].missionSeq
    ensures EarnedInRun(w, fleets, events, n, id) == 0
  {
    hide EarnedInRun, IsRun;
  }

  lemma MissionCounts(w: World, fleets: seq<Fleet>, events: seq<Event>, n: nat, m: Mission)
    requires IsRun(w, fleets, events) && 0 < n < |fleets| && events[n - 1].Ticked?
    requires Pooled(fleets[n - 1]) && Counted(w, fleets, events, n - 1)
    requires var f, e := fleets[n - 1], events[n - 1]; |e.draws| == |f.robots| && FromBefore(w, f, e, m)
    ensures m.done == EarnedInRun(w, fleets, events, n, m.id)
  {
    hide Pooled, Earned, IsRun, EarnedInRun, Counted, Possible, After;
    RunStep(w, fleets, events, n);
    var f, e := fleets[n - 1], events[n - 1];
    var f1 := f.(tick := f.tick + 1);
    AnotherTick(f);
    EarnedSnoc(w, fleets, events, n, m.id);
    if m.id > f.missionSeq && m.done == 0 {
      NothingEarnedYet(w, f1, e.dt, e.draws, |f.robots|, m.id);
      WasUncounted(w, fleets, events, n - 1, m.id);
    } else {
      var j :| 0 <= j < |f.missions| && f.missions[j].id == m.id
               && m.done == f.missions[j].done + Earned(w, f1, e.dt, e.draws, |f.robots|, m.id);
      WasCounted(w, fleets, events, n - 1, j);
    }
  }

  lemma AnotherTick(f: Fleet)
    requires Pooled(f)
    ensures Pooled(f.(tick := f.tick + 1))
  {
  }

  lemma TickCounts(w: World, fleets: seq<Fleet>, events: seq<Event>, n: nat)
    requires IsRun(w, fleets, events) && 0 < n < |fleets| && events[n - 1].Ticked?
    requires Pooled(fleets[n - 1]) && Unfinished(fleets[n - 1]) && Counted(w, fleets, events, n - 1)
    ensures Counted(w, fleets, events, n)
  {
    hide After, Pooled, Earned, IsRun, EarnedInRun, Unfinished, FromBefore, StepUpTo, Stepped, Spawn, CompleteAll;
    RunStep(w, fleets, events, n);
    var f, e := fleets[n - 1], events[n - 1];
    var f1 := f.(tick := f.tick + 1);
    AnotherTick(f);
    TickEarns(w, f, e);
    forall id: nat | id > fleets[n].missionSeq
      ensures EarnedInRun(w, fleets, events, n, id) == 0
    {
      EarnedSnoc(w, fleets, events, n, id);
      NothingEarnedYet(w, f1, e.dt, e.draws, |f.robots|, id);
      WasUncounted(w, fleets, events, n - 1, id);
    }
    forall m | m in fleets[n].missions ensures m.done == EarnedInRun(w, fleets, events, n, m.id) {
      MissionCounts(w, fleets, events, n, m);
    }
  }

  lemma QuietCounts(w: World, fleets: seq<Fleet>, events: seq<Event>, n: nat)
    requires IsRun(w, fleets, events) && 0 < n < |fleets| && !events[n - 1].Ticked?
    requires Pooled(fleets[n - 1]) && Unfinished(fleets[n - 1]) && Counted(w, fleets, events, n - 1)
    ensures Counted(w, fleets, events, n)
  {
    RunStep(w, fleets, events, n);
    QuietEventKeeps(w, fleets[n - 1], events[n - 1]);
    hide After, Pooled, Unfinished, Earned, IsRun, EarnedInRun, Possible;
    forall id: nat ensures EarnedInRun(w, fleets, events, n, id) == EarnedInRun(w, fleets, events, n - 1, id) {
      EarnedSnoc(w, fleets, events, n, id);
    }
  }

  /**
    Over every run of the fleet, and at every point of it, the count of a mission is the number of tasks that robots
    finished under its tag while it was active.
   */
  lemma {:induction false} CountIsTasksFinished(w: World, fleets: seq<Fleet>, events: seq<Event>, n: nat)
    requires IsRun(w, fleets, events) && n < |fleets|
    ensures Counted(w, fleets, events, n)
    decreases n
  {
    hide Counted, Pooled, Unfinished, IsRun;
    if n == 0 {
      StartsUncounted(w, fleets, events);
    } else {
      RunStep(w, fleets, events, n);
      CountIsTasksFinished(w, fleets, events, n - 1);
      RunKeepsPool(w, fleets, events, n - 1);
      if events[n - 1].Ticked? {
        TickCounts(w, fleets, events, n);
      } else {
        QuietCounts(w, fleets, events, n);
      }
    }
  }

  // ---- completing, pruning, topping up --------------------------------------------------------------

  /** Exactly the missions that have reached their plan are done at this tick, and exactly their robots are free. */
  lemma Completion(f: Fleet, i: nat, k: nat)
    requires i < |f.robots| && k < |f.missions|
    ensures var g := CompleteAll(f);
      && |g.missions| == |f.missions| && |g.robots| == |f.robots|
      && g.missions[k] == (if f.missions[k].state != Done && f.missions[k].done >= f.missions[k].planned
                           then f.missions[k].(state := Done, completedTick := Some(f.tick)) else f.missions[k])
      && g.robots[i] == f.robots[i].(mission := g.robots[i].mission)
      && (g.robots[i].mission != f.robots[i].mission <==>
            exists j :: 0 <= j < |f.missions| && f.robots[i].mission == Some(f.missions[j].id)
                        && f.missions[j].state != Done && f.missions[j].done >= f.missions[j].planned)
      && g.robots[i].mission in {f.robots[i].mission, None}
  {
    if FreedBy(f.missions, f.robots[i].mission) {
      var j :| 0 <= j < |f.missions| && Completes(f.missions[j]) && f.missions[j].id == f.robots[i].mission.value;
      assert f.missions[j].done >= f.missions[j].planned;
    }
  }

  /** Pruning keeps, in order, exactly the missions that are not done or were completed at most 6 ticks ago. */
  lemma {:induction false} Pruning(ms: seq<Mission>, tick: nat) returns (at: seq<nat>)
    ensures Picks(ms, at, Prune(ms, tick))
    ensures forall k | 0 <= k < |ms| :: k in at <==>
      ms[k].state != Done || tick - (if ms[k].completedTick.Some? then ms[k].completedTick.value else 0) <= 6
  {
    if ms == [] {
      at := [];
    } else {
      var rest := Pruning(ms[1..], tick);
      var moved := seq(|rest|, j requires 0 <= j < |rest| => rest[j] + 1);
      at := (if Lingers(ms[0], tick) then [0] else []) + moved;
      LaterBy(ms[0], ms[1..], rest, moved, Prune(ms[1..], tick), Lingers(ms[0], tick));
      assert ms == [ms[0]] + ms[1..];
      LaterMembers(rest, moved, at, Lingers(ms[0], tick));
      forall k | 0 < k < |ms| ensures k in at <==> Lingers(ms[k], tick) { assert ms[1..][k - 1] == ms[k]; }
    }
  }

  /** A new mission takes 2 to 4 free robots and nobody else, for 10 to 20 tasks. */
  lemma Spawning(f: Fleet, p: Pick, i: nat)
    requires ValidPick(f, p) && i < |f.robots|
    ensures var g, n := SpawnOne(f, p), |f.missions|;
      && |g.missions| == n + 1 && g.missions[..n] == f.missions && |g.robots| == |f.robots|
      && var m := g.missions[n];
      && m.id == f.missionSeq + 1 == g.missionSeq && m.done == 0 && m.state == Queued
      && 2 <= |m.crew| <= 4 && 10 <= m.planned <= 20
      && (forall c | 0 <= c < |m.crew| :: m.crew[c] == f.robots[p.crew[c]].id && f.robots[p.crew[c]].mission.None?)
      && g.robots[i] == f.robots[i].(mission := if i in p.crew then Some(m.id) else f.robots[i].mission)
  {
  }
}
