/** Runs of one robot with their whole evidence: what was minted, what was staged, what every message said. */
module ActionHistory {
  import opened Options
  import opened RouteTravel
  import opened ActionReports
  import opened RobotState
  import opened ActionLifecycle

  /**
    `minted` are the ids made up so far, `staged` every terminal report so far, `batches` those reports cut
    where a state message went out (`current` is still growing), `messages` the action states of each message
    and `snapshots` the part of each that the robot was busy with at that moment.
   */
  datatype History = History(
    robot: Robot,
    minted: seq<string>,
    staged: seq<ActionState>,
    batches: seq<seq<ActionState>>,
    current: seq<ActionState>,
    snapshots: seq<seq<ActionState>>,
    messages: seq<seq<ActionState>>)

  predicate Fresh(r: Robot) {
    r.status == Idle && r.task.None? && r.actionId.None? && r.actionSeq == 0 && r.tasksDone == 0 && r.pending == []
  }

  function Start(r: Robot): History { History(r, [], [], [], [], [], []) }

  function NewReports(r: Robot, s: Robot): seq<ActionState> {
    if |s.pending| > |r.pending| then Entries(s.pending[|r.pending|..]) else []
  }

  function RecordMessage(h: History): History {
    h.(robot := Publish(h.robot).0,
       batches := h.batches + [h.current],
       current := [],
       snapshots := h.snapshots + [Snapshot(h.robot)],
       messages := h.messages + [Publish(h.robot).1])
  }

  function RecordEvent(h: History, s: Robot): History {
    var more := NewReports(h.robot, s);
    h.(robot := s,
       minted := if s.actionSeq > h.robot.actionSeq then h.minted + [MintedId(s.serial, s.actionSeq)] else h.minted,
       staged := h.staged + more,
       current := h.current + more)
  }

  function Record(w: World, h: History, op: Op): History {
    if op.Report? then RecordMessage(h) else RecordEvent(h, Apply(w, h.robot, op))
  }

  function Run(w: World, r: Robot, ops: seq<Op>): History {
    if ops == [] then Start(r) else Record(w, Run(w, r, ops[..|ops| - 1]), ops[|ops| - 1])
  }

  function Batch<T>(batches: seq<seq<T>>, i: int): seq<T> {
    if 0 <= i < |batches| then batches[i] else []
  }

  /** The entries that message n is due to carry. */
  function Due<T>(batches: seq<seq<T>>, n: int): seq<T> {
    Batch(batches, n - 2) + Batch(batches, n - 1) + Batch(batches, n)
  }

  function CountFinished(s: seq<ActionState>): nat {
    if s == [] then 0 else CountFinished(s[..|s| - 1]) + (if s[|s| - 1].status == Finished then 1 else 0)
  }

  // ---- what holds at every point of every run -----------------------------

  ghost predicate Reports(staged: seq<ActionState>, id: string) {
    exists i :: 0 <= i < |staged| && staged[i].id == id
  }

  /** A minted id gets at most one terminal report. */
  ghost predicate ReportedOnce(serial: string, staged: seq<ActionState>) {
    forall i, j | 0 <= i < j < |staged| && IsMinted(serial, staged[i].id) :: staged[i].id != staged[j].id
  }

  /** Action identity only moves forward. */
  ghost predicate Forward(r: Robot, staged: seq<ActionState>) {
    && Consistent(r)
    && (forall i | 0 <= i < |staged| :: Terminal(staged[i]) && NotAhead(r.serial, staged[i].id, r.actionSeq))
    && ReportedOnce(r.serial, staged)
    && (r.task.Some? && IsMinted(r.serial, ActionIdOf(r)) ==> !Reports(staged, ActionIdOf(r)))
    && CountFinished(staged) == r.tasksDone
  }

  ghost predicate MintedInOrder(h: History) {
    && |h.minted| == h.robot.actionSeq
    && forall i | 0 <= i < |h.minted| :: h.minted[i] == MintedId(h.robot.serial, i + 1)
  }

  /** Staged evidence is a window over the last two closed batches and the growing one. */
  ghost predicate Windowed(h: History) {
    && |h.messages| == |h.snapshots| == |h.batches|
    && h.robot.pending == Window(Batch(h.batches, |h.batches| - 2), Batch(h.batches, |h.batches| - 1), h.current)
  }

  lemma CountFinishedSnoc(s: seq<ActionState>, e: ActionState)
    ensures CountFinished(s + [e]) == CountFinished(s) + (if e.status == Finished then 1 else 0)
  {
    assert (s + [e])[..|s|] == s;
  }

  lemma NewReportsAre(r: Robot, s: Robot)
    ensures Kept(r, s) || Dropped(r, s) ==> NewReports(r, s) == []
    ensures forall st | Closed(r, s, st) :: NewReports(r, s) == [ActionState(ActionIdOf(r), r.task.value, st)]
  {
  }

  lemma NotAheadWidens(r: Robot, s: Robot, staged: seq<ActionState>)
    requires Follows(r, s)
    requires forall i | 0 <= i < |staged| :: NotAhead(r.serial, staged[i].id, r.actionSeq)
    ensures forall i | 0 <= i < |staged| :: NotAhead(s.serial, staged[i].id, s.actionSeq)
    ensures s.task.Some? && InFlight(s) != InFlight(r) && IsMinted(s.serial, ActionIdOf(s)) ==>
      !Reports(staged, ActionIdOf(s))
  {
    forall i | 0 <= i < |staged| ensures NotAhead(s.serial, staged[i].id, s.actionSeq) {
      assert NotAhead(r.serial, staged[i].id, r.actionSeq);
    }
  }

  lemma ForwardQuiet(r: Robot, s: Robot, staged: seq<ActionState>)
    requires Forward(r, staged) && Follows(r, s) && (Kept(r, s) || Dropped(r, s))
    ensures Forward(s, staged)
  {
    NotAheadWidens(r, s, staged);
  }

  /** One event of the robot's life: it hides at most the known overwrite. */
  ghost predicate Event(r: Robot, s: Robot) {
    Moves(r, s) && (Reported(r, s) || Dropped(r, s))
  }

  // ---- ids that orders bring along ----------------------------------------

  /** The id is none the vehicle has yet to mint, nor one it minted and has already reported terminal. */
  ghost predicate Unclaimed(r: Robot, staged: seq<ActionState>, id: string) {
    NotAhead(r.serial, id, r.actionSeq) && (IsMinted(r.serial, id) ==> !Reports(staged, id))
  }

  /** If the event is an accepted order that names its action, it does so by an unclaimed id. */
  ghost predicate Harmless(w: World, r: Robot, staged: seq<ActionState>, op: Op) {
    op.OrderIn? && Judge(w, r, op.order) == Accepted && NamesAction(op.order) ==>
      Unclaimed(r, staged, FirstAction(op.order.actions).value.id)
  }

  lemma ForeignIsHarmless(w: World, r: Robot, staged: seq<ActionState>, op: Op)
    requires Foreign(r.serial, op)
    ensures Harmless(w, r, staged, op)
  {
    if op.OrderIn? && NamesAction(op.order) {
      var id := FirstAction(op.order.actions).value.id;
      assert forall n: nat :: id != MintedId(r.serial, n);
    }
  }

  /** What was staged before and the report an event adds say at most once about a minted id. */
  lemma ClosedOnce(r: Robot, staged: seq<ActionState>, e: ActionState)
    requires Forward(r, staged) && r.task.Some? && e.id == ActionIdOf(r) && Terminal(e)
    ensures ReportedOnce(r.serial, staged + [e])
    ensures forall i | 0 <= i < |staged + [e]| ::
      Terminal((staged + [e])[i]) && NotAhead(r.serial, (staged + [e])[i].id, r.actionSeq)
    ensures forall id :: Reports(staged + [e], id) <==> Reports(staged, id) || id == e.id
  {
    var more := staged + [e];
    assert NotAhead(r.serial, e.id, r.actionSeq);
    assert forall i | 0 <= i < |staged| :: more[i] == staged[i];
    assert more[|staged|] == e;
    forall i | 0 <= i < |staged| && IsMinted(r.serial, staged[i].id) ensures staged[i].id != e.id {
      if staged[i].id == e.id { assert Reports(staged, e.id); }
    }
    forall id ensures Reports(more, id) <==> Reports(staged, id) || id == e.id {
      if Reports(staged, id) {
        var i :| 0 <= i < |staged| && staged[i].id == id;
        assert more[i].id == id;
      }
    }
  }

  lemma ForwardClosed(r: Robot, s: Robot, staged: seq<ActionState>, st: ActionStatus)
    requires Forward(r, staged) && Follows(r, s) && Closed(r, s, st) && st != ActionStatus.Running
    ensures Forward(s, staged + [ActionState(ActionIdOf(r), r.task.value, st)])
  {
    var e := ActionState(ActionIdOf(r), r.task.value, st);
    ClosedOnce(r, staged, e);
    CountFinishedSnoc(staged, e);
    NotAheadWidens(r, s, staged + [e]);
  }

  /** The order's own id in flight: identity moves forward exactly if that id is unclaimed. */
  lemma ForwardNamed(r: Robot, s: Robot, staged: seq<ActionState>, id: string)
    requires Forward(r, staged) && Event(r, s) && Reported(r, s)
    requires s.actionSeq == r.actionSeq && InFlight(s) == Some(id)
    ensures Forward(s, staged + NewReports(r, s)) <==> Unclaimed(r, staged, id)
  {
    NewReportsAre(r, s);
    assert s.actionId == Some(id) && ActionIdOf(s) == id;
    if Kept(r, s) {
      assert staged + [] == staged;
    } else {
      var e := ActionState(ActionIdOf(r), r.task.value, if Closed(r, s, Finished) then Finished else Failed);
      ClosedOnce(r, staged, e);
      CountFinishedSnoc(staged, e);
      assert e.id != id;
    }
  }

  lemma ForwardEvent(h: History, s: Robot)
    requires Forward(h.robot, h.staged) && Event(h.robot, s) && Follows(h.robot, s)
    ensures Forward(s, RecordEvent(h, s).staged)
  {
    var r := h.robot;
    NewReportsAre(r, s);
    assert h.staged + [] == h.staged;
    if Kept(r, s) || Dropped(r, s) {
      ForwardQuiet(r, s, h.staged);
    } else {
      ForwardClosed(r, s, h.staged, if Closed(r, s, Finished) then Finished else Failed);
    }
  }

  lemma WindowEvent(h: History, s: Robot)
    requires Windowed(h) && Event(h.robot, s)
    ensures Windowed(RecordEvent(h, s))
  {
    NewReportsAre(h.robot, s);
    var n, more := |h.batches|, NewReports(h.robot, s);
    assert s.pending == h.robot.pending + Stage(more, REPEATS);
    hide Stage, Window, Event, NewReports, Batch;
    WindowGrows(Batch(h.batches, n - 2), Batch(h.batches, n - 1), h.current, more);
  }

  lemma CutBatches<T>(batches: seq<seq<T>>, current: seq<T>)
    ensures var cut, n := batches + [current], |batches|;
      && Batch(cut, n) == current
      && Batch(cut, n - 1) == Batch(batches, n - 1)
      && Batch(cut, n - 2) == Batch(batches, n - 2)
    ensures forall m | 0 <= m < |batches| :: Due(batches + [current], m) == Due(batches, m)
  {
  }

  lemma PublishIsMerge(r: Robot)
    ensures Publish(r).1 == Merge(Snapshot(r) + Entries(r.pending))
  {
    if r.pending == [] { SnapshotMerged(r); }
  }

  lemma WindowMessage(h: History)
    requires Windowed(h)
    ensures Windowed(RecordMessage(h))
    ensures Publish(h.robot).1 == Merge(Snapshot(h.robot) + Due(h.batches + [h.current], |h.batches|))
  {
    var n := |h.batches|;
    PublishIsMerge(h.robot);
    WindowAges(Batch(h.batches, n - 2), Batch(h.batches, n - 1), h.current);
    CutBatches(h.batches, h.current);
  }

  lemma SnapshotMerged(r: Robot)
    requires r.pending == []
    ensures Merge(Snapshot(r) + Entries(r.pending)) == Snapshot(r)
  {
    var s := Snapshot(r);
    assert s + Entries(r.pending) == s;
    if s != [] {
      assert s[..0] == [] && Merge(s[..0]) == [];
    }
  }

  // ---- the messages -------------------------------------------------------

  predicate Carries(message: seq<ActionState>, snapshot: seq<ActionState>, due: seq<ActionState>) {
    message == Merge(snapshot + due)
  }

  /** Message n says what the robot was busy with, then the three latest batches in staging order. */
  ghost predicate RidesThree(h: History) {
    && |h.messages| == |h.snapshots| == |h.batches|
    && forall n | 0 <= n < |h.messages| :: Carries(h.messages[n], h.snapshots[n], Due(h.batches, n))
  }

  ghost predicate Said(messages: seq<seq<ActionState>>, i: int, e: ActionState) {
    0 <= i < |messages| && e in messages[i]
  }

  /** Once a minted action was reported terminal, every later word about it is that same report. */
  ghost predicate OnlyAdvances(serial: string, messages: seq<seq<ActionState>>) {
    forall i, j, e, f | Said(messages, i, e) && Said(messages, j, f) && i <= j ::
      e.id == f.id && IsMinted(serial, e.id) && Terminal(e) ==> f == e
  }

  /** Everything terminal that was said, or is still to be said, is on the record. */
  ghost predicate OnRecord(h: History) {
    && (forall p | p in h.robot.pending :: p.entry in h.staged)
    && (forall i, e | Said(h.messages, i, e) && Terminal(e) :: e in h.staged)
  }

  lemma {:induction false} AgeKeepsEntries<T>(p: seq<Staged<T>>)
    ensures forall q | q in Age(p) :: exists r :: r in p && r.entry == q.entry
  {
    if p != [] {
      AgeKeepsEntries(p[1..]);
      forall q | q in Age(p) ensures exists r :: r in p && r.entry == q.entry {
        if q in Age(p[1..]) {
          var r :| r in p[1..] && r.entry == q.entry;
          assert r in p;
        } else {
          assert p[0] in p && p[0].entry == q.entry;
        }
      }
    }
  }

  /** One message says only what is in flight (running) and what is staged. */
  lemma MessageSays(r: Robot, e: ActionState)
    requires e in Publish(r).1
    ensures e in Snapshot(r) || exists p :: p in r.pending && p.entry == e
  {
    if r.pending != [] {
      var all := Snapshot(r) + Entries(r.pending);
      MergeIsLastWord(all);
      var i :| 0 <= i < |all| && all[i] == e;
      if i >= |Snapshot(r)| { assert r.pending[i - |Snapshot(r)|].entry == e; }
    }
  }

  lemma OnRecordEvent(h: History, s: Robot)
    requires OnRecord(h) && Event(h.robot, s)
    ensures OnRecord(RecordEvent(h, s))
  {
    NewReportsAre(h.robot, s);
  }

  lemma OnRecordMessage(h: History)
    requires OnRecord(h)
    ensures OnRecord(RecordMessage(h))
  {
    var k := RecordMessage(h);
    AgeKeepsEntries(h.robot.pending);
    forall i, e | Said(k.messages, i, e) && Terminal(e) ensures e in k.staged {
      if i < |h.messages| { assert Said(h.messages, i, e); } else { MessageSays(h.robot, e); }
    }
  }

  lemma OnlyAdvancesMessage(h: History)
    requires Forward(h.robot, h.staged) && OnRecord(h) && OnlyAdvances(h.robot.serial, h.messages)
    ensures OnlyAdvances(h.robot.serial, RecordMessage(h).messages)
  {
    var r, k := h.robot, RecordMessage(h);
    OnRecordMessage(h);
    forall i, j, e, f | Said(k.messages, i, e) && Said(k.messages, j, f) && i <= j
      ensures e.id == f.id && IsMinted(r.serial, e.id) && Terminal(e) ==> f == e
    {
      if j < |h.messages| {
        assert Said(h.messages, i, e) && Said(h.messages, j, f);
      } else if e.id == f.id && IsMinted(r.serial, e.id) && Terminal(e) {
        var m :| 0 <= m < |h.staged| && h.staged[m] == e;
        assert Reports(h.staged, e.id);
        MessageSays(r, f);
        assert Terminal(f);
        var n :| 0 <= n < |h.staged| && h.staged[n] == f;
      }
    }
  }

  // ---- the run ------------------------------------------------------------

  ghost predicate Sound(h: History) {
    && Forward(h.robot, h.staged) && MintedInOrder(h) && Windowed(h) && RidesThree(h)
    && OnRecord(h) && OnlyAdvances(h.robot.serial, h.messages)
  }

  lemma MessageCarries(h: History)
    requires Windowed(h)
    ensures Carries(Publish(h.robot).1, Snapshot(h.robot), Due(h.batches + [h.current], |h.batches|))
  {
    WindowMessage(h);
  }

  lemma RidesThreeMessage(h: History)
    requires Windowed(h) && RidesThree(h)
    ensures RidesThree(RecordMessage(h))
  {
    hide Carries, Due, Publish, Snapshot, Windowed;
    MessageCarries(h);
    CutBatches(h.batches, h.current);
    var k := RecordMessage(h);
    forall n | 0 <= n < |k.messages| ensures Carries(k.messages[n], k.snapshots[n], Due(k.batches, n)) {
      if n < |h.messages| { assert Carries(h.messages[n], h.snapshots[n], Due(h.batches, n)); }
    }
  }

  lemma SoundEvent(h: History, s: Robot)
    requires Sound(h) && Event(h.robot, s)
    ensures Sound(RecordEvent(h, s)) <==> Forward(s, RecordEvent(h, s).staged)
  {
    WindowEvent(h, s);
    OnRecordEvent(h, s);
  }

  lemma SoundMessage(h: History)
    requires Sound(h)
    ensures Sound(RecordMessage(h))
  {
    WindowMessage(h);
    RidesThreeMessage(h);
    OnRecordMessage(h);
    OnlyAdvancesMessage(h);
  }

  /** An event keeps action identity moving forward exactly if it brings no claimed id along. */
  lemma ForwardStep(w: World, h: History, op: Op)
    requires Forward(h.robot, h.staged) && !op.Report?
    ensures Event(h.robot, Apply(w, h.robot, op))
    ensures Forward(Apply(w, h.robot, op), Record(w, h, op).staged) <==> Harmless(w, h.robot, h.staged, op)
  {
    var r, s := h.robot, Apply(w, h.robot, op);
    NoSilentDrop(w, r, op);
    if op.OrderIn? && Judge(w, r, op.order) == Accepted {
      AdoptOutcome(w, r, op.order);
      if NamesAction(op.order) {
        hide Apply, Event, Reported, Follows;
        ForwardNamed(r, s, h.staged, FirstAction(op.order.actions).value.id);
      } else {
        ForwardEvent(h, s);
      }
    } else if op.OrderIn? {
      ForwardRefused(w, h, op);
    } else {
      ForwardEvent(h, s);
    }
  }

  lemma ForwardRefused(w: World, h: History, op: Op)
    requires Forward(h.robot, h.staged) && op.OrderIn? && Judge(w, h.robot, op.order) != Accepted
    ensures Forward(Apply(w, h.robot, op), Record(w, h, op).staged)
  {
    assert h.staged + [] == h.staged;
  }

  lemma SoundStep(w: World, h: History, op: Op)
    requires Sound(h)
    ensures Sound(Record(w, h, op)) <==> Harmless(w, h.robot, h.staged, op)
  {
    hide Apply, Harmless, Windowed, RidesThree, OnRecord, OnlyAdvances, MintedInOrder, Forward, Event;
    if op.Report? {
      SoundMessage(h);
      NoOrderHarmless(w, h, op);
    } else {
      ForwardStep(w, h, op);
      SoundEvent(h, Apply(w, h.robot, op));
    }
  }

  lemma NoOrderHarmless(w: World, h: History, op: Op)
    requires !op.OrderIn?
    ensures Harmless(w, h.robot, h.staged, op)
  {
  }

  /** No accepted order of the run names its action by an id the vehicle has a claim on at that moment. */
  ghost predicate BorrowsNothing(w: World, r: Robot, ops: seq<Op>) {
    forall n | 0 <= n < |ops| :: Harmless(w, Run(w, r, ops[..n]).robot, Run(w, r, ops[..n]).staged, ops[n])
  }

  ghost predicate SoundThroughout(w: World, r: Robot, ops: seq<Op>) {
    forall n | 0 <= n <= |ops| :: Sound(Run(w, r, ops[..n]))
  }

  lemma SoundSnoc(w: World, r: Robot, ops: seq<Op>)
    requires ops != []
    ensures SoundThroughout(w, r, ops) <==> SoundThroughout(w, r, ops[..|ops| - 1]) && Sound(Run(w, r, ops))
  {
    hide Sound, Run;
    var before := ops[..|ops| - 1];
    assert ops[..|ops|] == ops;
    forall n | 0 <= n <= |ops| && SoundThroughout(w, r, before) && Sound(Run(w, r, ops))
      ensures Sound(Run(w, r, ops[..n]))
    {
      if n < |ops| { assert before[..n] == ops[..n]; }
    }
    forall n | 0 <= n <= |before| && SoundThroughout(w, r, ops) ensures Sound(Run(w, r, before[..n])) {
      assert before[..n] == ops[..n];
    }
  }

  lemma BorrowsSnoc(w: World, r: Robot, ops: seq<Op>)
    requires ops != []
    ensures var before := ops[..|ops| - 1];
      BorrowsNothing(w, r, ops) <==>
        (BorrowsNothing(w, r, before) &&
         Harmless(w, Run(w, r, before).robot, Run(w, r, before).staged, ops[|ops| - 1]))
  {
    hide Harmless, Run;
    var before := ops[..|ops| - 1];
    assert forall n | 0 <= n <= |before| :: before[..n] == ops[..n];
  }

  lemma SoundStart(w: World, r: Robot)
    requires Fresh(r)
    ensures SoundThroughout(w, r, []) && BorrowsNothing(w, r, [])
  {
    assert Sound(Start(r));
  }

  /**
    Over any run of ticks, orders, operator verbs and state messages, up to the first order that borrows an id the
    vehicle has yet to mint or has already reported, and exactly so far: minted ids come out 1, 2, 3, ... (so never
    twice); a minted id is reported terminal at most once and is never in flight afterwards; a task in flight always
    has a non-empty id; the vehicle reported FINISHED exactly as often as it counts tasks done; each terminal report
    rides exactly the next three messages in staging order; and on the wire a minted action never leaves its terminal
    status.
   */
  lemma {:induction false} ActionIdentityMovesForward(w: World, r: Robot, ops: seq<Op>)
    requires Fresh(r)
    ensures SoundThroughout(w, r, ops) <==> BorrowsNothing(w, r, ops)
    ensures SoundThroughout(w, r, ops) ==> Sound(Run(w, r, ops))
    decreases |ops|
  {
    if ops == [] {
      SoundStart(w, r);
    } else {
      var before, last := ops[..|ops| - 1], ops[|ops| - 1];
      ActionIdentityMovesForward(w, r, before);
      SoundSnoc(w, r, ops);
      BorrowsSnoc(w, r, ops);
      hide Sound, Harmless, Record, SoundThroughout, BorrowsNothing;
      if Sound(Run(w, r, before)) { SoundStep(w, Run(w, r, before), last); }
    }
  }

  /** The vehicle keeps its serial, so orders of a master control that never uses the minted form borrow nothing. */
  lemma {:induction false} ForeignBorrowsNothing(w: World, r: Robot, ops: seq<Op>)
    requires Fresh(r)
    requires forall op | op in ops :: Foreign(r.serial, op)
    ensures Sound(Run(w, r, ops)) && Run(w, r, ops).robot.serial == r.serial && BorrowsNothing(w, r, ops)
    decreases |ops|
  {
    if ops == [] {
      SoundStart(w, r);
    } else {
      var before, last := ops[..|ops| - 1], ops[|ops| - 1];
      ForeignBorrowsNothing(w, r, before);
      var h := Run(w, r, before);
      BorrowsSnoc(w, r, ops);
      hide Sound, Harmless, Record, Foreign, BorrowsNothing, Fresh;
      ForeignIsHarmless(w, h.robot, h.staged, last);
      SoundStep(w, h, last);
      KeepsSerial(w, h, last);
    }
  }

  lemma KeepsSerial(w: World, h: History, op: Op)
    requires Sound(h)
    ensures Record(w, h, op).robot.serial == h.robot.serial
  {
    if !op.Report? { NoSilentDrop(w, h.robot, op); }
  }

  lemma MintedIdsAreDistinct(h: History)
    requires MintedInOrder(h)
    ensures forall i, j | 0 <= i < j < |h.minted| :: h.minted[i] != h.minted[j]
  {
    forall i, j | 0 <= i < j < |h.minted| ensures h.minted[i] != h.minted[j] {
      if h.minted[i] == h.minted[j] { MintedIdInjective(h.robot.serial, i + 1, j + 1); }
    }
  }

  // ---- when a borrowed id shows -------------------------------------------

  predicate CountsOn(r: Robot, s: Robot) { s.serial == r.serial && r.actionSeq <= s.actionSeq <= r.actionSeq + 1 }

  lemma DivertCounts(w: World, r: Robot)
    ensures var s := Divert(w, r); s.serial == r.serial && s.actionSeq == r.actionSeq
  {
    RouteToFrame(w, StageTerminal(r, Failed), w.nearestCharger(r.motion.node), ToCharger);
  }

  lemma AssignCounts(w: World, ms: seq<Mission>, r: Robot, d: TaskDraw)
    ensures var s := AssignTask(w, ms, r, d).1; s.serial == r.serial && s.actionSeq == r.actionSeq + 1
  {
    RouteToFrame(w, TagTask(ms, Tasked(r, d.kind)).1, d.target, AtMove);
  }

  lemma RunningCounts(w: World, ms: seq<Mission>, r: Robot, dt: real, d: Draws)
    ensures CountsOn(r, StepRunning(w, ms, r, dt, d).1)
  {
    hide Divert, AssignTask, Travel, MintedId;
    var s := if r.battery <= LOW_BATTERY_GO_CHARGE && r.status != ToCharger then Divert(w, r) else r;
    DivertCounts(w, r);
    if d.task.Some? { AssignCounts(w, ms, Idled(s, dt), d.task.value); }
  }

  lemma TickCounts(w: World, r: Robot, op: Op)
    requires op.Tick?
    ensures CountsOn(r, Apply(w, r, op))
  {
    hide StepRunning;
    RunningCounts(w, op.missions, MaybeFault(r, op.tick, op.draws.fault), op.dt, op.draws);
  }

  lemma OrderCounts(w: World, r: Robot, o: Order)
    ensures CountsOn(r, ApplyOrder(w, r, o).0)
  {
    hide OrderPath, OnlyWaypoints, MintedId;
  }

  lemma VerbCounts(w: World, r: Robot, v: Verb)
    ensures CountsOn(r, ApplyVerb(w, r, v).0)
  {
    hide RouteTo, MintedId;
    if v == Charge {
      var freed := if Held(r.status) then r.(status := r.resume) else r;
      RouteToFrame(w, StageTerminal(freed, Failed), w.nearestCharger(r.motion.node), ToCharger);
    }
  }

  /** Whatever the ids of orders, no event mints more than one. */
  lemma EventCounts(w: World, r: Robot, op: Op)
    ensures CountsOn(r, Apply(w, r, op))
  {
    hide StepRobot, ApplyOrder, ApplyVerb;
    match op
    case Tick(_, _, _, _) => TickCounts(w, r, op);
    case OrderIn(o) => OrderCounts(w, r, o);
    case Command(v) => VerbCounts(w, r, v);
    case Crew(_) =>
    case Report =>
  }

  lemma MintsNext(w: World, h: History, op: Op)
    requires MintedInOrder(h)
    ensures MintedInOrder(Record(w, h, op)) && Record(w, h, op).robot.serial == h.robot.serial
  {
    EventCounts(w, h.robot, op);
    hide Apply, MintedId, NewReports;
  }

  lemma {:induction false} MintsInOrder(w: World, r: Robot, ops: seq<Op>)
    requires Fresh(r)
    ensures MintedInOrder(Run(w, r, ops)) && Run(w, r, ops).robot.serial == r.serial
    decreases |ops|
  {
    if ops != [] {
      MintsInOrder(w, r, ops[..|ops| - 1]);
      MintsNext(w, Run(w, r, ops[..|ops| - 1]), ops[|ops| - 1]);
      hide Record, MintedInOrder;
    }
  }

  /** The vehicle has handed out its n-th id exactly once its counter has reached n. */
  lemma HandedOutBy(w: World, r: Robot, ops: seq<Op>, n: nat)
    requires Fresh(r) && n >= 1
    ensures var h := Run(w, r, ops); MintedId(r.serial, n) in h.minted <==> h.robot.actionSeq >= n
  {
    MintsInOrder(w, r, ops);
    var h := Run(w, r, ops);
    hide Run, MintedId;
    forall i | 0 <= i < |h.minted| && h.minted[i] == MintedId(r.serial, n) ensures i + 1 == n {
      MintedIdInjective(r.serial, i + 1, n);
    }
    if h.robot.actionSeq >= n { assert h.minted[n - 1] == MintedId(r.serial, n); }
  }

  /**
    An order that borrows an id yet to be minted shows to an observer exactly from the moment the counter reaches that
    id: over every continuation the vehicle then hands out, as new, an id that was in flight before.
   */
  lemma BorrowedAheadComesAround(w: World, r: Robot, ops: seq<Op>, more: seq<Op>, n: nat)
    requires Fresh(r) && n > Run(w, r, ops).robot.actionSeq
    requires InFlight(Run(w, r, ops).robot) == Some(MintedId(r.serial, n))
    ensures var h, k := Run(w, r, ops), Run(w, r, ops + more);
      MintedId(r.serial, n) !in h.minted && (MintedId(r.serial, n) in k.minted <==> k.robot.actionSeq >= n)
  {
    HandedOutBy(w, r, ops, n);
    HandedOutBy(w, r, ops + more, n);
  }

  // ---- what the code does not promise -------------------------------------

  /**
    Borrowing does happen: an order that borrows the id of a finished, already reported action puts
    that id back in flight, whatever map and whatever robot.
   */
  lemma BorrowedMintedIdReturns(w: World, r: Robot)
    requires Fresh(r) && r.fault.None? && r.id != SCRIPTED_FAULT_ROBOT && r.motion.node in w.waypoints
    requires r.order.orderId !in {"A", "B"} && r.battery > LOW_BATTERY_GO_CHARGE
    ensures var h := Run(w, r, Borrowing(r));
      Reports(h.staged, MintedId(r.serial, 1)) && InFlight(h.robot) == Some(MintedId(r.serial, 1))
  {
    var borrowed, ops := MintedId(r.serial, 1), Borrowing(r);
    OnlyHere(w, r.motion.node);
    var r1 := TakesOrder(w, r, ops[0].order);
    FinishesWork(w, r1, ops[1]);
    var r2 := Apply(w, r1, ops[1]);
    var r3 := TakesOrder(w, r2, ops[2].order);
    RunOfThree(w, r, ops, r1, r2, r3);
    NewReportsAre(r1, r2);
    hide Apply, Run;
    var h2 := RecordEvent(RecordEvent(Start(r), r1), r2);
    assert h2.staged[0] == ActionState(borrowed, "pick", Finished);
    assert RecordEvent(h2, r3).staged[0] == h2.staged[0];
  }

  lemma RunOfThree(w: World, r: Robot, ops: seq<Op>, r1: Robot, r2: Robot, r3: Robot)
    requires |ops| == 3 && forall op | op in ops :: !op.Report?
    requires r1 == Apply(w, r, ops[0]) && r2 == Apply(w, r1, ops[1]) && r3 == Apply(w, r2, ops[2])
    ensures Run(w, r, ops) == RecordEvent(RecordEvent(RecordEvent(Start(r), r1), r2), r3)
  {
    hide Apply;
    assert ops[..2][..1] == ops[..1] && ops[..1][..0] == [];
    assert Run(w, r, ops[..1]) == RecordEvent(Start(r), r1);
    assert Run(w, r, ops[..2]) == RecordEvent(RecordEvent(Start(r), r1), r2);
  }

  /** An idle robot takes an order for the spot it stands on and is at work on its action at once. */
  lemma TakesOrder(w: World, r: Robot, o: Order) returns (s: Robot)
    requires r.status == Idle && r.task.None? && o.orderId != "" && o.orderId != r.order.orderId
    requires OnlyWaypoints(w, o.nodes) == [r.motion.node] && |o.actions| == 1 && o.actions[0].kind != ""
    ensures s == Apply(w, r, OrderIn(o))
    ensures s.status == AtWork && s.task == Some(o.actions[0].kind) && s.workLeft == WORK_SECONDS
    ensures InFlight(s) == OrderActionId(r, Some(o.actions[0]))
    ensures s.pending == r.pending && s.taskMission.None? && s.order.orderId == o.orderId
    ensures s == r.(motion := s.motion, order := s.order, taskMission := None, mission := None, task := s.task,
                    actionId := s.actionId, actionSeq := s.actionSeq, status := AtWork, workLeft := WORK_SECONDS)
    ensures s.motion.node == r.motion.node
  {
    s := Apply(w, r, OrderIn(o));
    assert FirstAction(o.actions) == Some(o.actions[0]);
  }

  function Borrowing(r: Robot): seq<Op> {
    [OrderIn(Order("A", 0, [r.motion.node], [OrderAction("pick", "")])),
     Tick([], 0, WORK_SECONDS, Draws(None, None)),
     OrderIn(Order("B", 0, [r.motion.node], [OrderAction("drop", MintedId(r.serial, 1))]))]
  }

  lemma OnlyHere(w: World, node: string)
    requires node in w.waypoints
    ensures OnlyWaypoints(w, [node]) == [node]
  {
    assert [node][1..] == [];
  }

  lemma FinishesWork(w: World, r: Robot, op: Op)
    requires op == Tick([], 0, WORK_SECONDS, Draws(None, None))
    requires r.status == AtWork && r.task.Some? && r.fault.None? && r.workLeft == WORK_SECONDS
    requires r.battery > LOW_BATTERY_GO_CHARGE && r.taskMission.None?
    ensures Closed(r, Apply(w, r, op), Finished) && Apply(w, r, op).status == Idle && Apply(w, r, op).task.None?
    ensures Apply(w, r, op).order == r.order && Apply(w, r, op).motion == r.motion
  {
  }
}
