# Verified model of the fleet simulator and the services around it

Dafny models of the stateful controllers of this repository, and proofs of what they keep over whole runs. Each
imperative component appears twice: as functions over values (the specification the run theorems are about) and as
classes or loops that update state in place and are proved to compute exactly those functions. Floats are `real`,
clocks are parameters, random draws and network outcomes are arbitrary, hashes and ids are arbitrary functions.

| file | what it is about |
|---|---|
| `RouteTravel`, `ActionReports`, `RobotState`, `TickEffects`, `ActionLifecycle`, `ActionHistory`, `OrderUpdates`, `HoldsAndFaults`, `ChargingAway` | one simulated robot: driving, what a tick does in metres, seconds and percent, action identity and reports, order updates, operator holds, faults and charging |
| `MissionPool`, `MissionRuns`, `MissionCredits`, `FleetSim`, `FleetLife`, `FleetProjection` | the fleet: the mission pool and what its missions count over whole runs, the simulator in place from its construction on, and each robot's share of a fleet run |
| `IncidentEngine`, `IncidentSlots`, `IncidentTable`, `IncidentOpenRows`, `IncidentHistory` | the detector in place, one robot's share of a poll, its agreement with the incidents table across crashes, and its specification over histories |
| `CommandBridge` | the two threads of the command bridge at lock granularity |
| `ReliableDelivery`, `Notifier` | queue, retries and breaker of one channel, and the dispatcher over all channels |
| `RateLimit`, `AlertDedup` | quota windows and alert edges |
| `LinearTrend`, `MaintenanceFindings`, `FindingTable` | the least-squares fit, maintenance findings, and their agreement with their table across restarts |
| `Utilisation`, `DecideOnce`, `FloorAssignment`, `Migration` | time accounting, decisions and replay, the floor plan, crash and resume of migrations |
| `Collections`, `Options` | lists without repetition, sizes of sets, options |

`dafny verify dfyconfig.toml` checks everything.

## What the proofs say about the code

Where the code does not do what its documentation says, the code is modelled and the exact condition is proved.

- The staging helper of the simulator documents that every path that drops a task reports it. That holds for every
  event except one (`NoSilentDrop`, an if-and-only-if): an idle robot that still holds a task, after a fault at work or
  in an operator hold, gets a new assignment over it. `FaultLosesTask` shows it for every such robot and fault.
- "An order update can never rewind progress" does not hold. `UpdateVerdicts` says exactly which outdated update is
  accepted at which point of a run, and `ProgressIsRewound` that a run rewinds an order, whatever its id, if and only
  if an update below its last one reaches a robot that takes orders and has gone on to another order, or the vehicle
  makes up an order of its own under that id. `DivertForgetsUpdates` and `OwnOrderResetsUpdates` are inputs.
- An emergency stop on top of a pause makes a hold that `resume` reports as lifted but does not lift
  (`ResumeFrees`, `StuckHoldLife`). A robot charges away from every charger if and only if its order was cancelled
  while it was held on its way to one and nothing has ended that since (`OffCourseLife`, `ChargesAway`;
  `ChargesAnywhere` is an input). An emergency stop during a fault leaves that fault on the books for good, and no
  other fault ever strikes that robot (`GhostFaultLife`, `GhostFaultIsForever`).
- Action identity moves forward if and only if no accepted order names an id that the vehicle has yet to mint or has
  already reported (`ForwardStep` for one event, `ActionIdentityMovesForward` for runs). Restating the id in flight is
  harmless; `BorrowedMintedIdReturns` is an input that is not. The first half of the condition speaks of a debt: that
  no id in use is one yet to be minted is part of the invariant. Borrowing such an id shows to an observer exactly once
  the counter reaches it (`BorrowedAheadComesAround`).
- Incident ids are a hash modulo 8000, so some run loses agreement between table and detector (`FiniteIdsCollide`). A
  given run loses it exactly at the first poll that opens an incident under the id of one that another robot still
  holds, open or recently resolved, which shows before anything is written (`PollAgreesExactly`, `RunAgrees`); and an
  id function never loses it if and only if it tells robots apart (`AgreementIffCollisionFree`). The open rows alone
  survive a collision with a merely recent incident until that one is re-opened (`RunKeepsOpenRows` has the exact
  condition). Maintenance findings have ids of the same kind and the same exact condition (`FindingTable.RunAgrees`).
- A command with an unsupported verb is marked done even if the update of its row failed, and that update is never
  tried again (`RefusalIsOneShot`, `LostRefusalIsForever`).
- "No loss" in the notifier means that what was sent is delivered, waiting, or dropped as the oldest of a queue at its
  cap (`FifoNoLoss`). "Announced exactly once" holds if and only if no poll holds two events under one unseen key
  (`ExactlyOnce`); `RepeatedKeyIsAnnouncedTwice` is an input where it fails.
- The alert key joins type and level with a colon, and is documented to identify the error. Two different errors share
  a key if and only if one is the other with its colon moved (`KeysCollideExactly`), as in `KeysCanCollide`; so it
  tells them apart as long as no level contains a colon (`KeysTellErrorsApart`).
- The floor assignment is documented to give distinct nodes; it does if and only if the fleet fits
  (`DistinctIffItFits`).

## Assumptions

- The map of the simulator is an arbitrary `World`: its waypoints, a shortest path between any two nodes, legs of
  non-negative length and a nearest charger among its chargers. `world.py` itself is not modelled. Tasks are drawn for
  places on that map.
- The random generator is an arbitrary function that samples crews of distinct free robots and task counts within the
  code's ranges; such a function exists (`SomeGeneratorSamples`).
- The order in which the detector's dictionary lists open incidents is arbitrary. A poll has one row per robot, and
  every write to the table succeeds up to the crash. Its clock never runs back, and the re-open window is not negative.
- A command row keeps its verb for as long as the bridge runs, and the bridge is not restarted. An update of a row
  that is reported as failed has left the row as it was, and a publish that raises has sent nothing: a reply lost after
  the fact would close a row twice or publish a command twice.
- `ReliableChannel` has a queue cap of at least one: with a cap of zero the code fails on an empty queue.
- The quota of the rate limiter rests on clock readings that enter its lock in the order they were taken. The code
  reads the clock before it takes the lock, so two threads can enter in the other order; `RateLimiter.Allow` is proved
  for any reading.
- `sorted` orders nodes, files and keys in a fixed way without repetition; the proofs hold for any such order.

## Model

| member | source | states |
|---|---|---|
| RouteTravel.TravelIsAdditive | sim/yantrasim/sim.py:572-597 | driving for b1 and then b2 metres ends in the same node, remaining path, leg progress and sequence id as driving b1 + b2 at once |
| RouteTravel.TravelConsumesBudget | sim/yantrasim/sim.py:572-597 | exactly min(budget, remaining route length) of the route is used up, on any map with non-negative legs |
| RouteTravel.TravelStaysOnRoute | sim/yantrasim/sim.py:579-595 | what is left of the path is a suffix of it, the node is the one before that suffix, the sequence id grows by two per node passed, and progress stays below a leg of positive length |
| RouteTravel.TravelArrival | sim/yantrasim/sim.py:579-597 | a budget beyond what lies ahead arrives, one short of it does not |
| ActionReports.MergeIsLastWord | sim/yantrasim/vda.py:151-169 | a merged list names each actionId once and holds exactly the last word about each action |
| ActionReports.MergeActionStates | sim/yantrasim/vda.py:151-169 | the dictionary-and-order loop computes that merge of existing and staged entries |
| ActionReports.WindowAges | sim/yantrasim/sim.py:227-236 | one message carries the three latest batches in staging order and retires the oldest |
| RobotState.MintedIdInjective | sim/yantrasim/sim.py:614-626 | different counters never mint the same actionId, decimal rendering included |
| RobotState.RobotNamesDiffer | sim/yantrasim/sim.py:260-262 | robots of one fleet have different names, past ninety-nine included |
| RobotState.FleetIdsDiffer | sim/yantrasim/sim.py:614-626 | no two actions that robots of one fleet make up have the same actionId: name, serial number and counter can be read off it |
| RobotState.SerialIsLegal | sim/yantrasim/vda.py:65-74 | a serial number keeps the legal characters of the name and has an underscore for every other |
| TickEffects.TickDrives | sim/yantrasim/sim.py:572-597 | a tick in which a robot on its way is not struck by a fault, at more than 20 percent unless bound for a charger, takes exactly 1.2 metres per second off the road ahead, drops whole waypoints from its front, costs 0.09 percent per second, and arrives exactly at the end of the road: at work for 12 seconds, idle, or charging |
| TickEffects.Drives | sim/yantrasim/sim.py:572-612 | over any run of such ticks: still on the road with 1.2 metres less ahead for every second, or arrived at the destination at some tick; arrived if 1.2 metres times the seconds exceed the road |
| TickEffects.TickWorks | sim/yantrasim/sim.py:387-404 | a tick at work costs 0.05 percent and one second of work per second; the tick in which nothing is left stages exactly one FINISHED report of the action in hand |
| TickEffects.WorksTwelveSeconds | sim/yantrasim/sim.py:387-404 | over any run of undisturbed ticks the action is reported FINISHED in the tick that completes 12 seconds of work and in no earlier one |
| TickEffects.TickCharges | sim/yantrasim/sim.py:350-359 | a tick at the charger adds 0.45 percent per second, to 100 at most, and ends charging exactly from 90 on |
| TickEffects.ChargesUpToNinety | sim/yantrasim/sim.py:350-359 | over any run of undisturbed ticks charging ends in the tick that reaches 90 percent and in no earlier one |
| TickEffects.TickWaits | sim/yantrasim/sim.py:340-345 | a held robot, or an idle one without a new task, loses 0.004 percent per second and nothing else changes |
| TickEffects.TickAssigns | sim/yantrasim/sim.py:437-454 | an idle robot that draws a task is put on the shortest road to its target under the next minted id, or is at work at once if it stands there |
| TickEffects.TickDiverts | sim/yantrasim/sim.py:361-372 | at 20 percent or less a robot that is not bound for a charger reports its action FAILED, is put on the shortest road to the nearest charger and drives on it in the same tick |
| TickEffects.TickStrikes | sim/yantrasim/sim.py:412-435 | a fault strikes exactly if none is on the books and one is drawn or the scripted one is due; it counts down in that very tick, and only status, remembered status and fault change |
| TickEffects.TickRecovers | sim/yantrasim/sim.py:327-338 | every tick of a fault takes one off its duration, and the last gives back what the robot had been doing |
| ActionLifecycle.TickOutcome | sim/yantrasim/sim.py:324-408 | a tick keeps the action in flight or stages exactly one terminal report for it, unless it is the one overwriting assignment |
| ActionLifecycle.VerbOutcome | sim/yantrasim/commands.py:49-113 | every operator verb keeps the action in flight or stages exactly one FAILED report for it |
| ActionLifecycle.AdoptOutcome | sim/yantrasim/sim.py:520-558 | an adopted order reports the action it supersedes as FAILED, unless it restates the same id, and runs its own under a fresh or master-control id |
| ActionLifecycle.NoSilentDrop | sim/yantrasim/sim.py:647-669 | for every tick, order and verb, whatever ids orders carry: the end of an action is reported if and only if the event is not an idle robot's new assignment over a task it still holds |
| ActionHistory.ActionIdentityMovesForward | sim/yantrasim/sim.py:614-669 | over every run of ticks, orders, verbs and messages, at every point if and only if no accepted order named its action by an id the vehicle had yet to mint or had already reported: minted ids come out 1, 2, 3, ..., each is reported terminal at most once and never in flight or running on the wire afterwards, FINISHED reports equal tasks done, each report rides exactly the next three messages |
| ActionHistory.ForwardStep | sim/yantrasim/sim.py:527-541 | for every robot and record, an event keeps identity moving forward if and only if it is not an accepted order naming an id not yet minted or already reported; the id in flight is allowed |
| ActionHistory.BorrowedAheadComesAround | sim/yantrasim/sim.py:614-626 | an order that borrows an id yet to be minted shows exactly once the counter reaches it: over every continuation the vehicle hands out as new, then and only then, an id that was in flight before |
| ActionHistory.ForeignBorrowsNothing | sim/yantrasim/sim.py:527-531 | so all of it holds throughout if master control never uses the minted form |
| ActionHistory.MintedIdsAreDistinct | sim/yantrasim/sim.py:614-626 | no minted id is handed out twice in a run |
| ActionHistory.BorrowedMintedIdReturns | sim/yantrasim/sim.py:527-531 | a concrete run that breaks it: for any map and fresh robot, an order that borrows a finished minted id puts it back in flight |
| ActionHistory.WindowMessage | sim/yantrasim/sim.py:209-236 | a message says the merge of the running snapshot and the three latest batches of staged reports |
| TickEffects.ChargeSends | sim/yantrasim/commands.py:101-113 | `charge` puts every robot but a faulted or charging one on the shortest road to the nearest charger without its task, and is refused by a faulted one only |
| TickEffects.VerbsHold | sim/yantrasim/commands.py:49-99 | what pause, estop, cancel_order and resume make of a robot in every status, and when each is refused |
| HoldsAndFaults.ResumeFrees | sim/yantrasim/commands.py:66-79 | resume frees a held robot if and only if it does not remember "paused" |
| HoldsAndFaults.ResumeAfterPause | sim/yantrasim/commands.py:49-79 | pause and resume give back the same robot, except that a task in hand ends in one FAILED report and a dropped route |
| HoldsAndFaults.StuckHoldLife | sim/yantrasim/commands.py:49-79 | such a hold arises exactly from an emergency stop on top of a pause and ends exactly by charge or a fault |
| HoldsAndFaults.GhostFaultLife | sim/yantrasim/commands.py:59-64 | exactly an emergency stop during a fault leaves a fault on the books of a robot that no longer counts it down |
| HoldsAndFaults.GhostFaultIsForever | sim/yantrasim/sim.py:412-422 | over any further run, whatever ids orders carry, that fault stays, and no other fault strikes |
| HoldsAndFaults.FaultLosesTask | sim/yantrasim/sim.py:424-454 | a fault of any duration at work ends in a new assignment that replaces the action without a report |
| ChargingAway.RunStaysOnRoute | sim/yantrasim/sim.py:572-597 | at every point of every run a robot stands on the map with places of the map ahead and has done less than the current leg, so the fraction of a leg never divides by zero |
| ChargingAway.OffCourseLife | sim/yantrasim/commands.py:81-113 | a robot bound for a charger loses it by exactly one event, the cancelling of its order while it is held on the way, away from a charger; and exactly the listed events end that |
| ChargingAway.ChargesAway | sim/yantrasim/sim.py:599-612 | over every run a charging robot stands at no charger if and only if its order was so cancelled and none of those events came since |
| ChargingAway.ChargesAnywhere | sim/yantrasim/commands.py:81-99 | and it happens: paused or stopped on the way to a charger, cancelled and resumed, it charges where it stands |
| TickEffects.OrderVerdict | sim/yantrasim/sim.py:497-519 | an order is accepted exactly if it has an id, is not a repeated or lower update of the order in hand, finds the robot neither faulted nor held, and names no node or a known one; otherwise only staged errors change |
| TickEffects.OrderSends | sim/yantrasim/sim.py:520-558 | an accepted order sends the robot along its known nodes in order, from where it stands, with the first typed action in hand under the id the order gives |
| OrderUpdates.ErrorsStaged | sim/yantrasim/sim.py:505-510 | an event stages exactly the update errors it causes: one for an update lower than the one in progress, none for a repeated one |
| OrderUpdates.RefusalsRideThree | sim/yantrasim/sim.py:239-247 | over every run each refusal rides exactly the next three state messages in order |
| OrderUpdates.OrderChanges | sim/yantrasim/sim.py:505-570 | after any event the order in hand is the accepted one, one the vehicle made up, under exactly the listed guards, or the one before |
| OrderUpdates.UpdateVerdicts | sim/yantrasim/sim.py:497-519 | at any point of any run and for every order id, an update no higher than the last one the robot had under it is accepted if and only if the robot takes orders, knows a node or is given none, and is on another order; one below the highest ever likewise, except that after an earlier rewind one above the last is accepted on the same order too |
| OrderUpdates.ProgressIsRewound | sim/yantrasim/sim.py:480-519 | over every run an order, whatever its id, is rewound if and only if an update below its last one reaches a robot that takes orders and has gone on to another order, or the vehicle makes up an order of its own under that id |
| OrderUpdates.DivertForgetsUpdates | sim/yantrasim/sim.py:560-567 | but a robot that diverts to a charger then accepts the very update it refused as outdated a moment before |
| OrderUpdates.OwnOrderResetsUpdates | sim/yantrasim/sim.py:560-567 | and an order of master control under the vehicle's next own id falls back to update 0 when the vehicle makes up that order |
| MissionPool.StepTouches | sim/yantrasim/sim.py:437-454 | whatever a step does to the missions is one of: nothing, the start of the mission the robot's new task is tagged with, or one task credited to the mission the finished task was tagged with; which of them is `MissionCredits.StepAccounts` |
| MissionRuns.MissionPoolHolds | sim/yantrasim/sim.py:699-750 | over every run: at most three active missions, and if fewer after a tick then fewer than two free robots; every owned robot is in exactly one active mission that lists it; active missions are short of their plan; states only move Queued, Running, Done |
| MissionCredits.StepAccounts | sim/yantrasim/sim.py:724-732 | a step credits exactly one task to exactly the active mission named by the tag of a task it finishes, starts exactly the queued mission named by a robot whose task it assigns, and leaves every other mission alone; and it says when a step finishes, assigns or tags a task |
| MissionCredits.CountIsTasksFinished | sim/yantrasim/sim.py:699-750 | at every point of every fleet run the count of every mission in the pool equals the number of tasks that robots finished under its tag while it was active |
| MissionCredits.Completion | sim/yantrasim/sim.py:734-743 | upkeep completes, at the current tick, exactly the missions that have reached their plan and frees exactly their robots |
| MissionCredits.Pruning | sim/yantrasim/sim.py:745-750 | exactly the missions not done or completed at most six ticks ago stay, in order |
| MissionCredits.Spawning | sim/yantrasim/sim.py:699-722 | a new mission takes two to four free robots and nobody else, for ten to twenty tasks, under the next id |
| MissionRuns.TickKeeps | sim/yantrasim/sim.py:284-293 | a tick preserves the pool invariant, moves every mission only forward and leaves no room unfilled |
| MissionRuns.SteppedGains | sim/yantrasim/sim.py:724-732 | one tick adds at most a crew's size of tasks to a mission |
| MissionRuns.CompletedAdvances | sim/yantrasim/sim.py:734-743 | completion happens in the tick that reaches the plan and overshoots it by at most crew size minus one |
| FleetProjection.RobotLivesItsOps | sim/yantrasim/sim.py:284-300 | what a fleet run does to one robot is a run of that robot alone, so every theorem about one robot's runs holds of each robot of a fleet |
| FleetProjection.EveryRobotIsSound | sim/yantrasim/sim.py:284-300 | in every fleet run the action history of every fresh robot is sound throughout exactly if it accepted no order that borrowed one of its ids |
| FleetSim.Robot.Drive | sim/yantrasim/sim.py:578-595 | the movement loop over budget and path, with its termination measure, computes the travel function |
| FleetSim.Robot.Adopt | sim/yantrasim/sim.py:514-558 | adopting an order in place equals its specification |
| FleetSim.Robot.ApplyOrder | sim/yantrasim/sim.py:464-558 | every verdict on an order and its effect, including the staged update error |
| FleetSim.Robot.ApplyVerb | sim/yantrasim/commands.py:49-113 | the five operator verbs in place equal their specification |
| FleetSim.Robot.Publish | sim/yantrasim/sim.py:209-247 | one state message and the counting down of staged evidence |
| FleetSim.Fleet.StepRobot | sim/yantrasim/sim.py:324-408 | the per-robot state machine on fields updated in place, mission list included; what it comes to in metres, seconds and percent is `TickEffects` |
| FleetSim.Fleet.AssignTask | sim/yantrasim/sim.py:437-454 | a new task under a minted id, tagged with the robot's active mission |
| FleetSim.Fleet.CompleteMissions | sim/yantrasim/sim.py:734-743 | missions at their plan are done and exactly their robots freed |
| FleetSim.Fleet.SpawnMissions | sim/yantrasim/sim.py:699-722 | the top-up loop terminates and makes the picks of the generator, each while missions were short |
| FleetSim.Fleet.PruneMissions | sim/yantrasim/sim.py:745-750 | only missions done for longer than the linger time are dropped, in order |
| FleetSim.Fleet.Tick | sim/yantrasim/sim.py:284-300 | a whole tick in place is the tick of the specification for the picks made |
| FleetSim.Fleet.ApplyCommand | sim/yantrasim/commands.py:37-113 | unknown robots and verbs are refused without effect, the rest applied to the addressed robot only |
| FleetSim.Fleet.RequestState | sim/yantrasim/sim.py:209-247 | a requested message ages the evidence of the addressed robot only, an unknown one changes nothing |
| FleetSim.Fleet.constructor | sim/yantrasim/sim.py:253-280 | a fleet as built, missions topped up, is in order and a starting point of the pool's runs |
| FleetLife.Live | sim/yantrasim/sim.py:253-322 | a fleet built and driven in place by any ticks, orders, commands and requests lives a run of the specification, so the pool bounds hold of it at the end |
| IncidentEngine.IncidentDetector.OnBadRow | detector/yantradetect/engine.py:184-247 | the refresh, flap guard, re-open and fresh-open branches in place equal their specification |
| IncidentEngine.IncidentDetector.OnClearRow | detector/yantradetect/engine.py:249-268 | clear-hold hysteresis in place |
| IncidentEngine.IncidentDetector.SweepStale | detector/yantradetect/engine.py:270-284 | the sweep over open incidents in the table's own order, with the strict comparison |
| IncidentEngine.IncidentDetector.Poll | detector/yantradetect/engine.py:159-180 | one poll in place: rows, sweep, expiry, and all actions in order |
| IncidentEngine.IncidentDetector.SeedFrom | detector/yantradetect/engine.py:143-155 | restart from the open rows in place; the last row of a robot wins |
| IncidentHistory.TailRunIsMaximal | detector/yantradetect/engine.py:186-191 | the streak counted is the longest run of one value at the end of the appearances |
| IncidentHistory.DetectorRefinesHistory | detector/yantradetect/engine.py:159-292 | over every run of polls, cold or restarted, the open incident of each robot is the one its history calls for: opened or re-opened at an appearance whose run reaches the pending polls, resolved by clear or absent polls; open and recent are disjoint |
| IncidentSlots.DurationsAreFresh | detector/yantradetect/engine.py:193-201 | after a poll that shows a robot not operating its open incident states exactly the whole minutes it has been open |
| IncidentHistory.ResolvesExactly | detector/yantradetect/engine.py:249-284 | while an incident is open fewer than clear_polls clear appearances and at most stale_polls absent polls stand at the end |
| IncidentTable.StepAgrees | detector/yantradetect/engine.py:143-268 | from an agreement in id, robot, opening time and duration, a completed poll keeps it if and only if it opens no incident under the id of one another robot holds; and at every prefix of the actions there is at most one open row per robot, so a restart from a crash there agrees, collision or not |
| IncidentTable.RowMoves | detector/yantradetect/engine.py:184-268 | a row leads to nothing or to one action on its own robot's incident that changes the engine in step: a refresh only for a new duration, a re-open under the old id, a new incident under its condition, or a resolve; every duration written is the whole minutes of 60,000,000 microseconds since the opening |
| IncidentTable.AbsentMoves | detector/yantradetect/engine.py:270-284 | an absent robot's open incident is left alone or resolved, with the same durations |
| IncidentTable.SeedReads | detector/yantradetect/engine.py:143-155 | after a restart a robot has the incident of its last open row, with the row's id, condition, opening time and duration, and nothing but open incidents is restored |
| IncidentTable.NamelessNeverOpens | detector/yantradetect/engine.py:163-166 | rows without a robot id never open an incident |
| IncidentTable.RunAgrees | e2e/fakerest.py:578-612 | over every run of polls and crashes with restart, engine and table agree after every event up to some point if and only if no poll before it collided, whatever the ids |
| IncidentOpenRows.PollKeepsOpenRows | detector/yantradetect/engine.py:159-180 | for the open rows alone: a completed poll keeps them equal to the open incidents if and only if none of its rows opens an incident under the id of another robot's open one or re-opens one whose row is no longer its robot's own |
| IncidentOpenRows.SeedAgreesExactly | detector/yantradetect/engine.py:143-155 | a restart agrees with the open rows if and only if the table holds at most one for each robot |
| IncidentOpenRows.RunKeepsOpenRows | e2e/fakerest.py:578-612 | over every run of polls and crashes, open rows and open incidents are equal after every event up to some point if and only if no event before it was such a poll or left two open rows of one robot behind |
| IncidentTable.PollAgreesExactly | detector/yantradetect/engine.py:159-180 | the exact condition for one poll, read off the engine and its actions before any of them is written |
| IncidentTable.AgreementIffCollisionFree | detector/yantradetect/engine.py:56-60 | an id function never loses agreement in any run if and only if it gives different robots different ids |
| IncidentTable.CollisionBreaksAgreement | detector/yantradetect/engine.py:56-60 | any colliding pair of ids of two robots yields a two-poll run, its clock not running back, that ends in disagreement |
| IncidentTable.FiniteIdsCollide | detector/yantradetect/engine.py:56-60 | ids of any finite range, such as a hash modulo 8000, lose agreement in some run |
| CommandBridge.EveryInterleavingIsSafe | connector/yantrabridge/commands.py:193-276 | the safety invariant holds after every sequence of atomic actions of the two threads |
| CommandBridge.BridgeProtocol | connector/yantrabridge/commands.py:193-371 | in every interleaving each id is published at most once, pending and done are disjoint, pending ids were published, a row is closed once, and only by a reported terminal state of a published command or as an unsupported verb never published |
| CommandBridge.RefusalIsOneShot | connector/yantrabridge/commands.py:237-243 | a refused row is marked done whether or not its update succeeded |
| CommandBridge.LostRefusalIsForever | connector/yantrabridge/commands.py:237-243 | if that update failed, no continuation of the two threads ever closes the row |
| CommandBridge.CommandPublisher.Poll | connector/yantrabridge/commands.py:193-276 | one poll with the state thread running at every free moment: every row is published, known, refused, or left because it could not be routed |
| CommandBridge.CommandPublisher.PollRow | connector/yantrabridge/commands.py:229-276 | one row, with the lock taken only where the code takes it |
| CommandBridge.CommandPublisher.StateAction | connector/yantrabridge/commands.py:353-371 | at each place of the state thread the one action taken: an acknowledgement is matched exactly if its command is pending; a closing is recorded, with the reported status, exactly if the update succeeded; only then is the command moved from pending to done |
| CommandBridge.CommandPublisher.HandleState | connector/yantrabridge/commands.py:340-371 | a whole state message: exactly the acknowledged commands that were pending and whose update succeeded are closed, each once, in order and with the first status so recorded, and go from pending to done; every other command stays as it was |
| CommandBridge.SiteRowsExactly | connector/yantrabridge/commands.py:208-228 | the poll considers exactly the rows of its site, in order |
| ReliableDelivery.FifoNoLoss | notifier/yantranotify/reliability.py:112-167 | over every run, whatever the inner channel does: submitted is retired followed by pending, in order; what was retired as delivered is, in order, exactly what successful inner calls took; everything else retired was the oldest of a queue at its cap |
| ReliableDelivery.SendKeepsOrder | notifier/yantranotify/reliability.py:142-154 | sending queues behind what is pending, or delivers in order |
| ReliableDelivery.AttemptTakes | notifier/yantranotify/reliability.py:112-133 | of all tries of an item at most the last is taken, and the attempt reports success exactly then |
| ReliableDelivery.AttemptCalls | notifier/yantranotify/reliability.py:112-133 | an attempt makes calls for its item, each a delay after the last was over, until one succeeds or all tries, one more than there are delays, have failed, says which, and moves the breaker accordingly |
| ReliableDelivery.FlushEnds | notifier/yantranotify/reliability.py:156-167 | a flush does nothing while barred; otherwise it delivers from the front, in order, until the queue is empty or all tries for the item at the front, one more than there are delays, have failed, and retires just those before it; if every call from now on succeeds the whole queue is delivered |
| ReliableDelivery.SendEnds | notifier/yantranotify/reliability.py:142-154 | a barred send calls nothing and queues, dropping the oldest at the cap; with nothing queued it delivers, or keeps the item because all tries failed; if every call succeeds the item and all before it are delivered in order |
| ReliableDelivery.BreakerBound | notifier/yantranotify/reliability.py:76-95 | the inner channel is never called while barred, and a success-free stretch of T seconds has at most threshold + floor(T / pause) final failures |
| ReliableDelivery.FailuresTakeTime | notifier/yantranotify/reliability.py:87-95 | failures beyond the threshold are a pause apart |
| Notifier.ExactlyOnce | notifier/yantranotify/notifier.py:103-122 | over any run of polls exactly the unseen keys are announced, alone or in digests, and each exactly once if and only if no poll holds two events under one key unseen before it |
| Notifier.RepeatedKeyIsAnnouncedTwice | notifier/yantranotify/notifier.py:112-115 | the failing input: an unseen key repeated within one poll is announced twice |
| Notifier.NewEventsExactly | notifier/yantranotify/notifier.py:112-115 | exactly the events of a poll under an unseen key are new, in order |
| Notifier.AnnounceShape | notifier/yantranotify/notifier.py:112-122 | up to five new events go out one by one in order, more in one digest of all |
| Notifier.ReliableChannel.AttemptDelivery | notifier/yantranotify/reliability.py:112-133 | the retry loop with its delays equals its specification |
| Notifier.ReliableChannel.FlushQueue | notifier/yantranotify/reliability.py:156-167 | the flush loop in place leaves the channel as `ReliableDelivery.FlushEnds` describes it |
| Notifier.ReliableChannel.Submit | notifier/yantranotify/reliability.py:142-154 | one send in place |
| Notifier.Dispatcher.Dispatch | notifier/yantranotify/notifier.py:103-122 | every channel is handed exactly what is new, in order, after its queue was retried |
| Notifier.Dispatcher.DispatchAll | notifier/yantranotify/notifier.py:103-122 | over a run of polls every channel object is handed exactly the list the exactly-once theorem is about |
| RateLimit.StepKeepsSound | ops/yantraops/sandbox_http.py:129-158 | every admitted or refused attempt and any pruning keeps each unevicted key within its quota |
| RateLimit.QuotaHolds | ops/yantraops/sandbox_http.py:140-158 | over every run the table is within its cap and an unevicted key has at most limit admissions per window and 2 * limit in any span of a window |
| RateLimit.RefusedAtLimit | ops/yantraops/sandbox_http.py:147-158 | a key whose live window was never evicted is refused only if its last `limit` admissions all lie within a window of that time |
| RateLimit.AdmittedBelowLimit | ops/yantraops/sandbox_http.py:147-158 | so over every run an attempt is admitted while fewer than `limit` of the key's admissions lie within a window of it |
| RateLimit.OldestIsEvicted | ops/yantraops/sandbox_http.py:129-138 | a live window is dropped only from a full table, and only if it opened no later than every one that is kept |
| RateLimit.SlidingBound | ops/yantraops/sandbox_http.py:103-115 | fixed windows of at most limit admissions give at most 2 * limit in any span of one window's length |
| RateLimit.RetryAfterSuffices | ops/yantraops/sandbox_http.py:160-166 | waiting the time told always readmits and overshoots a live window by at most one second |
| RateLimit.RateLimiter.Allow | ops/yantraops/sandbox_http.py:140-158 | one attempt in place is a step of the specification, whatever time it read before the lock; the quota invariant is kept as long as times do not run back |
| RateLimit.RateLimiter.WaitFor | ops/yantraops/sandbox_http.py:160-166 | the time told is the one the readmission theorem is about |
| RateLimit.RateLimiter.Prune | ops/yantraops/sandbox_http.py:129-138 | dead windows go, then the oldest until the cap holds |
| AlertDedup.AlertsAreEdges | connector/yantrabridge/translate.py:290-322 | a message raises an error key exactly if the robot's previous message did not carry it, and the battery exactly if it reads low and no earlier low reading is unrecovered |
| AlertDedup.LedgerIsHistory | connector/yantrabridge/translate.py:290-322 | a robot's active keys are those of its latest message, plus the battery key while it is held low |
| AlertDedup.BatteryAlertsAreSeparated | connector/yantrabridge/translate.py:311-320 | between two battery alerts of a robot lies a reading above threshold and hysteresis |
| AlertDedup.RobotsDoNotInterfere | connector/yantrabridge/translate.py:290-322 | any interleaving of robots gives each the alerts of its own messages alone |
| AlertDedup.RisingIsFirstAppearance | connector/yantrabridge/translate.py:297-305 | the error alerts of a message are its keys that were not active, each once |
| AlertDedup.AlertsInOrder | connector/yantrabridge/translate.py:290-322 | the list of alerts of a message, in order: one for each error whose key was neither active nor seen before in it, critical at FATAL, CRITICAL or URGENT; then one for a battery newly at or below the threshold, critical at ten or less |
| AlertDedup.PartsOfKey | connector/yantrabridge/translate.py:273-284 | an error without a type is unknown, one without a level a WARNING, and levels are compared in capitals |
| AlertDedup.KeysCollideExactly | connector/yantrabridge/translate.py:273-284 | two errors of different type or level share a key, and so an alert, if and only if, for some text x, the level of one is x, a colon and the other's level while the other's type is its own type, a colon and x |
| AlertDedup.AlertDeduper.Process | connector/yantrabridge/translate.py:273-322 | the loop over joined keys, the retiring of keys by their prefix and the battery branch in place |
| AlertDedup.Translator.FeedMany | connector/yantrabridge/translate.py:375-385 | one row per serial in order of first appearance with the last message winning, all alerts in order; a message without a serial aborts the batch after the ledger took its predecessors |
| AlertDedup.LatestIs | connector/yantrabridge/translate.py:375-385 | the row a batch keeps of a robot is its last message in it |
| AlertDedup.SerialsAppear | connector/yantrabridge/translate.py:375-385 | its rows come in the order in which the robots first appear, each once |
| LinearTrend.FitIsLeastSquares | detector/yantradetect/maintenance.py:69-87 | for every list with spread in x the fitted line is the unique line with the smallest sum of squared residuals |
| LinearTrend.CauchySchwarz | detector/yantradetect/maintenance.py:82-87 | sxy squared is at most sxx times syy over any list and about any centre |
| LinearTrend.CoefficientOfDetermination | detector/yantradetect/maintenance.py:86-87 | 0 <= r2 <= 1 always, and the fit leaves exactly the share 1 - r2 of the spread in y |
| LinearTrend.TrendIgnoresOrigin | detector/yantradetect/maintenance.py:214-224 | subtracting the first timestamp changes neither slope nor r2 |
| LinearTrend.ComputeTrend | detector/yantradetect/maintenance.py:69-87 | the accumulating passes compute the fit |
| MaintenanceFindings.MotorVerdict | detector/yantradetect/maintenance.py:212-237 | computable exactly with enough samples over positive time, crossed exactly on the raw-time fit, remaining life in 0.5 .. 60 days, confidence in 0.6 .. 0.95 |
| MaintenanceFindings.MotorNumbers | detector/yantradetect/maintenance.py:225-237 | remaining life is the days until the last temperature reaches the critical one at the fitted slope of the raw times, cut to 0.5 .. 60, and confidence 0.35 plus half of r2 plus 0.1 from ten samples on |
| MaintenanceFindings.FlatHasNoFit | detector/yantradetect/maintenance.py:225-229 | zero slope means zero r2, so the remaining life never divides by zero whatever the threshold |
| MaintenanceFindings.OneFindingPerStretch | detector/yantradetect/maintenance.py:179-208 | from any open findings, empty or read back, a component has an open finding exactly if its latest computable verdict is crossed or it has none yet and one was open; it is the one read back or dates from the first verdict of the stretch |
| MaintenanceFindings.ActionsAreEdges | detector/yantradetect/maintenance.py:179-208 | from any start, open and clear actions are the edges of the computable verdicts, cleared under the id opened or read back |
| MaintenanceFindings.MaintenanceEngine.SeedFrom | detector/yantradetect/maintenance.py:137-148 | restart in place: open rows are restored under robot and component, rows that name neither are passed over |
| MaintenanceFindings.SeedReads | detector/yantradetect/maintenance.py:137-148 | after a restart a component has the finding of its last readable row, that is one with a robot and one of the three components, dated from the row or else from now |
| FindingTable.StepAgrees | detector/yantradetect/maintenance.py:179-208 | from an agreement of open findings and open rows, a verdict keeps it if and only if it opens nothing under an id another component holds, and a restart always does |
| FindingTable.RunAgrees | detector/yantradetect/maintenance.py:137-208 | over every run of verdicts and restarts they agree after every event if and only if no verdict opened under an id another component held |
| FindingTable.CollisionBreaksAgreement | detector/yantradetect/maintenance.py:54-58 | and any two components with colliding ids give a run that ends in disagreement |
| MaintenanceFindings.MaintenanceEngine.Judge | detector/yantradetect/maintenance.py:179-208 | one verdict in place |
| Utilisation.Spans | e2e/fakerest.py:1450-1469 | grouping, sorting and capping in loops gives each robot's capped spans |
| Utilisation.BucketIs | e2e/fakerest.py:282-292 | which status counts as active, idle, charging or faulted |
| Utilisation.KeptExactly | e2e/fakerest.py:1450-1462 | exactly the samples of the site between the bounds are considered, in order |
| Utilisation.RowsExactly | e2e/fakerest.py:1450-1462 | each robot is given exactly its own samples, in order |
| Utilisation.SpanStandsFor | e2e/fakerest.py:1463-1470 | a sample stands for the time to the robot's next one or the end of the window, at most the cap and at least nothing |
| Utilisation.SamplesCounted | e2e/fakerest.py:1536-1541 | a row counts every span of its robot or period |
| Utilisation.CoveredTimeOfRobot | e2e/fakerest.py:1450-1469 | a robot's covered time is the window from its first sample less what gaps exceed the cap by, so at most the window |
| Utilisation.RollupConservesTime | e2e/fakerest.py:1528-1596 | the five buckets sum to the covered time, which is at most the window; utilisation and coverage lie in 0 .. 100 |
| Utilisation.FleetConservesTime | e2e/fakerest.py:1579-1596 | the fleet's line holds the time of all spans; its utilisation and its coverage of all robots' windows lie in 0 .. 100 |
| Utilisation.SeriesConservesTime | e2e/fakerest.py:1646-1667 | a row of the series holds its covered time less the other time in four buckets, and its utilisation lies in 0 .. 100 |
| Utilisation.ReportLosesNoTime | e2e/fakerest.py:1528-1596 | summed over its rows a report has in each column exactly the time of all spans |
| Utilisation.ReportsAgree | e2e/fakerest.py:1646-1667 | for one window and cap the periods of the series hold the same time, bucket by bucket, as the robots of the rollup |
| Utilisation.UtilizationRollup | e2e/fakerest.py:1515-1543 | refused for an empty window, otherwise a row for each robot with samples, totalling its spans under the effective cap |
| Utilisation.UtilizationSeries | e2e/fakerest.py:1619-1657 | refused for an empty window or an unknown kind of period, otherwise a row for each period with samples |
| DecideOnce.StepDecides | e2e/fakerest.py:731-759 | a command leaves pending exactly when its caller is told so, with that caller's verdict and name on the row |
| DecideOnce.MessageDecides | e2e/fakerest.py:2073-2101 | a message decides a command exactly if it is new and from a manager of the pending command's site |
| DecideOnce.MessageWrites | e2e/fakerest.py:1982-2102 | the tables after any message: an acknowledged alert, an incident assigned to the sender or by a manager to whom the note names, or a decided command with who, when and note, each under its exact condition, and nothing else |
| DecideOnce.MessageAnswers | e2e/fakerest.py:2003-2113 | the result told and logged of every new message: ok exactly if it did what it asked, unmapped, denied and invalid each under its exact condition, not found in all other cases; and the log grows by exactly its entry |
| DecideOnce.ConsoleWrites | e2e/fakerest.py:731-759 | a console decision writes status, who, when and a given note of a pending command exactly if it is allowed and says approved or rejected |
| DecideOnce.DecidedOnce | e2e/fakerest.py:731-759 | over any interleaving of console decisions and messages a decided row is never rewritten, and exactly one caller is told it decided |
| DecideOnce.RepetitionChangesNothing | e2e/fakerest.py:1966-1998 | repeating a message id after any calls changes nothing and reports the first outcome, detail and log id |
| DecideOnce.LogHoldsEachMessageOnce | e2e/fakerest.py:2103-2109 | the log only grows, by one entry per handled message, and holds no message id twice |
| DecideOnce.Backend.RpcDecideCommand | e2e/fakerest.py:731-759 | the console decision in place, refusals included |
| DecideOnce.Backend.RpcInboundPerform | e2e/fakerest.py:1966-2113 | the inbound entry point in place, every action and refusal |
| FloorAssignment.ScanIsComplete | ops/yantraops/sandbox.py:692-702 | the strided scan finds a node exactly if its pool has a free one |
| FloorAssignment.AssignGivesBest | ops/yantraops/sandbox.py:675-704 | while the fleet fits every robot gets a free node of the best kind that still has one, all distinct |
| FloorAssignment.ScanFindsFirst | ops/yantraops/sandbox.py:698-702 | of a pool the first free node is taken, three places further on for each robot and around its end |
| FloorAssignment.PreferenceIs | ops/yantraops/sandbox.py:667-673 | the order of node kinds each status prefers |
| FloorAssignment.DistinctIffItFits | ops/yantraops/sandbox.py:675-704 | the nodes are distinct if and only if the fleet is no bigger than the floor |
| FloorAssignment.Assign | ops/yantraops/sandbox.py:675-690 | the loop over the fleet with its set of taken nodes |
| FloorAssignment.Trail | ops/yantraops/sandbox.py:706-741 | the interpolated positions are straight motion at constant speed from the aisle's end, max(steps, 1) of them |
| FloorAssignment.TrailEndsAtNode | ops/yantraops/sandbox.py:706-741 | every trail ends at the robot's node |
| FloorAssignment.TrailBegins | ops/yantraops/sandbox.py:700-727 | an active robot has come along its aisle, even ones from the left end and odd ones from the right if they can; all others have stood still |
| Migration.ResumingEqualsOneRun | ops/yantraops/migrate.py:252-295 | after any number of interrupted runs one more run leaves the database of a single uninterrupted run: same records, same SQL in the same order |
| Migration.ExecutesPendingInOrder | ops/yantraops/migrate.py:252-295 | however a run ends it has executed exactly the pending ones of some first files, in filename order, and all that were pending if it reports success |
| Migration.SuccessIsComplete | ops/yantraops/migrate.py:264-295 | after a successful run, forced or not, an unforced run has nothing pending |
| Migration.RunExecutes | ops/yantraops/migrate.py:117-144 | however a run ends, what it executed is the SQL of exactly those of some first files that were not on record, or forced and recorded under another digest, in order; after success every file is on record, under its own digest if it was executed and as before otherwise, and no other record has changed |
| Migration.ChecksumKeeps | ops/yantraops/migrate.py:88-91 | the text behind a digest is the file's less every carriage return right before a line feed |
| Migration.SameDigest | ops/yantraops/migrate.py:88-91 | two texts have one digest exactly if they are equal up to line ends |
| Migration.Backend.Apply | ops/yantraops/migrate.py:181-192 | SQL and tracking row commit together or not at all |
| Migration.RunMigrate | ops/yantraops/migrate.py:252-295 | a run in place, failing and crashing where it may, ends in the database and the exit status `Migration.RunExecutes` describes |

## Left out

- FleetSim.Fleet.Tick: does not model the event list and low-battery flag, positions, heading, speed, motor
  temperature and health, header ids, throughput and the missions snapshot; they feed nothing back into the state.
- FleetSim.Robot.Publish: of a state message only the action states and the staged errors are modelled, not the
  other fields of the snapshot, and of an action state not its resultDescription.
- FleetSim.Fleet.SpawnMissions: mission names and start times are left out.
- FleetSim.Fleet.constructor: vendors, positions and the seeding of the generators are left out.
- IncidentEngine.IncidentDetector.OnBadRow: titles, impact texts and the flapping note are left out, and so is a
  flap count's effect on them; `Observe` is modelled for thresholds that stay fixed during one run of polls.
- IncidentTable.StepAgrees: a write that fails without a crash is not modelled; the sink logs it and goes on.
- CommandBridge.CommandPublisher.HandleState: is one state message while the poll thread is elsewhere; the two threads
  together are covered action by action (`StateAction`, `EveryInterleavingIsSafe`).
- CommandBridge.CommandPublisher.Poll: payloads, topics, header ids and the manufacturer lookup are one arbitrary
  answer whether a row can be routed and published; `publish_order` touches neither table and is left out.
- Notifier.Dispatcher.Dispatch: the state file and the rendering of digests are left out.
- AlertDedup.AlertDeduper.Process: alert ids and texts are left out; of the translated robot row only its message
  is kept, since the row is computed from that message alone.
- MaintenanceFindings.MotorVerdict: finding texts and rounding are left out; the battery and drivetrain metrics,
  which have the same shape without a fit, are an arbitrary verdict.
- FindingTable.StepAgrees: a write that fails without a crash is not modelled, and neither is a restart that cannot
  read the open rows and so begins empty.
- Utilisation.Spans: samples without a time, rounding, first and last timestamps, task deltas and the cost rows are
  left out; the truncation of a time to its hour, day or week is an arbitrary function.
- DecideOnce.Backend.RpcInboundPerform: the payload of a reply and the role lookup are left out; the sender and its
  rank are an arbitrary input of each call, and tables hold one row per id.
- FloorAssignment.Trail: rounding to centimetres is left out.
- Migration.RunMigrate: discovery of files, opt-in markers, printing and the connection are left out; the digest of
  a file is its newline-normalised text.
- The in-flight counter and mint ceiling of the sandbox service, demo minting and reaping, and the general `insert`
  and `patch` of the embedded backend beyond the incidents table: single-step bookkeeping.
- The importer and the academy content validator: single passes over files that would only add easy members.
- The copilot, the console, settings sync and role checks.
- The renaming of simulator robots for sandboxes, which breaks the crew names the mission pool relies on.
