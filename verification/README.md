# Game of Drones — a verified model of the simulator and the task-based player

Game of Drones is a turn-based contest on a 4000 × 1800 field. Each team
moves its drones up to 100 units per turn. Circular zones of radius 100 are
owned by the team with the most drones inside, and the incumbent keeps a
zone on a tie. Every turn each team scores one point per zone it owns, and
a match lasts 200 turns.

This project models in Dafny:

- the referee (`ClientSimulator`) and the data model it runs on;
- the integer geometry and selection helpers;
- the decision pipeline of the task-based player:
  - the activity observer guesses what enemy drones are doing;
  - two task organizers turn zones into tasks;
  - two allocators hand drones to tasks;
  - the commander turns tasks into destinations.

Modules, one per file:

| module | file | models |
|---|---|---|
| `Core` | core.dfy | points, drones (the `Position` setter), zones, teams, the game context and its constants |
| `Helpers` | helpers.dfy | `MinBy`/`MaxBy`/`IndexOfMax`, `DotProduct`, `Contains`, `IsInField`, the axis-aligned moves, `GetMedianPoint`, `GetDronesOfOtherTeams`, `OrderBy` |
| `ClientSimulator` | simulator.dfy | `Initialize`, `Update` (movement, ownership, scoring, turn counter), `HasFinished`, `WinnerId` |
| `Tasks` | tasks.dfy | task types, importance levels, tasks and the per-zone view of drones the organizers share |
| `OneTaskPerZone` | one_task_per_zone.dfy | the attack/defense wave simulations and their per-squad aggregation |
| `MultiTasksPerZone` | multi_tasks_per_zone.dfy | presence timelines, `calculateMyScore`, added values and task emission |
| `DronePool` | drone_pool.dfy | the pool of free drones the allocators draw from, nearest first |
| `PriorityAllocator` | priority_allocator.dfy | `PriorityBasedDroneAllocator` (two teams or fewer) |
| `FocusedAllocator` | focused_allocator.dfy | `FocusedDroneAllocator` (more than two teams) |
| `Commander` | commander.dfy | `BasicDroneCommander.SetDroneDestinations` |
| `ActivityObserver` | activity_observer.dfy | `BasicDroneActivityObserver` target and intent guessing |

Modelling choices:

- **Distances.** Every Euclidean comparison is made on exact squared integer
  distances (`DistSq`). The source takes a double square root of an integer
  sum of squares; the root is monotone, so order and ties are unchanged.
  `distance < 2` becomes `DistSq < 4`, and `Contains` becomes `DistSq <= 100²`.
- **Inputs instead of floating point.** Drone ETAs to a zone are given naturals.
  The distance-to-line test of the observer is a predicate parameter
  (`nearLine`). The diagonal branches of `GetReachablePoint` and
  `GetIntermediatePoint` are function parameters (`diagonal`). The allocators
  receive their tasks already sorted by priority.
- **Allocations are values.** An allocator returns, for each of my drones, the
  index of its task in the sorted task sequence, or `None`. `None` stands for
  `CurrentTask` being null after the reset.
- **Waves.** The wave loops of the one-task organizer are modelled as a scan
  over every turn 0..15 with cumulative counts. A turn without drones changes
  no count and cannot decide, so this matches the loop over the waves present.
  `AttackTurnIsAWave` and `DefenseTurnIsAWave` prove that the deciding turn is
  a real wave.
- **Zone order.** Zones are processed in list order. The organizers and the
  observer run a `foreach` over an `AsParallel()` query. The loop body runs
  on the enumerating thread, one element at a time, but an unordered
  parallel query may deliver the elements in any order. The one-task
  organizer updates tasks it built in zone order, so its result order is
  fixed. The multi-task organizer appends each zone's tasks as the zone
  arrives, so the order of its tasks across zones is not fixed.

Behaviours of the code worth noting:

- A defense that never fails returns the enemy count accumulated up to turn
  15, not 0 (GameOfDrones.Players/TaskBasedPlayer.cs:377).
- The priority allocator's leftover pass is a single sweep that gives each
  task at most one more drone.
- `Initialize` assigns `Position = PreviousPosition = start`. The `Position`
  setter runs last, so `PreviousPosition` ends up holding the drone's position
  from before the call, not the starting point.
- The axis-aligned branches of `GetReachablePoint` clamp to `FieldWidth` and
  `FieldHeight` inclusive, so they can return a point that `IsInField`
  rejects.

## Model

| member | source | states |
|---|---|---|
| Core.SetPosition | GameOfDrones.Core/CoreClasses.cs:36-44 | setting the position stores the old position as previous and keeps the drone's ids |
| Core.SetPositionTwice | GameOfDrones.Core/CoreClasses.cs:36-44 | after two assignments, the previous position is the first value assigned |
| Core.NewZone | GameOfDrones.Core/CoreClasses.cs:51-61 | a new zone has no owner (owner id -1) and keeps its id and centre |
| Core.NewTeam | GameOfDrones.Core/CoreClasses.cs:66-71 | a team built with n drones has exactly n, drone j has id j, and every drone carries the team id |
| Core.NewGameContext | GameOfDrones.Core/CoreClasses.cs:79-87 | a new context has 200 remaining turns |
| Helpers.MinByIndex | GameOfDrones.Helpers/HelperClasses.cs:59-85 | the chosen element's key is no greater than any other key, and strictly smaller than every key before it (first minimum wins) |
| Helpers.MinBy | GameOfDrones.Helpers/HelperClasses.cs:53-85 | no result exactly on the empty sequence (where the source throws); otherwise an element of the sequence |
| Helpers.MaxByIndex | GameOfDrones.Helpers/HelperClasses.cs:25-51 | the chosen element's key is no smaller than any other, and strictly larger than every key before it |
| Helpers.MaxBy | GameOfDrones.Helpers/HelperClasses.cs:19-51 | no result exactly on the empty sequence; otherwise an element of the sequence |
| Helpers.IndexOfMax | GameOfDrones.Helpers/HelperClasses.cs:87-90 | the lowest index holding the maximal value; none for an empty list |
| Helpers.DotProductProperties | GameOfDrones.Helpers/HelperClasses.cs:109-116 | the product of the two displacement vectors is symmetric, and a vector with itself gives its squared length, which is non-negative (the step AheadIsAcuteAngle builds on) |
| Helpers.ContainsBoundaryInclusive | GameOfDrones.Helpers/HelperClasses.cs:264-267 | a point exactly 100 from the centre is inside, one at 101 is not, the centre is inside |
| Helpers.ContainsOnAxis | GameOfDrones.Helpers/HelperClasses.cs:264-267 | on the centre's horizontal line, containment is exactly \|dx\| ≤ 100 |
| Helpers.GetReachablePoint | GameOfDrones.Helpers/HelperClasses.cs:156-213 | a vertical move keeps x, a horizontal move keeps y, and any other move is the diagonal step |
| Helpers.ReachableVertical | GameOfDrones.Helpers/HelperClasses.cs:158-165 | a vertical move never passes the destination, moves at most 100, stays in [0, 1800], and returns the destination itself when it is within 100 and in range |
| Helpers.ReachableHorizontal | GameOfDrones.Helpers/HelperClasses.cs:167-174 | the same for horizontal moves in [0, 4000] |
| Helpers.ReachableCanLeaveField | GameOfDrones.Helpers/HelperClasses.cs:156-174 | the inclusive clamps yield x = 4000 or y = 1800, points outside the half-open field |
| Helpers.GetIntermediatePoint | GameOfDrones.Helpers/HelperClasses.cs:215-246 | a non-axis case is the diagonal step |
| Helpers.IntermediateOnAxis | GameOfDrones.Helpers/HelperClasses.cs:217-233 | on an axis, the point stays on the same line, exactly d from the destination, on the position's side; coincident points give (x, y + d) |
| Helpers.BorderPointOnAxisInsideZone | GameOfDrones.Helpers/HelperClasses.cs:253-256 | on an axis, the border point is exactly 95 from the centre and so inside the zone |
| Helpers.GetMedianPoint | GameOfDrones.Helpers/HelperClasses.cs:248-251 | the truncated mean lies in every box with non-negative lower corner holding all the points |
| Helpers.MedianOfFieldPointsInField | GameOfDrones.Helpers/HelperClasses.cs:248-262 | the median of points on the field is on the field |
| Helpers.GetDronesOfOtherTeams | GameOfDrones.Helpers/HelperClasses.cs:279-282 | a drone is in the result exactly when it belongs to a team with another id |
| Helpers.OtherTeamsExcludeTeam | GameOfDrones.Helpers/HelperClasses.cs:279-282 | with well-formed teams, no drone of the given team is in the result |
| Helpers.SortBy | GameOfDrones.Players/TaskBasedPlayer.cs:786 | OrderBy: a permutation of the input, sorted by ascending key |
| ClientSimulator.PlaceTeam | GameOfDrones.Simulator/ClientSimulator.cs:70-72 | drone j is placed at start point j, and its previous position is its position before the call |
| ClientSimulator.Initialize | GameOfDrones.Simulator/ClientSimulator.cs:65-80 | zones become unowned with id and centre kept, scores are all 0 with one per team, 200 turns remain, drones are placed, and the context stays well formed |
| ClientSimulator.MoveTeam | GameOfDrones.Simulator/ClientSimulator.cs:89-94 | each drone moves to the reachable point toward its destination, and its previous position becomes the old position |
| ClientSimulator.MoveDrones | GameOfDrones.Simulator/ClientSimulator.cs:86-95 | every drone of every team moves toward destinations[team id][drone id]; rosters and ids are unchanged |
| ClientSimulator.ResolveOwner | GameOfDrones.Simulator/ClientSimulator.cs:98-107 | an empty zone keeps its owner; the incumbent keeps the zone on a tie; the owner changes only to a strictly larger count; a new owner is the lowest team id with the maximal count |
| ClientSimulator.ResolveZones | GameOfDrones.Simulator/ClientSimulator.cs:97-107 | every zone is resolved on the counts after movement, and owners stay valid team ids or -1 |
| ClientSimulator.AddZoneScores | GameOfDrones.Simulator/ClientSimulator.cs:109-112 | each team's score grows by exactly the number of zones it owns; unowned zones score nothing |
| ClientSimulator.Update | GameOfDrones.Simulator/ClientSimulator.cs:82-115 | one turn moves, resolves ownership on the new positions, adds scores, decrements the turn counter by one, and keeps the state valid |
| ClientSimulator.WinnerId | GameOfDrones.Simulator/ClientSimulator.cs:119 | the lowest team id with the maximal score |
| ClientSimulator.Run | GameOfDrones.Simulator/ClientSimulator.cs:114 | n updates decrement the counter by n and keep the state valid |
| ClientSimulator.MatchLastsMaxTurns | GameOfDrones.Simulator/ClientSimulator.cs:65-117 | after Initialize, the match has finished exactly when at least 200 updates have run |
| OneTaskPerZone.CountUpToStep | GameOfDrones.Players/TaskBasedPlayer.cs:331-332 | the cumulative count through turn t adds the wave at t to the count through t-1 |
| OneTaskPerZone.AttackFrom | GameOfDrones.Players/TaskBasedPlayer.cs:310-335 | the scan finds the first winning turn; on success it asks for the cumulative enemies + 1; otherwise it reports 0 at turn 15 |
| OneTaskPerZone.CalculateRequiredDronesForAttack | GameOfDrones.Players/TaskBasedPlayer.cs:296-336 | success is the first turn ≤ 15 where cumulative allies exceed cumulative enemies; then enemies < required = enemies + 1 ≤ allies; otherwise required 0 and turns 15 |
| OneTaskPerZone.AttackTurnIsAWave | GameOfDrones.Players/TaskBasedPlayer.cs:306-329 | a successful turn is the ETA of some drone |
| OneTaskPerZone.SingleDroneTakesEmptyZone | GameOfDrones.Players/TaskBasedPlayer.cs:296-336 | one own drone at ETA 0 and no enemies gives (1 drone, turn 0) |
| OneTaskPerZone.DefenseFrom | GameOfDrones.Players/TaskBasedPlayer.cs:352-377 | the scan finds the first failing turn and returns the allies accumulated before it; otherwise the enemy total through turn 15 |
| OneTaskPerZone.CalculateRequiredDronesForDefense | GameOfDrones.Players/TaskBasedPlayer.cs:338-378 | failure is the first turn ≤ 15 where cumulative allies fall below cumulative enemies, reported with the allies before it; a defense that never fails reports the enemies through turn 15 and turns 15 |
| OneTaskPerZone.DefenseTurnIsAWave | GameOfDrones.Players/TaskBasedPlayer.cs:348-371 | a failing turn is the ETA of some drone |
| OneTaskPerZone.SafeDefenseReportsEnemies | GameOfDrones.Players/TaskBasedPlayer.cs:377 | two defenders at ETA 0 against one enemy at 4 report 1 required, not 0, at turn 15 |
| OneTaskPerZone.SquadIds | GameOfDrones.Players/TaskBasedPlayer.cs:427-430 | the squads are exactly the team ids present among the drones |
| OneTaskPerZone.AggregateAttack | GameOfDrones.Players/TaskBasedPlayer.cs:432-447 | the result is the initial outcome or some squad's; it is at least as late as each squad's turn, and on equal turns at least as large |
| OneTaskPerZone.AggregateDefense | GameOfDrones.Players/TaskBasedPlayer.cs:462-477 | the result is some squad's outcome; it is at least as early as each squad's turn, and on equal turns at least as large; none only without squads |
| OneTaskPerZone.Relevant | GameOfDrones.Players/TaskBasedPlayer.cs:416-419 | keeps every copy of each drone that is within 3 turns, or guessed to act with the given intent on this zone, and drops every other drone |
| OneTaskPerZone.OfTeam | GameOfDrones.Players/TaskBasedPlayer.cs:416-430 | keeps every copy of each drone of the owner (or of each drone of another team), and drops the rest |
| OneTaskPerZone.AttackPlan | GameOfDrones.Players/TaskBasedPlayer.cs:414-449 | the attack demands at least as much as the attack on the owner's relevant defenders and on every other relevant attacking squad, and is one of those attacks |
| OneTaskPerZone.AttackOverSquads | GameOfDrones.Players/TaskBasedPlayer.cs:427-447 | raising a first outcome by every squad's attack gives an outcome demanding at least each of them, equal to the first or to some squad's attack |
| OneTaskPerZone.DefensePlan | GameOfDrones.Players/TaskBasedPlayer.cs:452-480 | the defense demands at least as much as the defense against every relevant attacking squad, and is one of those defenses; without attackers, 0 drones and 15 turns |
| OneTaskPerZone.DefenseOverSquads | GameOfDrones.Players/TaskBasedPlayer.cs:454-479 | the worst defense over the squads: at least each squad's demand and equal to some squad's defense; with no squad, 0 drones and 15 turns |
| OneTaskPerZone.DefineZoneTask | GameOfDrones.Players/TaskBasedPlayer.cs:387-481 | the task kind follows ownership; the payoff is (15 − turns)/15 for Attack and turns/15 for Defend, always in [0, 1] |
| OneTaskPerZone.UnattackedZoneIsSafe | GameOfDrones.Players/TaskBasedPlayer.cs:452-480 | an owned zone with no relevant attacker needs 0 drones with payoff 1 |
| OneTaskPerZone.DefineTasks | GameOfDrones.Players/TaskBasedPlayer.cs:380-485 | one task per zone, in zone order, on that zone; Defend exactly on my zones; every payoff in [0, 1] |
| MultiTasksPerZone.AddArrivals | GameOfDrones.Players/TaskBasedPlayer.cs:591-596 | each drone adds one presence for its team at every turn from its ETA to 24 |
| MultiTasksPerZone.ScanMax | GameOfDrones.Players/TaskBasedPlayer.cs:562-579 | the team scan reports uniqueness exactly when the reported team has strictly more drones than every other |
| MultiTasksPerZone.UniqueMax | GameOfDrones.Players/TaskBasedPlayer.cs:562-579 | the reported team is unique exactly when it is the strict maximum, and any strict maximum is the reported team |
| MultiTasksPerZone.OwnerChangesOnlyAtUniqueMax | GameOfDrones.Players/TaskBasedPlayer.cs:581-582 | the owner changes only at a turn with a unique maximum presence, and then becomes that team; on any tie it is unchanged |
| MultiTasksPerZone.TurnsOwned | GameOfDrones.Players/TaskBasedPlayer.cs:584-585 | the turns owned among the first n number at most n |
| MultiTasksPerZone.ScoreFrom | GameOfDrones.Players/TaskBasedPlayer.cs:560-588 | the turn loop, carrying owner and score, counts the turns of the 25 at which my team owns the zone |
| MultiTasksPerZone.CalculateMyScore | GameOfDrones.Players/TaskBasedPlayer.cs:555-589 | the score is the number of turns 0..24 my team owns the zone, hence in [0, 25] |
| MultiTasksPerZone.MajorityEverywhereScoresAll | GameOfDrones.Players/TaskBasedPlayer.cs:555-589 | a strict majority at every turn scores all 25 turns |
| MultiTasksPerZone.RelevantEnemies | GameOfDrones.Players/TaskBasedPlayer.cs:540-541 | keeps every copy of each enemy within 25 turns that is within 3, or within 12 and heading here or of unknown intent, and drops the rest |
| MultiTasksPerZone.Reachable | GameOfDrones.Players/TaskBasedPlayer.cs:529 | keeps every copy of each ETA of mine within 25 turns and drops the rest |
| MultiTasksPerZone.ScorePerInvolvedDrones | GameOfDrones.Players/TaskBasedPlayer.cs:549-606 | one score per number of my drones from 0 to all, each in [0, 25], and 0 past the drones within reach |
| MultiTasksPerZone.EnemyTimeline | GameOfDrones.Players/TaskBasedPlayer.cs:591-596 | before my drones are added, each team's presence at turn t is the number of its relevant enemies with ETA at most t |
| MultiTasksPerZone.BoostKeepsOwnership | GameOfDrones.Players/TaskBasedPlayer.cs:562-585 | if my team owns the zone at a turn, it still does when my presences grow and no other team's change |
| MultiTasksPerZone.BoostKeepsScore | GameOfDrones.Players/TaskBasedPlayer.cs:555-589 | growing my presences alone never lowers the number of turns I own |
| MultiTasksPerZone.OneMoreDroneNeverLowersScore | GameOfDrones.Players/TaskBasedPlayer.cs:600-605 | adding one more drone of mine to the timeline never lowers my score |
| MultiTasksPerZone.MoreDronesNeverLowerScore | GameOfDrones.Players/TaskBasedPlayer.cs:598-609 | while drones within reach remain, the score with k+1 drones is at least the score with k, so each added value is exactly the gain over the previous count |
| MultiTasksPerZone.AddedValues | GameOfDrones.Players/TaskBasedPlayer.cs:609 | the first added value is the score with no drone; a later one is positive exactly when the score improves on the previous count, and then it is the improvement |
| MultiTasksPerZone.PositiveFrom | GameOfDrones.Players/TaskBasedPlayer.cs:612-614 | exactly the indices with a positive added value, increasing |
| MultiTasksPerZone.TasksFromScores | GameOfDrones.Players/TaskBasedPlayer.cs:612-624 | a task for n drones is emitted exactly when the score with n improves on n − 1 (or the first score is positive); its gain is score[n]; requirements increase |
| MultiTasksPerZone.TaskGainsBounded | GameOfDrones.Players/TaskBasedPlayer.cs:620 | every gain lies in [0, 25] |
| MultiTasksPerZone.DefineZoneTasks | GameOfDrones.Players/TaskBasedPlayer.cs:519-624 | tasks are Defend on my zones and Attack elsewhere, require at most my drone count, and come in increasing requirement |
| MultiTasksPerZone.DefineTasks | GameOfDrones.Players/TaskBasedPlayer.cs:510-633 | a task is emitted exactly when it is one of the tasks of some zone; every task is on one of the zones, Defend when I own that zone and Attack otherwise |
| DronePool.CountUpdate | GameOfDrones.Players/TaskBasedPlayer.cs:711-713 | changing one drone's task moves exactly one drone between the two counts |
| DronePool.Nearest | GameOfDrones.Players/TaskBasedPlayer.cs:711 | a position in the free list whose drone is no farther from the target than any other free drone, and strictly nearer than every free drone listed before it |
| DronePool.AssignNearest | GameOfDrones.Players/TaskBasedPlayer.cs:710-714 | the nearest free drone leaves the pool and takes the task; it was free and is no farther from the target than any drone still free; the task's count rises by one, and no other drone or count changes |
| DronePool.ServeTask | GameOfDrones.Players/TaskBasedPlayer.cs:704-715 | a task gains min(required, free) drones and nothing else changes count; only free drones are taken, and each is no farther from the task's zone than any drone left free |
| DronePool.ServedByNearestAfter | GameOfDrones.Players/TaskBasedPlayer.cs:704-729 | if every drone with a task is no farther from its zone than every free drone, this survives taking free drones that are each no farther from their task's zone than the drones left free |
| DronePool.NearestInTaskOrderStep | GameOfDrones.Players/TaskBasedPlayer.cs:704-715 | picking task i's drones, each the nearest still free, after earlier tasks took theirs keeps the picks in task order: a drone given task a is no farther from a's zone than any drone left free or given a later task |
| DronePool.TwoZonesInTaskOrder | GameOfDrones.Players/TaskBasedPlayer.cs:710-713 | with two one-drone tasks and a drone on each zone centre, picks in task order give each drone the task on its own zone |
| PriorityAllocator.PriorityImportance | GameOfDrones.Players/TaskBasedPlayer.cs:654-667 | with no zone, Medium/Medium; with zones but no team, defense Low and attack High; the two importances always balance (ranks sum to 2) |
| PriorityAllocator.PriorityImportanceOnIntegers | GameOfDrones.Players/TaskBasedPlayer.cs:654-667 | defense is High exactly when 10·owned·teams > 8·zones, attack High exactly when < 4·zones |
| PriorityAllocator.PriorityImportanceMonotone | GameOfDrones.Players/TaskBasedPlayer.cs:654-667 | owning more zones never lowers defense nor raises attack importance |
| PriorityAllocator.Grant | GameOfDrones.Players/TaskBasedPlayer.cs:692-715 | a task receives no more than required or free, and all it requires when enough drones are free |
| PriorityAllocator.EnoughDronesServeEveryTask | GameOfDrones.Players/TaskBasedPlayer.cs:688-716 | when the drones cover every requirement, the main pass skips nothing and each task gets exactly its requirement |
| PriorityAllocator.RunMainPass | GameOfDrones.Players/TaskBasedPlayer.cs:684-716 | after resetting every drone, each task gets its main-pass share, the pool holds the leftover, and every drone with a task is no farther from its task's zone than any free drone; the tasks took their drones in task order, so a drone serving task a is no farther from task a's zone than any drone left free or given a later task |
| PriorityAllocator.Sweep | GameOfDrones.Players/TaskBasedPlayer.cs:718-729 | the single leftover sweep gives one drone to each of the first min(leftover, tasks) tasks and leaves the rest free; only free drones are taken, each no farther from its task's zone than the drones still free, and in task order: a drone swept for task a is no farther from task a's zone than any drone swept for a later task |
| PriorityAllocator.AllocatePriority | GameOfDrones.Players/TaskBasedPlayer.cs:684-729 | task j's drones are its main-pass share plus one if j is below the leftover; no drone gets two tasks; drones beyond the sweep stay without a task; no drone without a task is nearer to a task's zone than a drone serving it; within the main pass and within the sweep each task's drones are no farther from its zone than the drones later tasks take (`main` is the assignment after the main pass) |
| PriorityAllocator.DroneOnZoneServesIt | GameOfDrones.Players/TaskBasedPlayer.cs:684-729 | for two one-drone tasks with a drone on each zone centre, every result meeting AllocatePriority's contract gives drone 0 task 0 and drone 1 task 1 |
| FocusedAllocator.CeilDiv | GameOfDrones.Players/TaskBasedPlayer.cs:747 | the least count of b covering a |
| FocusedAllocator.ZonesToTargetCount | GameOfDrones.Players/TaskBasedPlayer.cs:747 | 1 + ⌈zones/teams⌉ |
| FocusedAllocator.FocusedImportance | GameOfDrones.Players/TaskBasedPlayer.cs:749-764 | defense High and attack Low when owned > target; High/Medium when owned = target; Medium/High when owned < target |
| FocusedAllocator.FocusedImportanceMonotone | GameOfDrones.Players/TaskBasedPlayer.cs:749-764 | owning more zones never lowers defense nor raises attack importance |
| FocusedAllocator.ZonesToTarget | GameOfDrones.Players/TaskBasedPlayer.cs:781-791 | with owned zones, the min(target, zones) zones nearest the median of their centres, nearest first; otherwise all zones |
| FocusedAllocator.AllocateFocused | GameOfDrones.Players/TaskBasedPlayer.cs:796-821 | the served tasks are exactly those of ChosenUpTo: a task is served exactly when its zone is targeted and not yet served, fewer than target zones are served, a drone is free and at least its requirement is free, given the tasks served before it; each served task gets exactly its requirement and every other task none; all other drones stay free (no leftover pass); no free drone is nearer to a task's zone than a drone serving it, and a served task's drones are no farther from its zone than the drones of any later served task |
| FocusedAllocator.AllocateDronesToTasks | GameOfDrones.Players/TaskBasedPlayer.cs:742-822 | the same, with the target count and the targeted zones computed from the context |
| FocusedAllocator.ChosenUpTo | GameOfDrones.Players/TaskBasedPlayer.cs:807-821 | the reference choice: every chosen index is below i, at most target tasks are chosen, and they require no more than the drones there are |
| FocusedAllocator.ChosenStays | GameOfDrones.Players/TaskBasedPlayer.cs:807 | once the target is met or every drone is taken, no later task is chosen (the loop's early exit) |
| FocusedAllocator.ChosenExtends | GameOfDrones.Players/TaskBasedPlayer.cs:807-821 | the choice among the first i tasks is a prefix of the choice among the first j, extended only by tasks from i on |
| FocusedAllocator.ChosenExactly | GameOfDrones.Players/TaskBasedPlayer.cs:807-821 | task i is chosen exactly when, given the tasks chosen before it, its zone is targeted and not yet served, fewer than target zones are served, a drone is free and at least its requirement is free |
| FocusedAllocator.OneTaskPerTargetedZone | GameOfDrones.Players/TaskBasedPlayer.cs:810-821 | of two one-drone tasks on one targeted zone, with two drones, the first is served and the second passed over as its zone is already served |
| FocusedAllocator.BothTargetedTasksChosen | GameOfDrones.Players/TaskBasedPlayer.cs:807-821 | two one-drone tasks on two targeted zones, with two drones and a target of two, are both served |
| FocusedAllocator.FocusedDroneOnZoneServesIt | GameOfDrones.Players/TaskBasedPlayer.cs:807-821 | for the same two tasks with a drone on each zone centre, every result meeting AllocateFocused's contract serves both and gives each drone the task on its own zone |
| Commander.PatrolPoint | GameOfDrones.Players/TaskBasedPlayer.cs:841-844 | (2000, 900) when I own no zone, otherwise a point within the bounding box of my zones' centres |
| Commander.PatrolPointInField | GameOfDrones.Players/TaskBasedPlayer.cs:841-844 | with zone centres on the field, the patrol point is on the field |
| Commander.DroneDestination | GameOfDrones.Players/TaskBasedPlayer.cs:848-860 | a defender inside its zone stays put; any other task heads to the zone border point; no task goes on patrol |
| Commander.TaskedDroneHeadsIntoZone | GameOfDrones.Players/TaskBasedPlayer.cs:851-854 | a tasked drone staying put or level with the centre on an axis is sent to a point inside its zone |
| Commander.SetDroneDestinations | GameOfDrones.Players/TaskBasedPlayer.cs:839-862 | each drone's destination follows its own task |
| ActivityObserver.FirstContaining | GameOfDrones.Players/TaskBasedPlayer.cs:226 | the first zone containing the point, and none only when no zone contains it |
| ActivityObserver.Candidates | GameOfDrones.Players/TaskBasedPlayer.cs:234-238 | exactly the zones near the line of travel and ahead of the drone |
| ActivityObserver.CandidatesKeepOrder | GameOfDrones.Players/TaskBasedPlayer.cs:234-238 | the candidates keep zone order: those of a + b are those of a followed by those of b, and a single zone is kept exactly when it passes the test |
| ActivityObserver.AheadIsAcuteAngle | GameOfDrones.Players/TaskBasedPlayer.cs:236 | a zone centre passes the ahead test exactly when the angle between the move and the centre, at the previous position, is acute (law of cosines on squared distances) |
| ActivityObserver.AheadOnLineOfTravel | GameOfDrones.Players/TaskBasedPlayer.cs:234-238 | a centre on the line of a drone that moved, at parameter t along the move, is a candidate exactly when it is near the line and t > 0; zones level with or behind the start are never candidates |
| ActivityObserver.NearestCandidate | GameOfDrones.Players/TaskBasedPlayer.cs:234-247 | the nearest candidate, the first in zone order among equally near ones; none exactly when no zone is a candidate |
| ActivityObserver.GuessTarget | GameOfDrones.Players/TaskBasedPlayer.cs:221-255 | a resting drone targets the first zone it stands in; a moving one targets the nearest candidate, the first in zone order among equally near ones, and none only without candidates |
| ActivityObserver.GuessIntent | GameOfDrones.Players/TaskBasedPlayer.cs:257-260 | Unknown exactly without a target, Defend exactly when the target is owned by the drone's team, Attack otherwise |
| ActivityObserver.Observe | GameOfDrones.Players/TaskBasedPlayer.cs:218-260 | the observed intent is GuessIntent of the guessed target and the observed target is that zone's id; Unknown exactly without a target; a target is one of the zones |
| ActivityObserver.RestingInOwnZoneDefends | GameOfDrones.Players/TaskBasedPlayer.cs:222-260 | a drone resting in a zone its team owns, and in no earlier zone, is seen defending it |
| ActivityObserver.RestingOutsideZonesIsUnknown | GameOfDrones.Players/TaskBasedPlayer.cs:222-258 | a drone resting outside every zone has an unknown intent |

## Left out

- `ClientSimulator.GenerateContext`: random zone and start placement with `System.Random`. Zones, teams and start points are inputs.
- The diagonal branches of `GetReachablePoint` and `GetIntermediatePoint` (slope, square root, double truncation) are function parameters. Only the axis-aligned branches are stated.
- `DistanceToLine` and `RespectiveDistancesToLine` (floating point) are the observer's `nearLine` parameter.
- `BasicZoneEvaluator` and the zones' strategic values: floating point, and they feed only the priority formulas.
- The task priority formulas of both allocators (`Math.Pow`, doubles) are left out. Tasks arrive already sorted by priority.
- The ETA formula `ceil(max(0, distance − 100) / 100)` uses a floating-point square root. ETAs are given naturals.
- Players, their `Play` calls and the stdin/stdout contest protocol: the simulator receives each turn's destinations as input.
- ClientSimulator.Update: requires one destination list per team, each with at least one point per drone of that team (`Shaped`), and so do `MoveDrones` and `Run`. The source indexes `droneDestinations[team.Id][drone.Id]` and throws when a team has no player (`KeyNotFoundException`) or a player returns too few points (`IndexOutOfRangeException`); those exceptions are not modelled.
- Logging through `TextWriter`.
- The delivery order of `AsParallel` queries: zones and enemy drones are visited in list order.
- Helpers.SortBy: the stability of `OrderBy` is not stated; only sortedness and permutation are proved.
- PriorityAllocator.PriorityImportance: the comparisons are exact rationals. The source compares doubles, and rounding could flip a case where the owned ratio equals 0.8/teams or 0.4/teams.
- PriorityAllocator.AllocatePriority: when two free drones are equally near a task's zone, the contract does not say which one the task takes. Each pick (`DronePool.AssignNearest`) takes the first such drone in pool order, as `MinBy` does, but the contracts of the whole allocation state only distances. The same holds for FocusedAllocator.AllocateFocused.
- FocusedAllocator.AllocateDronesToTasks: requires at least one team. With no team, the source divides by zero and casts an infinite double to `int`, which is unspecified; its caller only uses it with more than two teams.
- MultiTasksPerZone.DefineTasks: does not state the order of tasks across zones. The source appends them in the order an unordered parallel query delivers the zones, which is not fixed.
- OneTaskPerZone.DefineZoneTask: requires at least one drone of mine, as do the simulations and plans it uses. The attack simulation reads my team id from my first drone, so the source throws on an empty list. A defended zone with no relevant attacker would not throw there; that case is not modelled.
- FocusedAllocator.AllocateFocused: tasks are matched to targeted zones by zone value. The source compares `ZoneInfo` references, and `AssociatedZone == zone` compares `Zone` references; distinct zones always differ by id, so the two agree.
