/**
 The records the task-based player shares between its stages: task types,
 importance levels, tasks, and what a player knows of each drone with respect
 to one zone.
 */
module Tasks {
  import opened Core

  datatype TaskType = Attack | Defend | Unknown

  /** Importance / strategic-value tier; `Rank` is its numeric value in the source's enum. */
  datatype Level = Low | Medium | High

  function Rank(l: Level): nat
  {
    match l
    case Low => 0
    case Medium => 1
    case High => 2
  }

  /** The importance an allocator gives to defending and to attacking. */
  datatype Importance = Importance(defense: Level, attack: Level)

  /**
   A task on a zone: its type, the drones it requires and its expected gain
   (a payoff in [0, 1] for the one-task organizer, a score in turns for the
   multi-task one).
   */
  datatype Task = Task(kind: TaskType, zone: Zone, required: nat, gain: real)

  /** An enemy drone as seen from one zone: its team, its ETA and the intent the observer guessed. */
  datatype EnemyDrone = EnemyDrone(teamId: int, eta: nat, intent: TaskType, target: Option<int>)

  /** One zone with my drones' ETAs to it and the enemy drones as seen from it. */
  datatype ZoneView = ZoneView(zone: Zone, myEtas: seq<nat>, enemies: seq<EnemyDrone>)

  /** Centres of the zones my team owns, in zone order. */
  function OwnedCenters(zones: seq<Zone>, me: int): (r: seq<Point>)
    ensures forall p :: p in r <==> exists z :: z in zones && z.ownerId == me && z.center == p
  {
    if |zones| == 0 then []
    else
      assert forall z :: z in zones ==> z == zones[0] || z in zones[1..];
      (if zones[0].ownerId == me then [zones[0].center] else []) + OwnedCenters(zones[1..], me)
  }
}
