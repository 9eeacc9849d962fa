/**
 The data model of the game: points, drones, zones, teams and the game
 context, with the constants every other module shares.
 */
module Core {

  const FieldWidth: int := 4000
  const FieldHeight: int := 1800
  const MaxTurns: int := 200
  const MaxMoveDistance: int := 100
  const ZoneRadius: int := 100
  /** Owner id of a zone nobody has captured yet. */
  const NoOwner: int := -1

  datatype Option<T> = None | Some(value: T)

  datatype Point = Point(x: int, y: int)

  datatype Drone = Drone(teamId: int, id: int, position: Point, previousPosition: Point)

  /** A freshly built drone: both positions hold the default point. */
  function NewDrone(teamId: int, id: int): Drone
  {
    Drone(teamId, id, Point(0, 0), Point(0, 0))
  }

  /** The `Position` setter: the position being replaced becomes the previous position. */
  function SetPosition(d: Drone, p: Point): (r: Drone)
    ensures r.position == p && r.previousPosition == d.position
    ensures r.teamId == d.teamId && r.id == d.id
  {
    d.(previousPosition := d.position, position := p)
  }

  /** Two consecutive assignments: the previous position is the first value assigned. */
  lemma SetPositionTwice(d: Drone, p: Point, q: Point)
    ensures SetPosition(SetPosition(d, p), q).previousPosition == p
    ensures SetPosition(SetPosition(d, p), q).position == q
  {
  }

  datatype Zone = Zone(id: int, center: Point, ownerId: int)

  predicate HasOwner(z: Zone)
  {
    z.ownerId != NoOwner
  }

  function NewZone(id: int, center: Point): (z: Zone)
    ensures !HasOwner(z)
    ensures z.id == id && z.center == center
  {
    Zone(id, center, NoOwner)
  }

  datatype Team = Team(id: int, drones: seq<Drone>)

  /** Drone `j` of a team carries id `j` and the team's id. */
  predicate TeamWellFormed(t: Team)
  {
    forall j :: 0 <= j < |t.drones| ==> t.drones[j].id == j && t.drones[j].teamId == t.id
  }

  function NewTeam(id: int, droneCount: nat): (t: Team)
    ensures t.id == id && |t.drones| == droneCount
    ensures TeamWellFormed(t)
  {
    Team(id, seq(droneCount, j => NewDrone(id, j)))
  }

  datatype GameContext = GameContext(remainingTurns: int, zones: seq<Zone>, teams: seq<Team>)

  /** A new context; its zones and teams are filled in afterwards. */
  function NewGameContext(): (c: GameContext)
    ensures c.remainingTurns == MaxTurns == 200
  {
    GameContext(MaxTurns, [], [])
  }

  /**
   The shape the simulator maintains: team `i` has id `i` and is well formed,
   and every zone is unowned or owned by one of the teams.
   */
  predicate WellFormed(c: GameContext)
  {
    && (forall i :: 0 <= i < |c.teams| ==> c.teams[i].id == i && TeamWellFormed(c.teams[i]))
    && (forall k :: 0 <= k < |c.zones| ==> NoOwner <= c.zones[k].ownerId < |c.teams|)
  }
}
