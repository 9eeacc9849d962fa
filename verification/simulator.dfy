/**
 The turn engine: match initialisation, one turn of movement, zone-ownership
 resolution and scoring, the turn counter and the winner.

 The destinations each player returns for a turn are an input here (the
 players themselves are other modules); the match set-up with random zone and
 drone placement is not modelled, so `Initialize` receives the generated
 context and the drones' starting points.
 */
module ClientSimulator {
  import opened Core
  import opened Helpers

  datatype Simulator = Simulator(context: GameContext, scores: seq<int>)

  // ---------------------------------------------------------------------------
  // Initialize
  // ---------------------------------------------------------------------------

  /**
   `Position = PreviousPosition = start` on every drone: the inner assignment
   stores the start point as previous position, then the `Position` setter
   runs and overwrites it with the position held before the call.
   */
  function PlaceTeam(t: Team, start: seq<Point>): (r: Team)
    requires |t.drones| <= |start|
    ensures r.id == t.id && |r.drones| == |t.drones|
    ensures forall j :: 0 <= j < |t.drones| ==>
              && r.drones[j].position == start[j]
              && r.drones[j].previousPosition == t.drones[j].position
              && r.drones[j].id == t.drones[j].id
              && r.drones[j].teamId == t.drones[j].teamId
  {
    t.(drones := seq(|t.drones|, j requires 0 <= j < |t.drones| =>
                       SetPosition(t.drones[j].(previousPosition := start[j]), start[j])))
  }

  function Initialize(context: GameContext, start: seq<Point>): (r: Simulator)
    requires forall i :: 0 <= i < |context.teams| ==> |context.teams[i].drones| <= |start|
    ensures r.context.remainingTurns == MaxTurns
    ensures |r.context.zones| == |context.zones|
    ensures forall k :: 0 <= k < |context.zones| ==>
              && !HasOwner(r.context.zones[k])
              && r.context.zones[k].id == context.zones[k].id
              && r.context.zones[k].center == context.zones[k].center
    ensures |r.scores| == |context.teams| && forall p :: 0 <= p < |r.scores| ==> r.scores[p] == 0
    ensures |r.context.teams| == |context.teams|
    ensures forall i :: 0 <= i < |context.teams| ==>
              && r.context.teams[i].id == context.teams[i].id
              && |r.context.teams[i].drones| == |context.teams[i].drones|
              && forall j :: 0 <= j < |context.teams[i].drones| ==>
                   && r.context.teams[i].drones[j].position == start[j]
                   && r.context.teams[i].drones[j].previousPosition == context.teams[i].drones[j].position
    ensures SameRoster(context.teams, r.context.teams)
    ensures WellFormed(context) ==> WellFormed(r.context)
  {
    var zones := seq(|context.zones|, k requires 0 <= k < |context.zones| =>
                       context.zones[k].(ownerId := NoOwner));
    var teams := seq(|context.teams|, i requires 0 <= i < |context.teams| => PlaceTeam(context.teams[i], start));
    var r := Simulator(GameContext(MaxTurns, zones, teams), seq(|context.teams|, _ => 0));
    assert WellFormed(context) ==> WellFormed(r.context) by {
      if WellFormed(context) {
        forall i | 0 <= i < |teams|
          ensures teams[i].id == i && TeamWellFormed(teams[i])
        {
          assert TeamWellFormed(context.teams[i]);
        }
      }
    }
    r
  }

  // ---------------------------------------------------------------------------
  // Movement
  // ---------------------------------------------------------------------------

  /** Every team has an entry, and every drone a destination, in `destinations`. */
  predicate Shaped(destinations: seq<seq<Point>>, teams: seq<Team>)
  {
    |destinations| == |teams| && forall i :: 0 <= i < |teams| ==> |teams[i].drones| <= |destinations[i]|
  }

  /** Same team ids and drone counts, drone ids and team ids: only positions differ. */
  predicate SameRoster(a: seq<Team>, b: seq<Team>)
  {
    |a| == |b| && forall i :: 0 <= i < |a| ==>
      && a[i].id == b[i].id
      && |a[i].drones| == |b[i].drones|
      && forall j :: 0 <= j < |a[i].drones| ==>
           a[i].drones[j].id == b[i].drones[j].id && a[i].drones[j].teamId == b[i].drones[j].teamId
  }

  function MoveTeam(t: Team, destinations: seq<Point>, diagonal: (Point, Point) -> Point): (r: Team)
    requires TeamWellFormed(t) && |t.drones| <= |destinations|
    ensures r.id == t.id && |r.drones| == |t.drones| && TeamWellFormed(r)
    ensures forall j :: 0 <= j < |t.drones| ==>
              && r.drones[j].position == GetReachablePoint(t.drones[j].position, destinations[j], diagonal)
              && r.drones[j].previousPosition == t.drones[j].position
  {
    t.(drones := seq(|t.drones|, j requires 0 <= j < |t.drones| =>
                       var d := t.drones[j];
                       SetPosition(d, GetReachablePoint(d.position, destinations[d.id], diagonal))))
  }

  function MoveDrones(teams: seq<Team>, destinations: seq<seq<Point>>, diagonal: (Point, Point) -> Point): (r: seq<Team>)
    requires Shaped(destinations, teams)
    requires forall i :: 0 <= i < |teams| ==> teams[i].id == i && TeamWellFormed(teams[i])
    ensures SameRoster(teams, r)
    ensures forall i :: 0 <= i < |r| ==> r[i].id == i && TeamWellFormed(r[i])
    ensures forall i, j :: 0 <= i < |teams| && 0 <= j < |teams[i].drones| ==>
              && r[i].drones[j].position == GetReachablePoint(teams[i].drones[j].position, destinations[i][j], diagonal)
              && r[i].drones[j].previousPosition == teams[i].drones[j].position
  {
    seq(|teams|, i requires 0 <= i < |teams| => MoveTeam(teams[i], destinations[teams[i].id], diagonal))
  }

  // ---------------------------------------------------------------------------
  // Zone ownership
  // ---------------------------------------------------------------------------

  function CountInZone(drones: seq<Drone>, zone: Zone): nat
  {
    if |drones| == 0 then 0
    else (if Contains(zone, drones[0].position) then 1 else 0) + CountInZone(drones[1..], zone)
  }

  /** Number of drones of each team (in team order) inside the zone. */
  function SquadSizes(teams: seq<Team>, zone: Zone): (r: seq<nat>)
    ensures |r| == |teams|
  {
    seq(|teams|, i requires 0 <= i < |teams| => CountInZone(teams[i].drones, zone))
  }

  /** In-zone count of the incumbent; an id with no squad in the zone counts 0. */
  function OwnerCount(counts: seq<nat>, ownerId: int): nat
  {
    if 0 <= ownerId < |counts| then counts[ownerId] else 0
  }

  /**
   Ownership resolution of one zone. With nobody inside, nothing changes.
   Otherwise an unowned zone, or one whose owner has fewer drones inside than
   the largest squad, goes to the first team (lowest id) with the largest
   squad; on a tie the incumbent keeps it.
   */
  function ResolveOwner(zone: Zone, counts: seq<nat>): (r: Zone)
    ensures r.id == zone.id && r.center == zone.center
    ensures (forall t :: 0 <= t < |counts| ==> counts[t] == 0) ==> r == zone
    ensures HasOwner(zone) && (forall t :: 0 <= t < |counts| ==> counts[t] <= OwnerCount(counts, zone.ownerId)) ==> r == zone
    ensures r.ownerId != zone.ownerId ==>
              && 0 <= r.ownerId < |counts|
              && OwnerCount(counts, zone.ownerId) < counts[r.ownerId]
    ensures (exists t :: 0 <= t < |counts| && counts[t] > 0) &&
            (!HasOwner(zone) || exists t :: 0 <= t < |counts| && counts[t] > OwnerCount(counts, zone.ownerId)) ==>
              && 0 <= r.ownerId < |counts|
              && (forall t :: 0 <= t < |counts| ==> counts[t] <= counts[r.ownerId])
              && (forall t :: 0 <= t < r.ownerId ==> counts[t] < counts[r.ownerId])
  {
    match IndexOfMax(counts)
    case None => zone
    case Some(w) =>
      var maxSquadSize := counts[w];
      if maxSquadSize == 0 then zone
      else if !HasOwner(zone) || OwnerCount(counts, zone.ownerId) < maxSquadSize then zone.(ownerId := w)
      else zone
  }

  // ---------------------------------------------------------------------------
  // Scores
  // ---------------------------------------------------------------------------

  /** Number of zones owned by team `p`. */
  function OwnedCount(zones: seq<Zone>, p: int): nat
  {
    if |zones| == 0 then 0
    else (if zones[0].ownerId == p then 1 else 0) + OwnedCount(zones[1..], p)
  }

  predicate OwnersIndexScores(zones: seq<Zone>, n: int)
  {
    forall k :: 0 <= k < |zones| ==> zones[k].ownerId == NoOwner || 0 <= zones[k].ownerId < n
  }

  /** Each owned zone adds one point to its owner; unowned zones add nothing. */
  function AddZoneScores(scores: seq<int>, zones: seq<Zone>): (r: seq<int>)
    requires OwnersIndexScores(zones, |scores|)
    ensures |r| == |scores|
    ensures forall p :: 0 <= p < |scores| ==> r[p] == scores[p] + OwnedCount(zones, p)
    decreases |zones|
  {
    if |zones| == 0 then scores
    else
      var z := zones[0];
      var next := if HasOwner(z) then scores[z.ownerId := scores[z.ownerId] + 1] else scores;
      AddZoneScores(next, zones[1..])
  }

  // ---------------------------------------------------------------------------
  // Update
  // ---------------------------------------------------------------------------

  predicate Valid(sim: Simulator)
  {
    WellFormed(sim.context) && |sim.scores| == |sim.context.teams|
  }

  /** Resolves the ownership of every zone against the drones' new positions. */
  function ResolveZones(zones: seq<Zone>, teams: seq<Team>): (r: seq<Zone>)
    requires forall k :: 0 <= k < |zones| ==> NoOwner <= zones[k].ownerId < |teams|
    ensures |r| == |zones|
    ensures forall k :: 0 <= k < |zones| ==> r[k] == ResolveOwner(zones[k], SquadSizes(teams, zones[k]))
    ensures forall k :: 0 <= k < |zones| ==> NoOwner <= r[k].ownerId < |teams|
  {
    seq(|zones|, k requires 0 <= k < |zones| => ResolveOwner(zones[k], SquadSizes(teams, zones[k])))
  }

  /** One turn: move every drone, resolve every zone, add the scores, count the turn down. */
  function Update(sim: Simulator, destinations: seq<seq<Point>>, diagonal: (Point, Point) -> Point): (r: Simulator)
    requires Valid(sim) && Shaped(destinations, sim.context.teams)
    ensures Valid(r) && SameRoster(sim.context.teams, r.context.teams)
    ensures r.context.remainingTurns == sim.context.remainingTurns - 1
    ensures forall i, j :: 0 <= i < |sim.context.teams| && 0 <= j < |sim.context.teams[i].drones| ==>
              var d := sim.context.teams[i].drones[j];
              && r.context.teams[i].drones[j].position == GetReachablePoint(d.position, destinations[i][j], diagonal)
              && r.context.teams[i].drones[j].previousPosition == d.position
    ensures |r.context.zones| == |sim.context.zones|
    ensures forall k :: 0 <= k < |sim.context.zones| ==>
              r.context.zones[k] == ResolveOwner(sim.context.zones[k], SquadSizes(r.context.teams, sim.context.zones[k]))
    ensures forall p :: 0 <= p < |sim.scores| ==> r.scores[p] == sim.scores[p] + OwnedCount(r.context.zones, p)
  {
    var c := sim.context;
    var teams := MoveDrones(c.teams, destinations, diagonal);
    var zones := ResolveZones(c.zones, teams);
    var scores := AddZoneScores(sim.scores, zones);
    Simulator(GameContext(c.remainingTurns - 1, zones, teams), scores)
  }

  predicate HasFinished(sim: Simulator)
  {
    sim.context.remainingTurns <= 0
  }

  /** WinnerId: the lowest team id with the maximal score (`None` with no players). */
  function WinnerId(sim: Simulator): (r: Option<nat>)
    ensures r.None? <==> |sim.scores| == 0
    ensures r.Some? ==> r.value < |sim.scores|
    ensures r.Some? ==> forall p :: 0 <= p < |sim.scores| ==> sim.scores[p] <= sim.scores[r.value]
    ensures r.Some? ==> forall p :: 0 <= p < r.value ==> sim.scores[p] < sim.scores[r.value]
  {
    IndexOfMax(sim.scores)
  }

  // ---------------------------------------------------------------------------
  // A whole match
  // ---------------------------------------------------------------------------

  /** Plays the given turns, one Update per entry of `turns`. */
  function Run(sim: Simulator, turns: seq<seq<seq<Point>>>, diagonal: (Point, Point) -> Point): (r: Simulator)
    requires Valid(sim)
    requires forall k :: 0 <= k < |turns| ==> Shaped(turns[k], sim.context.teams)
    ensures Valid(r) && SameRoster(sim.context.teams, r.context.teams)
    ensures r.context.remainingTurns == sim.context.remainingTurns - |turns|
    decreases |turns|
  {
    if |turns| == 0 then sim
    else
      var next := Update(sim, turns[0], diagonal);
      RunShape(sim.context.teams, next.context.teams, turns[1..]);
      Run(next, turns[1..], diagonal)
  }

  /** Destinations shaped for one roster are shaped for any roster with the same structure. */
  lemma RunShape(a: seq<Team>, b: seq<Team>, turns: seq<seq<seq<Point>>>)
    requires SameRoster(a, b)
    requires forall k :: 0 <= k < |turns| ==> Shaped(turns[k], a)
    ensures forall k :: 0 <= k < |turns| ==> Shaped(turns[k], b)
  {
  }

  /** After Initialize, the match is over after exactly MaxTurns (200) updates. */
  lemma MatchLastsMaxTurns(context: GameContext, start: seq<Point>, turns: seq<seq<seq<Point>>>,
                           diagonal: (Point, Point) -> Point)
    requires WellFormed(context)
    requires forall i :: 0 <= i < |context.teams| ==> |context.teams[i].drones| <= |start|
    requires forall k :: 0 <= k < |turns| ==> Shaped(turns[k], context.teams)
    ensures var init := Initialize(context, start);
            Valid(init) && (forall k :: 0 <= k < |turns| ==> Shaped(turns[k], init.context.teams)) &&
            (HasFinished(Run(init, turns, diagonal)) <==> |turns| >= MaxTurns)
  {
    var init := Initialize(context, start);
    RunShape(context.teams, init.context.teams, turns);
    var r := Run(init, turns, diagonal);
  }
}
