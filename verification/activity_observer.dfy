/**
 The activity observer guesses, from an enemy drone's last move, which zone
 it is heading for and whether it attacks or defends it. A drone that moved
 less than 2 is taken to be at rest: its target is the first zone it stands
 in. A moving drone's candidates are the zones near the line of its move
 (the floating-point distance-to-line test is the `nearLine` parameter) and
 ahead of it; the nearest candidate is the target.
 */
module ActivityObserver {
  import opened Core
  import opened Helpers
  import opened Tasks

  /** `position.DistanceTo(previousPosition) < 2`, on squared distances. */
  predicate AtRest(d: Drone)
  {
    DistSq(d.position, d.previousPosition) < 4
  }

  /** `FirstOrDefault(z => z.Contains(p))`. */
  function FirstContaining(zones: seq<Zone>, p: Point): (r: Option<Zone>)
    ensures r.None? <==> forall k :: 0 <= k < |zones| ==> !Contains(zones[k], p)
    ensures r.Some? ==> exists k :: 0 <= k < |zones| && zones[k] == r.value && Contains(zones[k], p) &&
                                    forall j :: 0 <= j < k ==> !Contains(zones[j], p)
  {
    if |zones| == 0 then None
    else if Contains(zones[0], p) then Some(zones[0])
    else
      var r := FirstContaining(zones[1..], p);
      assert r.Some? ==> exists k :: 1 <= k < |zones| && zones[k] == r.value && Contains(zones[k], p) &&
                                     forall j :: 0 <= j < k ==> !Contains(zones[j], p) by {
        if r.Some? {
          var k :| 0 <= k < |zones[1..]| && zones[1..][k] == r.value && Contains(zones[1..][k], p) &&
                   forall j :: 0 <= j < k ==> !Contains(zones[1..][j], p);
          assert zones[k + 1] == r.value;
          assert forall j :: 1 <= j < k + 1 ==> zones[j] == zones[1..][j - 1];
        }
      }
      r
  }

  /** A zone a moving drone may be heading for: near its line of travel and ahead of it. */
  predicate Candidate(d: Drone, z: Zone, nearLine: (Point, Point, Point) -> bool)
  {
    nearLine(d.previousPosition, d.position, z.center)
    && DotProduct(d.previousPosition, d.position, d.previousPosition, z.center) > 0
  }

  /**
   The ahead half of the candidate test (law of cosines): the zone centre c
   is ahead when the angle at the previous position between the move and c
   is acute, that is when the squared distance from the new position to c is
   below the sum of the squared distance from the previous position to c
   and the squared length of the move.
   */
  lemma {:induction false} AheadIsAcuteAngle(d: Drone, c: Point)
    ensures DotProduct(d.previousPosition, d.position, d.previousPosition, c) > 0 <==>
              DistSq(d.position, c) < DistSq(d.previousPosition, c) + DistSq(d.previousPosition, d.position)
  {
    var p, q := d.previousPosition, d.position;
    var ux, uy, vx, vy := q.x - p.x, q.y - p.y, c.x - p.x, c.y - p.y;
    DotProductProperties(p, q, p, c);
    DotProductProperties(p, c, p, c);
    DotProductProperties(q, c, q, c);
    assert c.x - q.x == vx - ux && c.y - q.y == vy - uy;
    assert (vx - ux) * (vx - ux) == vx * vx - 2 * (ux * vx) + ux * ux;
    assert (vy - uy) * (vy - uy) == vy * vy - 2 * (uy * vy) + uy * uy;
  }

  /**
   On the line of a drone that moved, the zone centre at parameter t along
   its move (previous position plus t times the move) is a candidate exactly
   when it is near the line and t is positive: zones level with or behind
   the previous position are never candidates.
   */
  lemma {:induction false} AheadOnLineOfTravel(d: Drone, z: Zone, t: int, nearLine: (Point, Point, Point) -> bool)
    requires d.position != d.previousPosition
    requires z.center == Point(d.previousPosition.x + t * (d.position.x - d.previousPosition.x),
                               d.previousPosition.y + t * (d.position.y - d.previousPosition.y))
    ensures Candidate(d, z, nearLine) <==> nearLine(d.previousPosition, d.position, z.center) && t > 0
  {
    var p, q := d.previousPosition, d.position;
    var ux, uy := q.x - p.x, q.y - p.y;
    var len := ux * ux + uy * uy;
    assert len > 0 by {
      assert ux != 0 || uy != 0;
      if ux != 0 {
        assert ux * ux > 0;
      } else {
        assert uy * uy > 0;
      }
    }
    assert z.center.x - p.x == t * ux && z.center.y - p.y == t * uy;
    assert DotProduct(p, q, p, z.center) == ux * (t * ux) + uy * (t * uy);
    assert ux * (t * ux) + uy * (t * uy) == t * len;
    assert t * len > 0 <==> t > 0 by {
      if t > 0 {
        assert t * len >= len;
      } else {
        assert t * len <= 0;
      }
    }
  }

  /** The candidate test of drone `d`, as a predicate on zones. */
  function IsCandidate(d: Drone, nearLine: (Point, Point, Point) -> bool): Zone -> bool
  {
    z => Candidate(d, z, nearLine)
  }

  /** The candidate zones, in zone order (CandidatesKeepOrder). */
  function Candidates(d: Drone, zones: seq<Zone>, nearLine: (Point, Point, Point) -> bool): (r: seq<Zone>)
    ensures forall z :: z in r <==> z in zones && Candidate(d, z, nearLine)
    ensures |r| <= |zones|
  {
    FilterMembers(zones, IsCandidate(d, nearLine));
    Filter(zones, IsCandidate(d, nearLine))
  }

  /**
   Filtering keeps zone order: the candidates of two runs of zones are those
   of the first run followed by those of the second, and a single zone is its
   own candidate exactly when it passes the test.
   */
  lemma CandidatesKeepOrder(d: Drone, a: seq<Zone>, b: seq<Zone>, nearLine: (Point, Point, Point) -> bool)
    ensures Candidates(d, a + b, nearLine) == Candidates(d, a, nearLine) + Candidates(d, b, nearLine)
    ensures forall z :: Candidates(d, [z], nearLine) == if Candidate(d, z, nearLine) then [z] else []
  {
    FilterConcat(a, b, IsCandidate(d, nearLine));
    forall z
      ensures Candidates(d, [z], nearLine) == if Candidate(d, z, nearLine) then [z] else []
    {
      FilterSingle(z, IsCandidate(d, nearLine));
    }
  }

  /**
   The nearest candidate of a moving drone, the first one in zone order among
   equally near candidates; None when no zone is a candidate.
   */
  function NearestCandidate(d: Drone, zones: seq<Zone>, nearLine: (Point, Point, Point) -> bool): (r: Option<Zone>)
    ensures r.None? <==> forall z :: z in zones ==> !Candidate(d, z, nearLine)
    ensures r.Some? ==>
              && r.value in zones && Candidate(d, r.value, nearLine)
              && forall z :: z in zones && Candidate(d, z, nearLine) ==>
                   DistSq(r.value.center, d.position) <= DistSq(z.center, d.position)
    ensures r.Some? ==>
              exists m :: 0 <= m < |zones| && zones[m] == r.value &&
                forall j :: 0 <= j < m && Candidate(d, zones[j], nearLine) ==>
                  DistSq(zones[j].center, d.position) > DistSq(r.value.center, d.position)
  {
    var candidates := Candidates(d, zones, nearLine);
    if |candidates| == 0 then None
    else
      var key := (z: Zone) => DistSq(z.center, d.position);
      var k := MinByIndex(candidates, key);
      assert FirstMinAt(candidates, key, k);
      FirstMinInFilter(zones, IsCandidate(d, nearLine), key, k);
      assert forall z :: z in candidates ==> key(candidates[k]) <= key(z) by {
        forall z | z in candidates
          ensures key(candidates[k]) <= key(z)
        {
          var j :| 0 <= j < |candidates| && candidates[j] == z;
        }
      }
      Some(candidates[k])
  }

  /** The zone drone `d` is guessed to be heading for, if any. */
  function GuessTarget(d: Drone, zones: seq<Zone>, nearLine: (Point, Point, Point) -> bool): (r: Option<Zone>)
    ensures AtRest(d) ==> r == FirstContaining(zones, d.position)
    ensures !AtRest(d) ==> (r.None? <==> forall z :: z in zones ==> !Candidate(d, z, nearLine))
    ensures !AtRest(d) && r.Some? ==>
              && r.value in zones && Candidate(d, r.value, nearLine)
              && forall z :: z in zones && Candidate(d, z, nearLine) ==>
                   DistSq(r.value.center, d.position) <= DistSq(z.center, d.position)
    ensures !AtRest(d) && r.Some? ==>
              exists m :: 0 <= m < |zones| && zones[m] == r.value &&
                forall j :: 0 <= j < m && Candidate(d, zones[j], nearLine) ==>
                  DistSq(zones[j].center, d.position) > DistSq(r.value.center, d.position)
  {
    if AtRest(d) then FirstContaining(zones, d.position) else NearestCandidate(d, zones, nearLine)
  }

  /** The intent: Unknown without a target, Defend when the target is the drone's team's own zone, else Attack. */
  function GuessIntent(d: Drone, target: Option<Zone>): (r: TaskType)
    ensures r == Unknown <==> target.None?
    ensures r == Defend <==> target.Some? && target.value.ownerId == d.teamId
    ensures r == Attack <==> target.Some? && target.value.ownerId != d.teamId
  {
    match target
    case None => Unknown
    case Some(z) => if z.ownerId == d.teamId then Defend else Attack
  }

  /** What my organizers see of one enemy drone towards a zone at `eta` turns. */
  function Observe(d: Drone, eta: nat, zones: seq<Zone>, nearLine: (Point, Point, Point) -> bool): (r: EnemyDrone)
    ensures r.teamId == d.teamId && r.eta == eta
    ensures r.intent == Unknown <==> r.target.None?
    ensures r.target.Some? ==> exists z :: z in zones && z.id == r.target.value
    ensures var g := GuessTarget(d, zones, nearLine);
            && r.intent == GuessIntent(d, g)
            && (r.target.Some? <==> g.Some?)
            && (g.Some? ==> r.target.value == g.value.id)
  {
    var target := GuessTarget(d, zones, nearLine);
    if target.Some? then
      assert target.value in zones by {
        if AtRest(d) {
          var k :| 0 <= k < |zones| && zones[k] == target.value && Contains(zones[k], d.position) &&
                   forall j :: 0 <= j < k ==> !Contains(zones[j], d.position);
        }
      }
      EnemyDrone(d.teamId, eta, GuessIntent(d, target), Some(target.value.id))
    else EnemyDrone(d.teamId, eta, GuessIntent(d, target), None)
  }

  /** A drone resting inside a zone its own team owns, and in no earlier zone, is seen defending it. */
  lemma RestingInOwnZoneDefends(d: Drone, zones: seq<Zone>, k: nat, nearLine: (Point, Point, Point) -> bool)
    requires AtRest(d) && k < |zones| && Contains(zones[k], d.position) && zones[k].ownerId == d.teamId
    requires forall j :: 0 <= j < k ==> !Contains(zones[j], d.position)
    ensures GuessTarget(d, zones, nearLine) == Some(zones[k])
    ensures GuessIntent(d, GuessTarget(d, zones, nearLine)) == Defend
  {
    var r := FirstContaining(zones, d.position);
    var i :| 0 <= i < |zones| && zones[i] == r.value && Contains(zones[i], d.position) &&
             forall j :: 0 <= j < i ==> !Contains(zones[j], d.position);
  }

  /** A drone resting outside every zone has no target and an unknown intent. */
  lemma RestingOutsideZonesIsUnknown(d: Drone, zones: seq<Zone>, nearLine: (Point, Point, Point) -> bool)
    requires AtRest(d) && forall k :: 0 <= k < |zones| ==> !Contains(zones[k], d.position)
    ensures GuessIntent(d, GuessTarget(d, zones, nearLine)) == Unknown
  {
  }
}
