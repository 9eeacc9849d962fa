/**
 The commander turns each drone's task into a destination: a defender
 already inside its zone stays put, any other tasked drone heads for the
 point 95 from the zone centre on its side, and a drone without a task
 patrols towards the median of the zones my team owns (the field centre
 when I own none).
 */
module Commander {
  import opened Core
  import opened Helpers
  import opened Tasks

  /** The patrol point: the median of my zones' centres, or (2000, 900) when I own no zone. */
  function PatrolPoint(zones: seq<Zone>, me: int): (r: Point)
    ensures |OwnedCenters(zones, me)| == 0 ==> r == Point(FieldWidth / 2, FieldHeight / 2) == Point(2000, 900)
    ensures forall lo: Point, hi: Point {:trigger InBox(OwnedCenters(zones, me), lo, hi)} ::
              |OwnedCenters(zones, me)| > 0 && 0 <= lo.x && 0 <= lo.y && InBox(OwnedCenters(zones, me), lo, hi) ==>
                lo.x <= r.x <= hi.x && lo.y <= r.y <= hi.y
  {
    var centers := OwnedCenters(zones, me);
    if |centers| == 0 then Point(FieldWidth / 2, FieldHeight / 2) else GetMedianPoint(centers)
  }

  /** The patrol point is on the field when my zones' centres are. */
  lemma PatrolPointInField(zones: seq<Zone>, me: int)
    requires forall k :: 0 <= k < |zones| ==> IsInField(zones[k].center)
    ensures IsInField(PatrolPoint(zones, me))
  {
    var centers := OwnedCenters(zones, me);
    if |centers| > 0 {
      forall k | 0 <= k < |centers|
        ensures IsInField(centers[k])
      {
        assert centers[k] in centers;
        var z :| z in zones && z.ownerId == me && z.center == centers[k];
        var i :| 0 <= i < |zones| && zones[i] == z;
      }
      MedianOfFieldPointsInField(centers);
    }
  }

  /** Destination of one drone at `position` with task `task` (None for no task). */
  function DroneDestination(position: Point, task: Option<Task>, patrol: Point,
                            diagonal: (Point, Point, int) -> Point): (r: Point)
    ensures task.None? ==> r == patrol
    ensures task.Some? && task.value.kind == Defend && Contains(task.value.zone, position) ==> r == position
    ensures task.Some? && !(task.value.kind == Defend && Contains(task.value.zone, position)) ==>
              r == GetZoneBorderPoint(position, task.value.zone, diagonal)
  {
    match task
    case None => patrol
    case Some(t) =>
      if t.kind == Defend && Contains(t.zone, position) then position
      else GetZoneBorderPoint(position, t.zone, diagonal)
  }

  /**
   A drone with a task is sent to a point inside the task's zone: where it
   stands when it already defends from inside, otherwise the border point,
   which lies inside when the drone is level with the centre on one axis.
   */
  lemma TaskedDroneHeadsIntoZone(position: Point, t: Task, patrol: Point, diagonal: (Point, Point, int) -> Point)
    requires (t.kind == Defend && Contains(t.zone, position))
             || position.x == t.zone.center.x || position.y == t.zone.center.y
    ensures Contains(t.zone, DroneDestination(position, Some(t), patrol, diagonal))
  {
    if !(t.kind == Defend && Contains(t.zone, position)) {
      BorderPointOnAxisInsideZone(position, t.zone, diagonal);
    }
  }

  /**
   SetDroneDestinations: the destination of each of my drones from its
   position and its task (assign[d] indexes `tasks`).
   */
  function SetDroneDestinations(me: int, zones: seq<Zone>, positions: seq<Point>, assign: seq<Option<nat>>,
                                tasks: seq<Task>, diagonal: (Point, Point, int) -> Point): (r: seq<Point>)
    requires |assign| == |positions|
    requires forall d :: 0 <= d < |assign| && assign[d].Some? ==> assign[d].value < |tasks|
    ensures |r| == |positions|
    ensures forall d :: 0 <= d < |r| && assign[d].None? ==> r[d] == PatrolPoint(zones, me)
    ensures forall d :: 0 <= d < |r| && assign[d].Some? ==>
              var t := tasks[assign[d].value];
              r[d] == (if t.kind == Defend && Contains(t.zone, positions[d]) then positions[d]
                       else GetZoneBorderPoint(positions[d], t.zone, diagonal))
  {
    var patrol := PatrolPoint(zones, me);
    seq(|positions|, d requires 0 <= d < |positions| =>
          DroneDestination(positions[d], if assign[d].Some? then Some(tasks[assign[d].value]) else None, patrol, diagonal))
  }
}
