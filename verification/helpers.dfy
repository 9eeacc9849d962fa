/**
 Integer geometry and selection helpers: first-wins MinBy/MaxBy, IndexOfMax,
 the dot product, the axis-aligned movement rules, the median point, the
 field and zone membership tests, and the stable ordering used by the players.

 Euclidean distances are compared through their squares: the square root is
 monotone, so the order and the ties between distances are the same.
 */
module Helpers {
  import opened Core

  function Abs(v: int): nat
  {
    if v < 0 then -v else v
  }

  function Min(a: int, b: int): int
  {
    if a <= b then a else b
  }

  function Max(a: int, b: int): int
  {
    if a >= b then a else b
  }

  /** Squared Euclidean distance between two points. */
  function DistSq(a: Point, b: Point): nat
  {
    var dx := Abs(a.x - b.x);
    var dy := Abs(a.y - b.y);
    dx * dx + dy * dy
  }

  // ---------------------------------------------------------------------------
  // MinBy / MaxBy / IndexOfMax
  // ---------------------------------------------------------------------------

  /**
   The enumerator scan of MinBy from position `i` on, `best` being the current
   minimum: it is replaced only by a strictly smaller key.
   */
  function MinByFrom<T>(s: seq<T>, key: T -> int, i: nat, best: nat): (k: nat)
    requires best < i <= |s|
    requires forall j :: 0 <= j < i ==> key(s[best]) <= key(s[j])
    requires forall j :: 0 <= j < best ==> key(s[best]) < key(s[j])
    ensures k < |s|
    ensures forall j :: 0 <= j < |s| ==> key(s[k]) <= key(s[j])
    ensures forall j :: 0 <= j < k ==> key(s[k]) < key(s[j])
    decreases |s| - i
  {
    if i == |s| then best
    else if key(s[i]) < key(s[best]) then MinByFrom(s, key, i + 1, i)
    else MinByFrom(s, key, i + 1, best)
  }

  /** Position of the element MinBy returns: the earliest one with a minimal key. */
  function MinByIndex<T>(s: seq<T>, key: T -> int): (k: nat)
    requires |s| > 0
    ensures k < |s|
    ensures forall j :: 0 <= j < |s| ==> key(s[k]) <= key(s[j])
    ensures forall j :: 0 <= j < k ==> key(s[k]) < key(s[j])
  {
    MinByFrom(s, key, 1, 0)
  }

  /** MinBy; `None` stands for the exception thrown on an empty sequence. */
  function MinBy<T>(s: seq<T>, key: T -> int): (r: Option<T>)
    ensures r.None? <==> |s| == 0
    ensures r.Some? ==> exists k :: 0 <= k < |s| && s[k] == r.value
                          && (forall j :: 0 <= j < |s| ==> key(s[k]) <= key(s[j]))
                          && (forall j :: 0 <= j < k ==> key(s[k]) < key(s[j]))
  {
    if |s| == 0 then None else Some(s[MinByIndex(s, key)])
  }

  /** The enumerator scan of MaxBy: the current maximum is replaced only by a strictly larger key. */
  function MaxByFrom<T>(s: seq<T>, key: T -> int, i: nat, best: nat): (k: nat)
    requires best < i <= |s|
    requires forall j :: 0 <= j < i ==> key(s[j]) <= key(s[best])
    requires forall j :: 0 <= j < best ==> key(s[j]) < key(s[best])
    ensures k < |s|
    ensures forall j :: 0 <= j < |s| ==> key(s[j]) <= key(s[k])
    ensures forall j :: 0 <= j < k ==> key(s[j]) < key(s[k])
    decreases |s| - i
  {
    if i == |s| then best
    else if key(s[i]) > key(s[best]) then MaxByFrom(s, key, i + 1, i)
    else MaxByFrom(s, key, i + 1, best)
  }

  function MaxByIndex<T>(s: seq<T>, key: T -> int): (k: nat)
    requires |s| > 0
    ensures k < |s|
    ensures forall j :: 0 <= j < |s| ==> key(s[j]) <= key(s[k])
    ensures forall j :: 0 <= j < k ==> key(s[j]) < key(s[k])
  {
    MaxByFrom(s, key, 1, 0)
  }

  /** MaxBy; `None` stands for the exception thrown on an empty sequence. */
  function MaxBy<T>(s: seq<T>, key: T -> int): (r: Option<T>)
    ensures r.None? <==> |s| == 0
    ensures r.Some? ==> exists k :: 0 <= k < |s| && s[k] == r.value
                          && (forall j :: 0 <= j < |s| ==> key(s[j]) <= key(s[k]))
                          && (forall j :: 0 <= j < k ==> key(s[j]) < key(s[k]))
  {
    if |s| == 0 then None else Some(s[MaxByIndex(s, key)])
  }

  /** IndexOfMax: the lowest index holding the maximal value (`None` on an empty list). */
  function IndexOfMax(s: seq<int>): (r: Option<nat>)
    ensures r.None? <==> |s| == 0
    ensures r.Some? ==> r.value < |s|
    ensures r.Some? ==> forall j :: 0 <= j < |s| ==> s[j] <= s[r.value]
    ensures r.Some? ==> forall j :: 0 <= j < r.value ==> s[j] < s[r.value]
  {
    if |s| == 0 then None else Some(MaxByIndex(s, v => v))
  }

  // ---------------------------------------------------------------------------
  // Dot product, membership tests
  // ---------------------------------------------------------------------------

  /** Dot product of the displacement vectors (v1a -> v1b) and (v2a -> v2b). */
  function DotProduct(v1a: Point, v1b: Point, v2a: Point, v2b: Point): int
  {
    var x1 := v1b.x - v1a.x;
    var y1 := v1b.y - v1a.y;
    var x2 := v2b.x - v2a.x;
    var y2 := v2b.y - v2a.y;
    x1 * x2 + y1 * y2
  }

  /** The dot product is symmetric, and a displacement dotted with itself is its squared length. */
  lemma DotProductProperties(a: Point, b: Point, c: Point, d: Point)
    ensures DotProduct(a, b, c, d) == DotProduct(c, d, a, b)
    ensures DotProduct(a, b, a, b) == DistSq(a, b)
    ensures DotProduct(a, b, a, b) >= 0
  {
  }

  /** The field is half-open: x in [0, FieldWidth), y in [0, FieldHeight). */
  predicate IsInField(p: Point)
  {
    0 <= p.x < FieldWidth && 0 <= p.y < FieldHeight
  }

  /** A zone contains the points at distance at most its radius (boundary included). */
  predicate Contains(zone: Zone, p: Point)
  {
    DistSq(zone.center, p) <= ZoneRadius * ZoneRadius
  }

  /** The boundary belongs to the zone; one step beyond it along an axis does not. */
  lemma ContainsBoundaryInclusive(zone: Zone)
    ensures Contains(zone, Point(zone.center.x + ZoneRadius, zone.center.y))
    ensures Contains(zone, Point(zone.center.x, zone.center.y - ZoneRadius))
    ensures !Contains(zone, Point(zone.center.x + ZoneRadius + 1, zone.center.y))
    ensures Contains(zone, zone.center)
  {
  }

  /** Along an axis, containment is exactly "offset at most the radius". */
  lemma ContainsOnAxis(zone: Zone, p: Point)
    requires p.y == zone.center.y
    ensures Contains(zone, p) <==> Abs(p.x - zone.center.x) <= ZoneRadius
  {
    var dx := Abs(p.x - zone.center.x);
    assert DistSq(zone.center, p) == dx * dx;
    SquareMonotone(dx, ZoneRadius);
  }

  /** For non-negative values, squares are ordered like the values. */
  lemma SquareMonotone(a: nat, b: nat)
    ensures a <= b <==> a * a <= b * b
  {
    if a <= b {
      assert a * a <= a * b <= b * b;
    } else {
      assert b * b <= b * a < a * a;
    }
  }

  // ---------------------------------------------------------------------------
  // Movement
  // ---------------------------------------------------------------------------

  /**
   GetReachablePoint. The axis-aligned cases are exact: the moving coordinate
   goes at most MaxMoveDistance toward the destination and is clamped to
   [0, FieldHeight] or [0, FieldWidth], both ends included. The diagonal case
   (slope, square root and truncated doubles) is the parameter `diagonal`.
   */
  function GetReachablePoint(position: Point, destination: Point, diagonal: (Point, Point) -> Point): (r: Point)
    ensures position.x == destination.x ==> r.x == position.x
    ensures position.x != destination.x && position.y == destination.y ==> r.y == position.y
    ensures position.x != destination.x && position.y != destination.y ==> r == diagonal(position, destination)
  {
    if position.x == destination.x then
      if position.y < destination.y then
        destination.(y := Min(Min(destination.y, position.y + MaxMoveDistance), FieldHeight))
      else
        destination.(y := Max(Max(destination.y, position.y - MaxMoveDistance), 0))
    else if position.y == destination.y then
      if position.x < destination.x then
        destination.(x := Min(Min(destination.x, position.x + MaxMoveDistance), FieldWidth))
      else
        destination.(x := Max(Max(destination.x, position.x - MaxMoveDistance), 0))
    else
      diagonal(position, destination)
  }

  /** `v` lies between `a` and `b` (in either order). */
  predicate Between(v: int, a: int, b: int)
  {
    (a <= v <= b) || (b <= v <= a)
  }

  /**
   A vertical move from inside the closed field band: it never passes the
   destination, covers at most MaxMoveDistance, ends within [0, FieldHeight],
   and reaches the destination itself when that is close enough and in range.
   */
  lemma ReachableVertical(position: Point, destination: Point, diagonal: (Point, Point) -> Point)
    requires position.x == destination.x
    requires 0 <= position.y <= FieldHeight
    ensures var r := GetReachablePoint(position, destination, diagonal);
      && r.x == position.x
      && Between(r.y, position.y, destination.y)
      && Abs(r.y - position.y) <= MaxMoveDistance
      && 0 <= r.y <= FieldHeight
      && (Abs(destination.y - position.y) <= MaxMoveDistance && 0 <= destination.y <= FieldHeight ==> r == destination)
  {
  }

  /** The horizontal counterpart of ReachableVertical, with [0, FieldWidth]. */
  lemma ReachableHorizontal(position: Point, destination: Point, diagonal: (Point, Point) -> Point)
    requires position.x != destination.x && position.y == destination.y
    requires 0 <= position.x <= FieldWidth
    ensures var r := GetReachablePoint(position, destination, diagonal);
      && r.y == position.y
      && Between(r.x, position.x, destination.x)
      && Abs(r.x - position.x) <= MaxMoveDistance
      && 0 <= r.x <= FieldWidth
      && (Abs(destination.x - position.x) <= MaxMoveDistance && 0 <= destination.x <= FieldWidth ==> r == destination)
  {
  }

  /**
   The axis-aligned clamp is inclusive, so a drone can be sent to x = FieldWidth
   or y = FieldHeight, points IsInField rejects.
   */
  lemma ReachableCanLeaveField(diagonal: (Point, Point) -> Point)
    ensures GetReachablePoint(Point(3950, 500), Point(4100, 500), diagonal) == Point(FieldWidth, 500)
    ensures GetReachablePoint(Point(700, 1750), Point(700, 1900), diagonal) == Point(700, FieldHeight)
    ensures IsInField(Point(3950, 500)) && !IsInField(Point(FieldWidth, 500))
    ensures IsInField(Point(700, 1750)) && !IsInField(Point(700, FieldHeight))
  {
  }

  /**
   GetIntermediatePoint: the point `distanceFromDest` away from `destination`
   on the side of `position`. Axis-aligned cases are exact; the diagonal case
   is the parameter `diagonal`.
   */
  function GetIntermediatePoint(position: Point, destination: Point, distanceFromDest: int,
                                diagonal: (Point, Point, int) -> Point): (r: Point)
    ensures position.x != destination.x && position.y != destination.y ==>
              r == diagonal(position, destination, distanceFromDest)
  {
    if position.x == destination.x then
      if position.y < destination.y then destination.(y := destination.y - distanceFromDest)
      else destination.(y := destination.y + distanceFromDest)
    else if position.y == destination.y then
      if position.x < destination.x then destination.(x := destination.x - distanceFromDest)
      else destination.(x := destination.x + distanceFromDest)
    else
      diagonal(position, destination, distanceFromDest)
  }

  /**
   Axis-aligned intermediate point: on the same axis line, exactly `d` from the
   destination, on the position's side; coincident points give dest.y + d.
   */
  lemma IntermediateOnAxis(position: Point, destination: Point, d: nat, diagonal: (Point, Point, int) -> Point)
    requires position.x == destination.x || position.y == destination.y
    ensures var r := GetIntermediatePoint(position, destination, d, diagonal);
      && (r.x == destination.x || r.y == destination.y)
      && DistSq(r, destination) == d * d
      && (position.x == destination.x && position.y < destination.y ==> r.x == destination.x && r.y <= destination.y)
      && (position.x == destination.x && position.y > destination.y ==> r.x == destination.x && r.y >= destination.y)
      && (position.x < destination.x && position.y == destination.y ==> r.y == destination.y && r.x <= destination.x)
      && (position.x > destination.x && position.y == destination.y ==> r.y == destination.y && r.x >= destination.x)
      && (position == destination ==> r == Point(destination.x, destination.y + d))
  {
  }

  /** The point at which a drone is sent to enter a zone: 95 from its centre. */
  function GetZoneBorderPoint(position: Point, zone: Zone, diagonal: (Point, Point, int) -> Point): Point
  {
    GetIntermediatePoint(position, zone.center, ZoneRadius - 5, diagonal)
  }

  /** Approaching along an axis, the border point lies 95 from the centre, so inside the zone. */
  lemma BorderPointOnAxisInsideZone(position: Point, zone: Zone, diagonal: (Point, Point, int) -> Point)
    requires position.x == zone.center.x || position.y == zone.center.y
    ensures DistSq(GetZoneBorderPoint(position, zone, diagonal), zone.center) == 95 * 95
    ensures Contains(zone, GetZoneBorderPoint(position, zone, diagonal))
  {
    IntermediateOnAxis(position, zone.center, ZoneRadius - 5, diagonal);
    var r := GetZoneBorderPoint(position, zone, diagonal);
    assert DistSq(zone.center, r) == DistSq(r, zone.center);
  }

  // ---------------------------------------------------------------------------
  // Median point
  // ---------------------------------------------------------------------------

  /** Integer division truncated toward zero, as a cast of a double quotient to int. */
  function TruncDiv(a: int, b: int): int
    requires b > 0
  {
    if a >= 0 then a / b else -((-a) / b)
  }

  function SumX(points: seq<Point>): int
  {
    if |points| == 0 then 0 else points[0].x + SumX(points[1..])
  }

  function SumY(points: seq<Point>): int
  {
    if |points| == 0 then 0 else points[0].y + SumY(points[1..])
  }

  /** Every point of `points` lies in the box [lo, hi] x [lo', hi']. */
  predicate InBox(points: seq<Point>, lo: Point, hi: Point)
  {
    forall k :: 0 <= k < |points| ==> lo.x <= points[k].x <= hi.x && lo.y <= points[k].y <= hi.y
  }

  lemma SumBounds(points: seq<Point>, lo: Point, hi: Point)
    requires InBox(points, lo, hi)
    ensures |points| * lo.x <= SumX(points) <= |points| * hi.x
    ensures |points| * lo.y <= SumY(points) <= |points| * hi.y
  {
    SumXBounds(points, lo.x, hi.x);
    SumYBounds(points, lo.y, hi.y);
  }

  lemma {:induction false} SumXBounds(points: seq<Point>, lo: int, hi: int)
    requires forall k :: 0 <= k < |points| ==> lo <= points[k].x <= hi
    ensures |points| * lo <= SumX(points) <= |points| * hi
  {
    if |points| > 0 {
      SumXBounds(points[1..], lo, hi);
      MulSucc(|points|, lo);
      MulSucc(|points|, hi);
    }
  }

  lemma {:induction false} SumYBounds(points: seq<Point>, lo: int, hi: int)
    requires forall k :: 0 <= k < |points| ==> lo <= points[k].y <= hi
    ensures |points| * lo <= SumY(points) <= |points| * hi
  {
    if |points| > 0 {
      SumYBounds(points[1..], lo, hi);
      MulSucc(|points|, lo);
      MulSucc(|points|, hi);
    }
  }

  lemma MulSucc(n: int, a: int)
    ensures n * a == a + (n - 1) * a
  {
  }

  /** A non-negative sum between n*lo and n*hi has its quotient by n between lo and hi. */
  lemma DivBounds(s: int, n: int, lo: int, hi: int)
    requires n > 0 && s >= 0
    requires n * lo <= s <= n * hi
    ensures lo <= s / n <= hi
  {
    var q := s / n;
    assert q * n <= s < (q + 1) * n;
    MulLessCancel(lo, q + 1, n);
    MulLessCancel(q, hi + 1, n);
  }

  lemma MulLessCancel(a: int, b: int, n: int)
    requires n > 0 && a * n < b * n
    ensures a < b
  {
  }

  /**
   GetMedianPoint: the per-coordinate mean, truncated toward zero. For points
   with non-negative coordinates it lies in every box that holds them all.
   */
  function GetMedianPoint(points: seq<Point>): (r: Point)
    requires |points| > 0
    ensures forall lo: Point, hi: Point {:trigger InBox(points, lo, hi)} ::
              InBox(points, lo, hi) && lo.x >= 0 && lo.y >= 0 ==>
                lo.x <= r.x <= hi.x && lo.y <= r.y <= hi.y
  {
    var r := Point(TruncDiv(SumX(points), |points|), TruncDiv(SumY(points), |points|));
    forall lo: Point, hi: Point | InBox(points, lo, hi) && lo.x >= 0 && lo.y >= 0
      ensures lo.x <= r.x <= hi.x && lo.y <= r.y <= hi.y
    {
      SumBounds(points, lo, hi);
      DivBounds(SumX(points), |points|, lo.x, hi.x);
      DivBounds(SumY(points), |points|, lo.y, hi.y);
    }
    r
  }

  /** The median of points inside the field is inside the field. */
  lemma MedianOfFieldPointsInField(points: seq<Point>)
    requires |points| > 0
    requires forall k :: 0 <= k < |points| ==> IsInField(points[k])
    ensures IsInField(GetMedianPoint(points))
  {
    assert InBox(points, Point(0, 0), Point(FieldWidth - 1, FieldHeight - 1));
  }

  // ---------------------------------------------------------------------------
  // Drones of other teams
  // ---------------------------------------------------------------------------

  /** GetDronesOfOtherTeams: the drones of every team whose id differs, in team order. */
  function GetDronesOfOtherTeams(teams: seq<Team>, teamId: int): (r: seq<Drone>)
    ensures forall d :: d in r ==> exists t :: t in teams && t.id != teamId && d in t.drones
    ensures forall t, d :: t in teams && t.id != teamId && d in t.drones ==> d in r
  {
    if |teams| == 0 then []
    else (if teams[0].id != teamId then teams[0].drones else []) + GetDronesOfOtherTeams(teams[1..], teamId)
  }

  /** When drones carry their team's id, none of the result belongs to the given team. */
  lemma OtherTeamsExcludeTeam(teams: seq<Team>, teamId: int)
    requires forall t :: t in teams ==> TeamWellFormed(t)
    ensures forall d :: d in GetDronesOfOtherTeams(teams, teamId) ==> d.teamId != teamId
  {
    forall d | d in GetDronesOfOtherTeams(teams, teamId)
      ensures d.teamId != teamId
    {
      var t :| t in teams && t.id != teamId && d in t.drones;
      var j :| 0 <= j < |t.drones| && t.drones[j] == d;
      assert TeamWellFormed(t);
    }
  }

  /** The elements of `s` that `keep` accepts, in order (Where). */
  function Filter<T(!new)>(s: seq<T>, keep: T -> bool): (r: seq<T>)
    ensures |r| <= |s|
    ensures forall i :: 0 <= i < |r| ==> keep(r[i])
  {
    if |s| == 0 then [] else (if keep(s[0]) then [s[0]] else []) + Filter(s[1..], keep)
  }

  /** Filtering keeps exactly the accepted elements. */
  lemma {:induction false} FilterMembers<T(!new)>(s: seq<T>, keep: T -> bool)
    ensures forall x :: x in Filter(s, keep) <==> x in s && keep(x)
    decreases |s|
  {
    if |s| > 0 {
      FilterMembers(s[1..], keep);
      assert forall x :: x in s <==> x == s[0] || x in s[1..];
    }
  }

  /** Filtering a non-empty sequence: its head when accepted, then the filtered tail. */
  lemma FilterCons<T(!new)>(s: seq<T>, keep: T -> bool)
    requires |s| > 0
    ensures Filter(s, keep) == (if keep(s[0]) then [s[0]] else []) + Filter(s[1..], keep)
  {
  }

  /** Filtering keeps order: it distributes over concatenation. */
  lemma {:induction false} FilterConcat<T(!new)>(a: seq<T>, b: seq<T>, keep: T -> bool)
    ensures Filter(a + b, keep) == Filter(a, keep) + Filter(b, keep)
    decreases |a|
  {
    if |a| == 0 {
      assert a + b == b;
    } else {
      var head := if keep(a[0]) then [a[0]] else [];
      FilterConcat(a[1..], b, keep);
      FilterCons(a + b, keep);
      FilterCons(a, keep);
      assert (a + b)[0] == a[0];
      assert (a + b)[1..] == a[1..] + b;
      assert head + (Filter(a[1..], keep) + Filter(b, keep)) == (head + Filter(a[1..], keep)) + Filter(b, keep);
    }
  }

  /** A single element is kept exactly when accepted. */
  lemma FilterSingle<T(!new)>(x: T, keep: T -> bool)
    ensures Filter([x], keep) == if keep(x) then [x] else []
  {
    assert [x][1..] == [];
  }

  /** Position k of `c` holds the first of its minima by `key`. */
  predicate FirstMinAt<T>(c: seq<T>, key: T -> int, k: nat)
  {
    && k < |c|
    && (forall j :: 0 <= j < |c| ==> key(c[k]) <= key(c[j]))
    && (forall j :: 0 <= j < k ==> key(c[k]) < key(c[j]))
  }

  /** Position m of `s` is accepted and strictly below every accepted element before it. */
  predicate FirstAcceptedMinAt<T>(s: seq<T>, keep: T -> bool, key: T -> int, m: nat)
  {
    && m < |s| && keep(s[m])
    && forall j :: 0 <= j < m && keep(s[j]) ==> key(s[j]) > key(s[m])
  }

  lemma FirstMinTail<T>(x: T, rest: seq<T>, key: T -> int, k: nat)
    requires k > 0 && FirstMinAt([x] + rest, key, k)
    ensures FirstMinAt(rest, key, k - 1)
    ensures key(rest[k - 1]) < key(x)
  {
    var c := [x] + rest;
    forall j | 0 <= j < |rest|
      ensures key(rest[k - 1]) <= key(rest[j])
    {
      assert rest[j] == c[j + 1];
    }
    forall j | 0 <= j < k - 1
      ensures key(rest[k - 1]) < key(rest[j])
    {
      assert rest[j] == c[j + 1];
    }
    assert c[0] == x;
  }

  lemma AcceptedMinShift<T>(s: seq<T>, keep: T -> bool, key: T -> int, m: nat)
    requires |s| > 0 && FirstAcceptedMinAt(s[1..], keep, key, m)
    requires keep(s[0]) ==> key(s[0]) > key(s[m + 1])
    ensures FirstAcceptedMinAt(s, keep, key, m + 1)
  {
    forall j | 0 <= j < m + 1 && keep(s[j])
      ensures key(s[j]) > key(s[m + 1])
    {
      if j > 0 {
        assert s[j] == s[1..][j - 1];
      }
    }
  }

  /**
   The first minimum by `key` of a filtered sequence is, in the original
   sequence, an accepted element strictly below every accepted one before it.
   */
  lemma {:induction false} FirstMinInFilter<T(!new)>(s: seq<T>, keep: T -> bool, key: T -> int, k: nat)
    requires FirstMinAt(Filter(s, keep), key, k)
    ensures exists m: nat :: FirstAcceptedMinAt(s, keep, key, m) && s[m] == Filter(s, keep)[k]
    decreases |s|
  {
    var rest := Filter(s[1..], keep);
    FilterCons(s, keep);
    if !keep(s[0]) {
      assert Filter(s, keep) == rest;
      FirstMinInFilter(s[1..], keep, key, k);
      var m: nat :| FirstAcceptedMinAt(s[1..], keep, key, m) && s[1..][m] == rest[k];
      AcceptedMinShift(s, keep, key, m);
    } else if k == 0 {
      assert FirstAcceptedMinAt(s, keep, key, 0);
    } else {
      assert Filter(s, keep) == [s[0]] + rest;
      FirstMinTail(s[0], rest, key, k);
      FirstMinInFilter(s[1..], keep, key, k - 1);
      var m: nat :| FirstAcceptedMinAt(s[1..], keep, key, m) && s[1..][m] == rest[k - 1];
      AcceptedMinShift(s, keep, key, m);
      assert s[m + 1] == Filter(s, keep)[k];
    }
  }

  /** The lists one after the other (SelectMany / appending each list's items in turn). */
  function Flatten<T(!new)>(lists: seq<seq<T>>): (r: seq<T>)
    ensures forall x :: x in r <==> exists k :: 0 <= k < |lists| && x in lists[k]
  {
    if |lists| == 0 then []
    else
      var r := lists[0] + Flatten(lists[1..]);
      assert forall x :: (exists k :: 0 <= k < |lists| && x in lists[k]) ==> x in r by {
        forall x | exists k :: 0 <= k < |lists| && x in lists[k]
          ensures x in r
        {
          var k :| 0 <= k < |lists| && x in lists[k];
          if k > 0 {
            assert x in lists[1..][k - 1];
          }
        }
      }
      assert forall x :: x in Flatten(lists[1..]) ==> exists k :: 0 <= k < |lists| && x in lists[k] by {
        forall x | x in Flatten(lists[1..])
          ensures exists k :: 0 <= k < |lists| && x in lists[k]
        {
          var k :| 0 <= k < |lists[1..]| && x in lists[1..][k];
          assert x in lists[k + 1];
        }
      }
      r
  }

  // ---------------------------------------------------------------------------
  // Stable ordering (OrderBy)
  // ---------------------------------------------------------------------------

  predicate SortedBy<T>(s: seq<T>, key: T -> int)
  {
    forall i, j :: 0 <= i < j < |s| ==> key(s[i]) <= key(s[j])
  }

  /** Inserts `x` before the first element whose key is not smaller, keeping earlier elements first. */
  function InsertBy<T>(x: T, s: seq<T>, key: T -> int): (r: seq<T>)
    requires SortedBy(s, key)
    ensures SortedBy(r, key)
    ensures multiset(r) == multiset(s) + multiset{x}
    ensures |r| == |s| + 1
  {
    if |s| == 0 then [x]
    else if key(x) <= key(s[0]) then [x] + s
    else
      var rest := InsertBy(x, s[1..], key);
      assert s == [s[0]] + s[1..];
      LowerBoundCarries(key(s[0]), s[1..] + [x], rest, key);
      ConsSorted(s[0], rest, key);
      [s[0]] + rest
  }

  /** An element no larger than every key of a sorted sequence can be put in front of it. */
  lemma ConsSorted<T>(x: T, s: seq<T>, key: T -> int)
    requires SortedBy(s, key) && forall k :: 0 <= k < |s| ==> key(x) <= key(s[k])
    ensures SortedBy([x] + s, key)
  {
    var r := [x] + s;
    forall i, j | 0 <= i < j < |r|
      ensures key(r[i]) <= key(r[j])
    {
      assert r[j] == s[j - 1];
      if i > 0 {
        assert r[i] == s[i - 1];
      }
    }
  }

  /** A lower bound on the keys of a sequence holds for any permutation of it. */
  lemma LowerBoundCarries<T>(lo: int, a: seq<T>, b: seq<T>, key: T -> int)
    requires multiset(b) == multiset(a)
    requires forall k :: 0 <= k < |a| ==> lo <= key(a[k])
    ensures forall k :: 0 <= k < |b| ==> lo <= key(b[k])
  {
    forall k | 0 <= k < |b|
      ensures lo <= key(b[k])
    {
      assert b[k] in multiset(b);
      var m :| 0 <= m < |a| && a[m] == b[k];
    }
  }

  /** OrderBy: a permutation of `s` sorted by ascending key. */
  function SortBy<T>(s: seq<T>, key: T -> int): (r: seq<T>)
    ensures SortedBy(r, key)
    ensures multiset(r) == multiset(s)
    ensures |r| == |s|
  {
    if |s| == 0 then []
    else
      assert s == [s[0]] + s[1..];
      InsertBy(s[0], SortBy(s[1..], key), key)
  }
}
