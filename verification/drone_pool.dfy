/**
 The pool of available drones both allocators draw from. An assignment maps
 each of my drones (by index) to the index of its task in the priority-sorted
 task sequence, or to None for a drone without a task (`CurrentTask` null).
 The pool lists the indices of the drones still available, in list order.
 */
module DronePool {
  import opened Core
  import opened Helpers
  import opened Tasks

  /** Number of drones whose entry is `v`. */
  function Count(assign: seq<Option<nat>>, v: Option<nat>): (r: nat)
    ensures r <= |assign|
  {
    if |assign| == 0 then 0
    else Count(assign[..|assign| - 1], v) + (if assign[|assign| - 1] == v then 1 else 0)
  }

  /** Every drone reset to no task, as the allocators do first. */
  function Unassigned(n: nat): (r: seq<Option<nat>>)
    ensures |r| == n
    ensures forall d :: 0 <= d < n ==> r[d] == None
    ensures Count(r, None) == n
    ensures forall j: nat :: Count(r, Some(j)) == 0
  {
    if n == 0 then [] else
      var r := Unassigned(n - 1) + [None];
      assert r[..n - 1] == Unassigned(n - 1);
      r
  }

  /** Changing one entry moves one drone from the count of its old value to the count of its new one. */
  lemma {:induction false} CountUpdate(assign: seq<Option<nat>>, d: nat, w: Option<nat>, v: Option<nat>)
    requires d < |assign|
    ensures Count(assign[d := w], v) ==
            Count(assign, v) - (if assign[d] == v then 1 else 0) + (if w == v then 1 else 0)
    decreases |assign|
  {
    var n := |assign|;
    var a := assign[d := w];
    assert a[..n - 1] == if d < n - 1 then assign[..n - 1][d := w] else assign[..n - 1];
    if d < n - 1 {
      CountUpdate(assign[..n - 1], d, w, v);
    }
  }

  predicate Distinct(s: seq<nat>)
  {
    forall i, j :: 0 <= i < j < |s| ==> s[i] != s[j]
  }

  /** The indices 0 .. n-1 in order: the drone list the allocators start from. */
  function AllDrones(n: nat): (r: seq<nat>)
    ensures |r| == n && Distinct(r)
    ensures forall k :: 0 <= k < n ==> r[k] == k
  {
    seq(n, k => k)
  }

  /** The pool holds distinct drones, exactly those without a task. */
  predicate PoolOf(avail: seq<nat>, assign: seq<Option<nat>>)
  {
    && Distinct(avail)
    && (forall k :: 0 <= k < |avail| ==> avail[k] < |assign|)
    && (forall d :: 0 <= d < |assign| ==> (d in avail <==> assign[d] == None))
    && |avail| == Count(assign, None)
  }

  lemma FullPool(n: nat)
    ensures PoolOf(AllDrones(n), Unassigned(n))
  {
    var avail, assign := AllDrones(n), Unassigned(n);
    forall d | 0 <= d < n
      ensures d in avail
    {
      assert avail[d] == d;
    }
  }

  datatype Pool = Pool(avail: seq<nat>, assign: seq<Option<nat>>)

  /** From `before` to `after` only free drones changed, and each of them was given a task. */
  predicate OnlyFreeTaken(before: seq<Option<nat>>, after: seq<Option<nat>>)
  {
    |before| == |after| &&
    forall d :: 0 <= d < |before| && after[d] != before[d] ==> before[d] == None && after[d] != None
  }

  /** Drone d is no farther from `target` than any drone still free in `assign`. */
  predicate NearerThanFree(drones: seq<Point>, assign: seq<Option<nat>>, d: nat, target: Point)
  {
    && d < |drones| && |assign| == |drones|
    && forall e :: 0 <= e < |assign| && assign[e] == None ==> DistSq(drones[d], target) <= DistSq(drones[e], target)
  }

  /**
   Every drone with a task is at least as near to its task's zone centre as
   every drone left without one.
   */
  predicate ServedByNearest(tasks: seq<Task>, drones: seq<Point>, assign: seq<Option<nat>>)
  {
    && |assign| == |drones|
    && forall d :: 0 <= d < |assign| && assign[d].Some? ==>
         assign[d].value < |tasks| && NearerThanFree(drones, assign, d, tasks[assign[d].value].zone.center)
  }

  /**
   From `before` to `after` only free drones were taken, each for a task of
   `tasks`, and each is at least as near to its task's zone centre as every
   drone still free afterwards.
   */
  predicate TakenByNearest(tasks: seq<Task>, drones: seq<Point>, before: seq<Option<nat>>, after: seq<Option<nat>>)
  {
    && |after| == |drones| && OnlyFreeTaken(before, after)
    && forall d :: 0 <= d < |after| && after[d] != before[d] ==>
         after[d].Some? && after[d].value < |tasks| &&
         NearerThanFree(drones, after, d, tasks[after[d].value].zone.center)
  }

  /**
   TakenByNearest extends over one more step that takes only free drones,
   each for task i and nearer than every drone still free to its zone.
   */
  lemma TakenByNearestStep(tasks: seq<Task>, drones: seq<Point>, before: seq<Option<nat>>, mid: seq<Option<nat>>,
                           after: seq<Option<nat>>, i: nat)
    requires i < |tasks| && TakenByNearest(tasks, drones, before, mid) && OnlyFreeTaken(mid, after)
    requires forall d :: 0 <= d < |drones| && after[d] != mid[d] ==>
               after[d] == Some(i) && NearerThanFree(drones, after, d, tasks[i].zone.center)
    ensures TakenByNearest(tasks, drones, before, after)
  {
    forall d | 0 <= d < |after| && after[d] != before[d]
      ensures after[d].Some? && after[d].value < |tasks| &&
              NearerThanFree(drones, after, d, tasks[after[d].value].zone.center)
    {
      if mid[d] != before[d] {
        NearerSurvives(drones, mid, after, d, tasks[mid[d].value].zone.center);
      }
    }
  }

  /** Taking more free drones only shrinks the free set, so a nearer-than-free drone stays so. */
  lemma NearerSurvives(drones: seq<Point>, before: seq<Option<nat>>, after: seq<Option<nat>>, d: nat, target: Point)
    requires OnlyFreeTaken(before, after) && NearerThanFree(drones, before, d, target)
    ensures NearerThanFree(drones, after, d, target)
  {
  }

  /**
   Served-by-nearest survives a step that only takes free drones, when each
   drone it takes is nearer than every drone still free to its own task.
   */
  lemma ServedByNearestAfter(tasks: seq<Task>, drones: seq<Point>, before: seq<Option<nat>>, after: seq<Option<nat>>)
    requires ServedByNearest(tasks, drones, before) && TakenByNearest(tasks, drones, before, after)
    ensures ServedByNearest(tasks, drones, after)
  {
    forall d | 0 <= d < |after| && after[d].Some? && after[d] == before[d]
      ensures after[d].value < |tasks| && NearerThanFree(drones, after, d, tasks[after[d].value].zone.center)
    {
      NearerSurvives(drones, before, after, d, tasks[after[d].value].zone.center);
    }
  }

  /** Every drone whose entry changed from `before` to `after` holds a task below i. */
  predicate TakenBelow(before: seq<Option<nat>>, after: seq<Option<nat>>, i: nat)
  {
    |before| == |after| &&
    forall d :: 0 <= d < |after| && after[d] != before[d] ==> after[d].Some? && after[d].value < i
  }

  /**
   The tasks took free drones one after another in task order, each pick the
   nearest drone still free: among the drones free in `before`, a drone given
   task a is no farther from task a's zone centre than any drone left free in
   `after` or given a later task.
   */
  predicate NearestInTaskOrder(tasks: seq<Task>, drones: seq<Point>, before: seq<Option<nat>>, after: seq<Option<nat>>)
  {
    && |before| == |drones| && |after| == |drones|
    && forall d, e ::
         (&& 0 <= d < |drones| && 0 <= e < |drones| && before[d] == None && before[e] == None
          && after[d].Some? && after[d].value < |tasks| && (after[e] == None || after[e].value > after[d].value))
         ==> DistSq(drones[d], tasks[after[d].value].zone.center) <= DistSq(drones[e], tasks[after[d].value].zone.center)
  }

  /** Before any pick, nothing was taken. */
  lemma NearestInTaskOrderStart(tasks: seq<Task>, drones: seq<Point>, before: seq<Option<nat>>)
    requires |before| == |drones|
    ensures NearestInTaskOrder(tasks, drones, before, before) && TakenBelow(before, before, 0)
  {
  }

  /**
   Picks for task i, all drones taken earlier holding lower tasks: when every
   drone taken now is no farther from task i's zone than the drones still
   free, the picks stay in task order.
   */
  lemma NearestInTaskOrderStep(tasks: seq<Task>, drones: seq<Point>, before: seq<Option<nat>>,
                               mid: seq<Option<nat>>, after: seq<Option<nat>>, i: nat)
    requires i < |tasks| && NearestInTaskOrder(tasks, drones, before, mid) && TakenBelow(before, mid, i)
    requires OnlyFreeTaken(mid, after)
    requires forall d :: 0 <= d < |drones| && after[d] != mid[d] ==>
               after[d] == Some(i) && NearerThanFree(drones, after, d, tasks[i].zone.center)
    ensures NearestInTaskOrder(tasks, drones, before, after) && TakenBelow(before, after, i + 1)
  {
    forall d, e | 0 <= d < |drones| && 0 <= e < |drones| && before[d] == None && before[e] == None &&
                  after[d].Some? && after[d].value < |tasks| && (after[e] == None || after[e].value > after[d].value)
      ensures DistSq(drones[d], tasks[after[d].value].zone.center) <= DistSq(drones[e], tasks[after[d].value].zone.center)
    {
      if after[d] != mid[d] {
        assert after[e] == None;
      }
    }
  }

  /** Count on an assignment of two drones. */
  lemma CountPair(assign: seq<Option<nat>>, v: Option<nat>)
    requires |assign| == 2
    ensures Count(assign, v) == (if assign[0] == v then 1 else 0) + (if assign[1] == v then 1 else 0)
  {
    assert assign[..1][..0] == [];
  }

  /**
   Two one-drone tasks, each with one drone standing on its zone centre: when
   the picks went in task order, drone 0 took task 0 and drone 1 task 1.
   */
  lemma {:induction false} TwoZonesInTaskOrder(tasks: seq<Task>, drones: seq<Point>, assign: seq<Option<nat>>)
    requires tasks == [Task(Attack, Zone(0, Point(0, 0), -1), 1, 0.0), Task(Attack, Zone(1, Point(1000, 0), -1), 1, 0.0)]
    requires drones == [Point(0, 0), Point(1000, 0)]
    requires Count(assign, Some(0)) == 1 && Count(assign, Some(1)) == 1
    requires NearestInTaskOrder(tasks, drones, Unassigned(|drones|), assign)
    ensures assign == [Some(0), Some(1)]
  {
    CountPair(assign, Some(0));
    CountPair(assign, Some(1));
    if assign[0] != Some(0) {
      assert false;
    }
  }

  /**
   Position k of the pool holds the first drone nearest to `target`: no free
   drone is nearer, and every drone listed before it is farther.
   */
  predicate NearestAt(avail: seq<nat>, drones: seq<Point>, target: Point, k: nat)
  {
    && k < |avail|
    && (forall j :: 0 <= j < |avail| ==> avail[j] < |drones|)
    && (forall j :: 0 <= j < |avail| ==> DistSq(drones[avail[k]], target) <= DistSq(drones[avail[j]], target))
    && (forall j :: 0 <= j < k ==> DistSq(drones[avail[k]], target) < DistSq(drones[avail[j]], target))
  }

  /** `MinBy` on the pool, nearness compared on squared distances. */
  function Nearest(avail: seq<nat>, drones: seq<Point>, target: Point): (k: nat)
    requires |avail| > 0
    requires forall j :: 0 <= j < |avail| ==> avail[j] < |drones|
    ensures NearestAt(avail, drones, target, k)
  {
    var key := (d: nat) => if d < |drones| then DistSq(drones[d], target) else 0;
    MinByIndex(avail, key)
  }

  /**
   One pick: the drone nearest to `target` leaves the pool and gets task
   `taskIndex`; one more drone counts for that task, one fewer is free, and
   every other count and every other drone's task are unchanged.
   */
  function AssignNearest(p: Pool, drones: seq<Point>, target: Point, taskIndex: nat): (r: Pool)
    requires PoolOf(p.avail, p.assign) && |p.assign| == |drones| && |p.avail| > 0
    ensures PoolOf(r.avail, r.assign) && |r.assign| == |drones|
    ensures |r.avail| == |p.avail| - 1
    ensures exists k: nat :: NearestAt(p.avail, drones, target, k) && r.assign == p.assign[p.avail[k] := Some(taskIndex)]
    ensures Count(r.assign, Some(taskIndex)) == Count(p.assign, Some(taskIndex)) + 1
    ensures forall j: nat :: j != taskIndex ==> Count(r.assign, Some(j)) == Count(p.assign, Some(j))
    ensures forall d :: 0 <= d < |drones| && p.assign[d] != None ==> r.assign[d] == p.assign[d]
    ensures OnlyFreeTaken(p.assign, r.assign)
    ensures forall d :: 0 <= d < |drones| && r.assign[d] != p.assign[d] ==>
              r.assign[d] == Some(taskIndex) && NearerThanFree(drones, r.assign, d, target)
  {
    var k := Nearest(p.avail, drones, target);
    TakePreservesPool(p.avail, p.assign, k, taskIndex);
    NearestIsNearerThanFree(p, drones, target, k, taskIndex);
    Pool(p.avail[..k] + p.avail[k + 1..], p.assign[p.avail[k] := Some(taskIndex)])
  }

  /**
   Taking the nearest pooled drone changes only that free drone, which then
   holds the task and is no farther from the target than any drone still free.
   */
  lemma NearestIsNearerThanFree(p: Pool, drones: seq<Point>, target: Point, k: nat, taskIndex: nat)
    requires PoolOf(p.avail, p.assign) && |p.assign| == |drones| && NearestAt(p.avail, drones, target, k)
    ensures var a := p.assign[p.avail[k] := Some(taskIndex)];
            && OnlyFreeTaken(p.assign, a)
            && forall d :: 0 <= d < |drones| && a[d] != p.assign[d] ==>
                 a[d] == Some(taskIndex) && NearerThanFree(drones, a, d, target)
  {
    var a := p.assign[p.avail[k] := Some(taskIndex)];
    assert p.assign[p.avail[k]] == None;
    forall e | 0 <= e < |a| && a[e] == None
      ensures DistSq(drones[p.avail[k]], target) <= DistSq(drones[e], target)
    {
      assert e in p.avail;
      var j :| 0 <= j < |p.avail| && p.avail[j] == e;
    }
  }

  /** Removing the drone at pool position k and giving it a task keeps the pool consistent. */
  lemma TakePreservesPool(avail: seq<nat>, assign: seq<Option<nat>>, k: nat, taskIndex: nat)
    requires PoolOf(avail, assign) && k < |avail|
    ensures PoolOf(avail[..k] + avail[k + 1..], assign[avail[k] := Some(taskIndex)])
    ensures Count(assign[avail[k] := Some(taskIndex)], Some(taskIndex)) == Count(assign, Some(taskIndex)) + 1
    ensures forall j: nat :: j != taskIndex ==>
              Count(assign[avail[k] := Some(taskIndex)], Some(j)) == Count(assign, Some(j))
  {
    var d := avail[k];
    assert assign[d] == None;
    TakeMovesCounts(assign, d, taskIndex);
    TakeKeepsMembership(avail, assign, k, taskIndex);
  }

  /** Giving a free drone a task moves it from the free count to that task's count only. */
  lemma TakeMovesCounts(assign: seq<Option<nat>>, d: nat, taskIndex: nat)
    requires d < |assign| && assign[d] == None
    ensures Count(assign[d := Some(taskIndex)], None) == Count(assign, None) - 1
    ensures Count(assign[d := Some(taskIndex)], Some(taskIndex)) == Count(assign, Some(taskIndex)) + 1
    ensures forall j: nat :: j != taskIndex ==> Count(assign[d := Some(taskIndex)], Some(j)) == Count(assign, Some(j))
  {
    CountUpdate(assign, d, Some(taskIndex), None);
    CountUpdate(assign, d, Some(taskIndex), Some(taskIndex));
    forall j: nat | j != taskIndex
      ensures Count(assign[d := Some(taskIndex)], Some(j)) == Count(assign, Some(j))
    {
      CountUpdate(assign, d, Some(taskIndex), Some(j));
    }
  }

  /** After the take, the pool lists exactly the drones still without a task, each once. */
  lemma TakeKeepsMembership(avail: seq<nat>, assign: seq<Option<nat>>, k: nat, taskIndex: nat)
    requires PoolOf(avail, assign) && k < |avail|
    ensures var rest, a := avail[..k] + avail[k + 1..], assign[avail[k] := Some(taskIndex)];
            && Distinct(rest)
            && (forall i :: 0 <= i < |rest| ==> rest[i] < |a|)
            && (forall e :: 0 <= e < |a| ==> (e in rest <==> a[e] == None))
  {
    var rest, a := avail[..k] + avail[k + 1..], assign[avail[k] := Some(taskIndex)];
    forall i | 0 <= i < |rest|
      ensures rest[i] == if i < k then avail[i] else avail[i + 1]
    {
    }
    forall e | 0 <= e < |a|
      ensures e in rest <==> a[e] == None
    {
      if e in rest {
        var i :| 0 <= i < |rest| && rest[i] == e;
      }
    }
  }

  /**
   Up to `required` picks for task i, stopping early when the pool runs dry:
   the task gains min(required, free) drones, nothing else changes count.
   Only free drones are taken, and each taken drone is no farther from
   `target` than any drone left free.
   */
  method ServeTask(p: Pool, drones: seq<Point>, target: Point, i: nat, required: nat) returns (q: Pool)
    requires PoolOf(p.avail, p.assign) && |p.assign| == |drones|
    ensures PoolOf(q.avail, q.assign) && |q.assign| == |drones|
    ensures |q.avail| == |p.avail| - Min(required, |p.avail|)
    ensures Count(q.assign, Some(i)) == Count(p.assign, Some(i)) + Min(required, |p.avail|)
    ensures forall j: nat :: j != i ==> Count(q.assign, Some(j)) == Count(p.assign, Some(j))
    ensures OnlyFreeTaken(p.assign, q.assign)
    ensures forall d :: 0 <= d < |drones| && q.assign[d] != p.assign[d] ==>
              q.assign[d] == Some(i) && NearerThanFree(drones, q.assign, d, target)
  {
    q := p;
    var granted := 0;
    while granted < required && |q.avail| > 0
      invariant PoolOf(q.avail, q.assign) && |q.assign| == |drones|
      invariant granted <= required && granted <= |p.avail| && |q.avail| == |p.avail| - granted
      invariant Count(q.assign, Some(i)) == Count(p.assign, Some(i)) + granted
      invariant forall j: nat :: j != i ==> Count(q.assign, Some(j)) == Count(p.assign, Some(j))
      invariant OnlyFreeTaken(p.assign, q.assign)
      invariant forall d :: 0 <= d < |drones| && q.assign[d] != p.assign[d] ==>
                  q.assign[d] == Some(i) && NearerThanFree(drones, q.assign, d, target)
    {
      q := ServeOne(p, q, drones, target, i);
      granted := granted + 1;
    }
  }

  /** One pick of ServeTask, keeping what the picks so far (from `p` to `q`) promise. */
  method ServeOne(p: Pool, q: Pool, drones: seq<Point>, target: Point, i: nat) returns (q': Pool)
    requires PoolOf(q.avail, q.assign) && |q.assign| == |drones| && |q.avail| > 0
    requires OnlyFreeTaken(p.assign, q.assign)
    requires forall d :: 0 <= d < |drones| && q.assign[d] != p.assign[d] ==>
               q.assign[d] == Some(i) && NearerThanFree(drones, q.assign, d, target)
    ensures PoolOf(q'.avail, q'.assign) && |q'.assign| == |drones|
    ensures |q'.avail| == |q.avail| - 1
    ensures Count(q'.assign, Some(i)) == Count(q.assign, Some(i)) + 1
    ensures forall j: nat :: j != i ==> Count(q'.assign, Some(j)) == Count(q.assign, Some(j))
    ensures OnlyFreeTaken(p.assign, q'.assign)
    ensures forall d :: 0 <= d < |drones| && q'.assign[d] != p.assign[d] ==>
              q'.assign[d] == Some(i) && NearerThanFree(drones, q'.assign, d, target)
  {
    q' := AssignNearest(q, drones, target, i);
    forall d | 0 <= d < |drones| && q'.assign[d] != p.assign[d]
      ensures q'.assign[d] == Some(i) && NearerThanFree(drones, q'.assign, d, target)
    {
      if q.assign[d] != p.assign[d] {
        NearerSurvives(drones, q.assign, q'.assign, d, target);
      }
    }
  }
}
