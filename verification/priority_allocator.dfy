/**
 The allocator used with two teams (or fewer). Importance of attack versus
 defense follows the share of zones my team owns; the tasks then arrive
 sorted by priority (the priority formula is floating point and is an input
 here), and drones are handed out in two passes: a main pass giving each
 task its nearest drones, then a single sweep giving at most one leftover
 drone to each task in priority order.
 */
module PriorityAllocator {
  import opened Core
  import opened Helpers
  import opened Tasks
  import opened DronePool

  /**
   Importance of defense and attack, with the comparisons done in exact
   rationals: owned/zones against 0.8 and 0.4 times 1/teams. No zone makes
   the ratio NaN, so both comparisons fail; no team makes 1/teams infinite,
   so only the lower comparison holds.
   */
  function PriorityImportance(owned: nat, zones: nat, teams: nat): (r: Importance)
    ensures Rank(r.defense) + Rank(r.attack) == 2
    ensures zones == 0 ==> r == Importance(Medium, Medium)
    ensures zones > 0 && teams == 0 ==> r == Importance(Low, High)
  {
    if zones == 0 then Importance(Medium, Medium)
    else if teams == 0 then Importance(Low, High)
    else
      var ownedRatio := owned as real / zones as real;
      var necessaryRatio := 1.0 / teams as real;
      if ownedRatio > 0.8 * necessaryRatio then Importance(High, Low)
      else if ownedRatio < 0.4 * necessaryRatio then Importance(Low, High)
      else Importance(Medium, Medium)
  }

  /**
   The same rule on integers: defense is high exactly when 10 * owned * teams
   exceeds 8 * zones, attack is high exactly when it is below 4 * zones.
   */
  lemma PriorityImportanceOnIntegers(owned: nat, zones: nat, teams: nat)
    requires zones > 0 && teams > 0
    ensures PriorityImportance(owned, zones, teams).defense == High <==> 10 * owned * teams > 8 * zones
    ensures PriorityImportance(owned, zones, teams).attack == High <==> 10 * owned * teams < 4 * zones
  {
    var o, z, t := owned as real, zones as real, teams as real;
    var k := z * t;
    assert k > 0.0 by { PositiveProduct(z, t); }
    assert o / z == (o * t) / k;
    assert 0.8 * (1.0 / t) == (0.8 * z) / k;
    assert 0.4 * (1.0 / t) == (0.4 * z) / k;
    DivideCompare(o * t, 0.8 * z, k);
    DivideCompare(0.4 * z, o * t, k);
    assert (10 * owned * teams) as real == 10.0 * (o * t);
  }

  lemma PositiveProduct(a: real, b: real)
    requires a > 0.0 && b > 0.0
    ensures a * b > 0.0
  {
  }

  lemma DivideCompare(a: real, b: real, k: real)
    requires k > 0.0
    ensures a / k > b / k <==> a > b
  {
    assert a / k - b / k == (a - b) / k;
  }

  /** Owning more zones never lowers the importance of defense nor raises that of attack. */
  lemma PriorityImportanceMonotone(owned1: nat, owned2: nat, zones: nat, teams: nat)
    requires owned1 <= owned2
    ensures Rank(PriorityImportance(owned1, zones, teams).defense) <= Rank(PriorityImportance(owned2, zones, teams).defense)
    ensures Rank(PriorityImportance(owned1, zones, teams).attack) >= Rank(PriorityImportance(owned2, zones, teams).attack)
  {
    if zones > 0 && teams > 0 {
      PriorityImportanceOnIntegers(owned1, zones, teams);
      PriorityImportanceOnIntegers(owned2, zones, teams);
      assert 10 * owned1 * teams <= 10 * owned2 * teams by { MulMonotone(owned1, owned2, 10 * teams); }
    }
  }

  lemma MulMonotone(a: nat, b: nat, c: nat)
    requires a <= b
    ensures c * a <= c * b
  {
  }

  // ---------------------------------------------------------------------------
  // Main pass
  // ---------------------------------------------------------------------------

  /**
   Whether the main pass passes over task i with `available` drones free: not
   enough drones for it, and the next task could be fully served instead.
   */
  predicate Skipped(tasks: seq<Task>, i: nat, available: nat)
    requires i < |tasks|
  {
    available < tasks[i].required && i < |tasks| - 1 && available >= tasks[i + 1].required
  }

  /** Drones task i receives in the main pass: none if skipped, otherwise as many as required and free. */
  function Grant(tasks: seq<Task>, i: nat, available: nat): (g: nat)
    requires i < |tasks|
    ensures g <= available && g <= tasks[i].required
    ensures available >= tasks[i].required ==> g == tasks[i].required
  {
    if Skipped(tasks, i, available) then 0 else Min(tasks[i].required, available)
  }

  /** Drones still free when the main pass reaches task i. */
  function AvailableBefore(tasks: seq<Task>, n: nat, i: nat): (r: nat)
    requires i <= |tasks|
    ensures r <= n
  {
    if i == 0 then n
    else
      var before := AvailableBefore(tasks, n, i - 1);
      before - Grant(tasks, i - 1, before)
  }

  /** Drones task i receives in the main pass. */
  function MainPass(tasks: seq<Task>, n: nat, i: nat): nat
    requires i < |tasks|
  {
    Grant(tasks, i, AvailableBefore(tasks, n, i))
  }

  /** Drones left after the main pass. */
  function Leftover(tasks: seq<Task>, n: nat): nat
  {
    AvailableBefore(tasks, n, |tasks|)
  }

  lemma {:induction false} ExhaustedStaysExhausted(tasks: seq<Task>, n: nat, i: nat, j: nat)
    requires i <= j <= |tasks| && AvailableBefore(tasks, n, i) == 0
    ensures AvailableBefore(tasks, n, j) == 0
    decreases j - i
  {
    if i < j {
      ExhaustedStaysExhausted(tasks, n, i, j - 1);
    }
  }

  /** Sum of the requirements of a sequence of tasks. */
  function TotalRequired(tasks: seq<Task>): nat
  {
    if |tasks| == 0 then 0 else TotalRequired(tasks[..|tasks| - 1]) + tasks[|tasks| - 1].required
  }

  lemma {:induction false} TotalRequiredPrefix(tasks: seq<Task>, i: nat, j: nat)
    requires i <= j <= |tasks|
    ensures TotalRequired(tasks[..i]) <= TotalRequired(tasks[..j])
    ensures i < |tasks| ==> TotalRequired(tasks[..i + 1]) == TotalRequired(tasks[..i]) + tasks[i].required
    decreases j - i
  {
    if i < |tasks| {
      assert tasks[..i + 1][..i] == tasks[..i];
    }
    if i < j {
      TotalRequiredPrefix(tasks, i, j - 1);
      assert tasks[..j][..j - 1] == tasks[..j - 1];
    }
  }

  /**
   When the drones cover the sum of all requirements, the main pass skips
   nothing and gives every task exactly its requirement.
   */
  lemma {:induction false} EnoughDronesServeEveryTask(tasks: seq<Task>, n: nat, i: nat)
    requires TotalRequired(tasks) <= n && i <= |tasks|
    ensures AvailableBefore(tasks, n, i) == n - TotalRequired(tasks[..i])
    ensures i < |tasks| ==> MainPass(tasks, n, i) == tasks[i].required
    decreases i
  {
    assert tasks[..|tasks|] == tasks;
    TotalRequiredPrefix(tasks, i, |tasks|);
    if i > 0 {
      EnoughDronesServeEveryTask(tasks, n, i - 1);
      TotalRequiredPrefix(tasks, i - 1, |tasks|);
    }
    if i < |tasks| {
      TotalRequiredPrefix(tasks, i + 1, |tasks|);
      TotalRequiredPrefix(tasks, i, |tasks|);
    }
  }

  // ---------------------------------------------------------------------------
  // The allocation
  // ---------------------------------------------------------------------------

  /**
   The pool after the main pass has handled the tasks before i: each of them
   holds its main-pass share, no later task holds a drone, the pool holds
   what is available to task i, every drone with a task is at least as
   near to its zone as every free drone, and the tasks before i took their
   drones in task order.
   */
  ghost predicate MainPassUpTo(tasks: seq<Task>, drones: seq<Point>, p: Pool, i: nat)
  {
    && MainPassShares(tasks, drones, p, i)
    && NearestInTaskOrder(tasks, drones, Unassigned(|drones|), p.assign)
    && TakenBelow(Unassigned(|drones|), p.assign, i)
  }

  /** The part of MainPassUpTo about how many drones each task holds. */
  ghost predicate MainPassShares(tasks: seq<Task>, drones: seq<Point>, p: Pool, i: nat)
  {
    && i <= |tasks|
    && PoolOf(p.avail, p.assign) && |p.assign| == |drones|
    && |p.avail| == AvailableBefore(tasks, |drones|, i)
    && (forall j :: 0 <= j < i ==> Count(p.assign, Some(j)) == MainPass(tasks, |drones|, j))
    && (forall j: nat :: j >= i ==> Count(p.assign, Some(j)) == 0)
    && ServedByNearest(tasks, drones, p.assign)
  }

  /** Before the main pass every drone is free and no task holds one. */
  lemma MainPassStart(tasks: seq<Task>, drones: seq<Point>)
    ensures MainPassUpTo(tasks, drones, Pool(AllDrones(|drones|), Unassigned(|drones|)), 0)
  {
    FullPool(|drones|);
    NearestInTaskOrderStart(tasks, drones, Unassigned(|drones|));
  }

  /**
   Once every task is handled, or no drone is left, the main pass has given
   every task its share: a task after the stop point has share 0.
   */
  lemma MainPassEnd(tasks: seq<Task>, drones: seq<Point>, p: Pool, i: nat)
    requires MainPassUpTo(tasks, drones, p, i) && (i == |tasks| || |p.avail| == 0)
    ensures |p.avail| == Leftover(tasks, |drones|)
    ensures forall j :: 0 <= j < |tasks| ==> Count(p.assign, Some(j)) == MainPass(tasks, |drones|, j)
    ensures forall j: nat :: j >= |tasks| ==> Count(p.assign, Some(j)) == 0
  {
    forall j | i <= j <= |tasks|
      ensures AvailableBefore(tasks, |drones|, j) == 0 || i == |tasks|
    {
      if i < |tasks| {
        ExhaustedStaysExhausted(tasks, |drones|, i, j);
      }
    }
  }

  /** The main pass over the sorted tasks, from a pool holding every drone. */
  method RunMainPass(tasks: seq<Task>, drones: seq<Point>) returns (p: Pool)
    ensures PoolOf(p.avail, p.assign) && |p.assign| == |drones|
    ensures |p.avail| == Leftover(tasks, |drones|)
    ensures forall j :: 0 <= j < |tasks| ==> Count(p.assign, Some(j)) == MainPass(tasks, |drones|, j)
    ensures forall j: nat :: j >= |tasks| ==> Count(p.assign, Some(j)) == 0
    ensures ServedByNearest(tasks, drones, p.assign)
    ensures NearestInTaskOrder(tasks, drones, Unassigned(|drones|), p.assign)
  {
    MainPassStart(tasks, drones);
    p := Pool(AllDrones(|drones|), Unassigned(|drones|));
    var i := 0;
    while i < |tasks| && |p.avail| > 0
      invariant MainPassUpTo(tasks, drones, p, i)
    {
      p := MainPassStep(tasks, drones, p, i);
      i := i + 1;
    }
    MainPassEnd(tasks, drones, p, i);
  }

  /** Task i's turn in the main pass: served with its grant unless skipped. */
  method MainPassStep(tasks: seq<Task>, drones: seq<Point>, p: Pool, i: nat) returns (q: Pool)
    requires i < |tasks| && MainPassUpTo(tasks, drones, p, i)
    ensures MainPassUpTo(tasks, drones, q, i + 1)
  {
    if Skipped(tasks, i, |p.avail|) {
      q := p;
    } else {
      q := ServeTask(p, drones, tasks[i].zone.center, i, tasks[i].required);
      MainPassServed(tasks, drones, p, q, i);
    }
  }

  /** After ServeTask gives task i its grant, the main pass has handled task i. */
  lemma MainPassServed(tasks: seq<Task>, drones: seq<Point>, p: Pool, q: Pool, i: nat)
    requires i < |tasks| && MainPassUpTo(tasks, drones, p, i) && !Skipped(tasks, i, |p.avail|)
    requires PoolOf(q.avail, q.assign) && |q.assign| == |drones|
    requires |q.avail| == |p.avail| - Min(tasks[i].required, |p.avail|)
    requires Count(q.assign, Some(i)) == Count(p.assign, Some(i)) + Min(tasks[i].required, |p.avail|)
    requires forall j: nat :: j != i ==> Count(q.assign, Some(j)) == Count(p.assign, Some(j))
    requires OnlyFreeTaken(p.assign, q.assign)
    requires forall d :: 0 <= d < |drones| && q.assign[d] != p.assign[d] ==>
               q.assign[d] == Some(i) && NearerThanFree(drones, q.assign, d, tasks[i].zone.center)
    ensures MainPassUpTo(tasks, drones, q, i + 1)
  {
    MainPassSharesServed(tasks, drones, p, q, i);
    NearestInTaskOrderStep(tasks, drones, Unassigned(|drones|), p.assign, q.assign, i);
  }

  /** The share part of MainPassServed. */
  lemma MainPassSharesServed(tasks: seq<Task>, drones: seq<Point>, p: Pool, q: Pool, i: nat)
    requires i < |tasks| && MainPassShares(tasks, drones, p, i) && !Skipped(tasks, i, |p.avail|)
    requires PoolOf(q.avail, q.assign) && |q.assign| == |drones|
    requires |q.avail| == |p.avail| - Min(tasks[i].required, |p.avail|)
    requires Count(q.assign, Some(i)) == Count(p.assign, Some(i)) + Min(tasks[i].required, |p.avail|)
    requires forall j: nat :: j != i ==> Count(q.assign, Some(j)) == Count(p.assign, Some(j))
    requires OnlyFreeTaken(p.assign, q.assign)
    requires forall d :: 0 <= d < |drones| && q.assign[d] != p.assign[d] ==>
               q.assign[d] == Some(i) && NearerThanFree(drones, q.assign, d, tasks[i].zone.center)
    ensures MainPassShares(tasks, drones, q, i + 1)
  {
    ServedByNearestAfter(tasks, drones, p.assign, q.assign);
  }

  /**
   The sweep from pool p has reached task i: each task before i took one more
   drone, the others none, each taken drone being the nearest free one, and
   the picks went in task order.
   */
  ghost predicate SweptUpTo(tasks: seq<Task>, drones: seq<Point>, p: Pool, q: Pool, i: nat)
  {
    && SweptShares(tasks, drones, p, q, i)
    && NearestInTaskOrder(tasks, drones, p.assign, q.assign)
    && TakenBelow(p.assign, q.assign, i)
  }

  /** The part of SweptUpTo about counts and nearest picks. */
  ghost predicate SweptShares(tasks: seq<Task>, drones: seq<Point>, p: Pool, q: Pool, i: nat)
  {
    && i <= |tasks| && i <= |p.avail|
    && PoolOf(q.avail, q.assign) && |q.assign| == |drones|
    && |q.avail| == |p.avail| - i
    && (forall j :: 0 <= j < |tasks| ==>
          Count(q.assign, Some(j)) == Count(p.assign, Some(j)) + (if j < i then 1 else 0))
    && (forall j: nat :: j >= |tasks| ==> Count(q.assign, Some(j)) == Count(p.assign, Some(j)))
    && TakenByNearest(tasks, drones, p.assign, q.assign)
  }

  /** The leftover sweep: one drone to each task in order while drones remain. */
  method Sweep(tasks: seq<Task>, drones: seq<Point>, p: Pool) returns (q: Pool)
    requires PoolOf(p.avail, p.assign) && |p.assign| == |drones|
    ensures PoolOf(q.avail, q.assign) && |q.assign| == |drones|
    ensures |q.avail| == |p.avail| - Min(|p.avail|, |tasks|)
    ensures forall j :: 0 <= j < |tasks| ==>
              Count(q.assign, Some(j)) == Count(p.assign, Some(j)) + (if j < |p.avail| then 1 else 0)
    ensures forall j: nat :: j >= |tasks| ==> Count(q.assign, Some(j)) == Count(p.assign, Some(j))
    ensures TakenByNearest(tasks, drones, p.assign, q.assign)
    ensures NearestInTaskOrder(tasks, drones, p.assign, q.assign)
  {
    q := p;
    var i := 0;
    NearestInTaskOrderStart(tasks, drones, p.assign);
    assert SweptUpTo(tasks, drones, p, q, 0);
    while i < |tasks| && |q.avail| > 0
      invariant SweptUpTo(tasks, drones, p, q, i)
    {
      q := SweepStep(tasks, drones, p, q, i);
      i := i + 1;
    }
  }

  /** One sweep pick: the drone nearest to task i's zone takes task i. */
  method SweepStep(tasks: seq<Task>, drones: seq<Point>, p: Pool, q: Pool, i: nat) returns (q': Pool)
    requires i < |tasks| && |q.avail| > 0 && SweptUpTo(tasks, drones, p, q, i)
    ensures SweptUpTo(tasks, drones, p, q', i + 1)
  {
    q' := AssignNearest(q, drones, tasks[i].zone.center, i);
    SweptSharesStep(tasks, drones, p, q, q', i);
    NearestInTaskOrderStep(tasks, drones, p.assign, q.assign, q'.assign, i);
  }

  /** The share part of SweepStep: task i gains the drone AssignNearest took. */
  lemma SweptSharesStep(tasks: seq<Task>, drones: seq<Point>, p: Pool, q: Pool, q': Pool, i: nat)
    requires i < |tasks| && |q.avail| > 0 && SweptShares(tasks, drones, p, q, i)
    requires PoolOf(q'.avail, q'.assign) && |q'.assign| == |drones| && |q'.avail| == |q.avail| - 1
    requires Count(q'.assign, Some(i)) == Count(q.assign, Some(i)) + 1
    requires forall j: nat :: j != i ==> Count(q'.assign, Some(j)) == Count(q.assign, Some(j))
    requires OnlyFreeTaken(q.assign, q'.assign)
    requires forall d :: 0 <= d < |drones| && q'.assign[d] != q.assign[d] ==>
               q'.assign[d] == Some(i) && NearerThanFree(drones, q'.assign, d, tasks[i].zone.center)
    ensures SweptShares(tasks, drones, p, q', i + 1)
  {
    TakenByNearestStep(tasks, drones, p.assign, q.assign, q'.assign, i);
  }

  /**
   AllocateDronesToTasks on tasks already sorted by decreasing priority and
   my drones' positions; assign[d] is the index of drone d's task. Task j
   receives its main-pass share plus one leftover drone when j is below the
   number of drones left after the main pass; drones beyond what the sweep
   hands out keep no task. Each pick is the nearest free drone to the task's
   zone centre (AssignNearest), so no drone left without a task is nearer to
   a task's zone than a drone serving it. `main` is the assignment after the
   main pass: both passes pick in task order, so within each pass a task's
   drones are no farther from its zone than the drones later tasks take.
   */
  method AllocatePriority(tasks: seq<Task>, drones: seq<Point>) returns (assign: seq<Option<nat>>, ghost main: seq<Option<nat>>)
    ensures |assign| == |drones|
    ensures forall j :: 0 <= j < |tasks| ==>
              Count(assign, Some(j)) == MainPass(tasks, |drones|, j) + (if j < Leftover(tasks, |drones|) then 1 else 0)
    ensures forall j: nat :: j >= |tasks| ==> Count(assign, Some(j)) == 0
    ensures Count(assign, None) == Leftover(tasks, |drones|) - Min(Leftover(tasks, |drones|), |tasks|)
    ensures ServedByNearest(tasks, drones, assign)
    ensures forall j :: 0 <= j < |tasks| ==> Count(main, Some(j)) == MainPass(tasks, |drones|, j)
    ensures NearestInTaskOrder(tasks, drones, Unassigned(|drones|), main)
    ensures TakenByNearest(tasks, drones, main, assign)
    ensures NearestInTaskOrder(tasks, drones, main, assign)
  {
    var p := RunMainPass(tasks, drones);
    var q := Sweep(tasks, drones, p);
    ServedByNearestAfter(tasks, drones, p.assign, q.assign);
    assign, main := q.assign, p.assign;
  }

  /**
   Two one-drone tasks, each with one drone standing on its zone centre: any
   result meeting AllocatePriority's contract gives each drone the task on
   its own zone, so the two drones cannot be swapped.
   */
  lemma DroneOnZoneServesIt(tasks: seq<Task>, drones: seq<Point>, assign: seq<Option<nat>>, main: seq<Option<nat>>)
    requires tasks == [Task(Attack, Zone(0, Point(0, 0), -1), 1, 0.0), Task(Attack, Zone(1, Point(1000, 0), -1), 1, 0.0)]
    requires drones == [Point(0, 0), Point(1000, 0)]
    requires forall j :: 0 <= j < |tasks| ==> Count(main, Some(j)) == MainPass(tasks, |drones|, j)
    requires NearestInTaskOrder(tasks, drones, Unassigned(|drones|), main)
    requires TakenByNearest(tasks, drones, main, assign)
    ensures assign == [Some(0), Some(1)]
  {
    OneDroneEach(tasks);
    TwoZonesInTaskOrder(tasks, drones, main);
    assert OnlyFreeTaken(main, assign);
  }

  /** Each of the two one-drone tasks gets its drone in the main pass. */
  lemma OneDroneEach(tasks: seq<Task>)
    requires tasks == [Task(Attack, Zone(0, Point(0, 0), -1), 1, 0.0), Task(Attack, Zone(1, Point(1000, 0), -1), 1, 0.0)]
    ensures MainPass(tasks, 2, 0) == 1 && MainPass(tasks, 2, 1) == 1
  {
    assert AvailableBefore(tasks, 2, 1) == 1;
  }
}
