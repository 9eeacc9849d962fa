/**
 The allocator used with more than two teams. It aims at a fixed number of
 zones, 1 + ceil(zones / teams), chosen as those nearest to the median of the
 zones my team owns, and serves at most one task per zone, each with exactly
 the drones it requires; there is no leftover pass.
 */
module FocusedAllocator {
  import opened Core
  import opened Helpers
  import opened Tasks
  import opened DronePool

  /** Ceiling of a / b: the least multiple count of b covering a. */
  function CeilDiv(a: nat, b: nat): (r: nat)
    requires b > 0
    ensures r * b >= a
    ensures r > 0 ==> (r - 1) * b < a
  {
    var q := (a + b - 1) / b;
    assert q * b <= a + b - 1 < (q + 1) * b;
    q
  }

  /** `1 + (int)Math.Ceiling(zones / (double)teams)`. */
  function ZonesToTargetCount(zones: nat, teams: nat): (r: nat)
    requires teams > 0
    ensures r >= 1
    ensures (r - 1) * teams >= zones
    ensures r > 1 ==> (r - 2) * teams < zones
  {
    1 + CeilDiv(zones, teams)
  }

  /** More zones than the target: defend first; exactly the target: defend, attack second; fewer: attack first. */
  function FocusedImportance(owned: nat, target: nat): (r: Importance)
    ensures Rank(r.defense) >= Rank(r.attack) <==> owned >= target
    ensures r.defense == High <==> owned >= target
    ensures r.attack == Low <==> owned > target
    ensures r.attack == Medium <==> owned == target
    ensures r.defense == Medium <==> owned < target
  {
    if owned > target then Importance(High, Low)
    else if owned == target then Importance(High, Medium)
    else Importance(Medium, High)
  }

  /** Owning more zones never lowers the importance of defense nor raises that of attack. */
  lemma FocusedImportanceMonotone(owned1: nat, owned2: nat, target: nat)
    requires owned1 <= owned2
    ensures Rank(FocusedImportance(owned1, target).defense) <= Rank(FocusedImportance(owned2, target).defense)
    ensures Rank(FocusedImportance(owned1, target).attack) >= Rank(FocusedImportance(owned2, target).attack)
  {
  }

  /**
   The zones to target: when I own some, the `target` zones nearest to the
   median of their centres (ordered by distance, nearest first); otherwise
   all zones.
   */
  function ZonesToTarget(zones: seq<Zone>, me: int, target: nat): (r: seq<Zone>)
    ensures |OwnedCenters(zones, me)| == 0 ==> r == zones
    ensures |OwnedCenters(zones, me)| > 0 ==>
              var median := GetMedianPoint(OwnedCenters(zones, me));
              && |r| == Min(target, |zones|)
              && multiset(r) <= multiset(zones)
              && (forall i, j :: 0 <= i < j < |r| ==> DistSq(median, r[i].center) <= DistSq(median, r[j].center))
              && (forall a, b :: a in r && b in zones && b !in r ==> DistSq(median, a.center) <= DistSq(median, b.center))
  {
    var centers := OwnedCenters(zones, me);
    if |centers| == 0 then zones else NearestZones(zones, GetMedianPoint(centers), target)
  }

  /** The `target` zones nearest to `median`, nearest first (all zones when there are fewer). */
  function NearestZones(zones: seq<Zone>, median: Point, target: nat): (r: seq<Zone>)
    ensures |r| == Min(target, |zones|)
    ensures multiset(r) <= multiset(zones)
    ensures forall i, j :: 0 <= i < j < |r| ==> DistSq(median, r[i].center) <= DistSq(median, r[j].center)
    ensures forall a, b :: a in r && b in zones && b !in r ==> DistSq(median, a.center) <= DistSq(median, b.center)
  {
    var key := (z: Zone) => DistSq(median, z.center);
    var sorted := SortBy(zones, key);
    var k := Min(target, |zones|);
    NearestPrefix(sorted, zones, key, k);
    sorted[..k]
  }

  /** A prefix of a sorted permutation holds elements no farther than anything left out. */
  lemma NearestPrefix(sorted: seq<Zone>, zones: seq<Zone>, key: Zone -> int, k: nat)
    requires SortedBy(sorted, key) && multiset(sorted) == multiset(zones) && k <= |sorted|
    ensures multiset(sorted[..k]) <= multiset(zones)
    ensures forall a, b :: a in sorted[..k] && b in zones && b !in sorted[..k] ==> key(a) <= key(b)
  {
    assert sorted == sorted[..k] + sorted[k..];
    assert multiset(sorted) == multiset(sorted[..k]) + multiset(sorted[k..]);
    forall a, b | a in sorted[..k] && b in zones && b !in sorted[..k]
      ensures key(a) <= key(b)
    {
      var i :| 0 <= i < k && sorted[i] == a;
      assert b in multiset(zones);
      assert b in sorted;
      var j :| 0 <= j < |sorted| && sorted[j] == b;
    }
  }

  /** Total drones required by the chosen tasks. */
  function RequiredOf(tasks: seq<Task>, chosen: seq<nat>): nat
    requires forall k :: 0 <= k < |chosen| ==> chosen[k] < |tasks|
  {
    if |chosen| == 0 then 0
    else RequiredOf(tasks, chosen[..|chosen| - 1]) + tasks[chosen[|chosen| - 1]].required
  }

  /** The zone ids of the chosen tasks, in order. */
  function ZoneIds(tasks: seq<Task>, chosen: seq<nat>): (r: seq<int>)
    requires forall k :: 0 <= k < |chosen| ==> chosen[k] < |tasks|
    ensures |r| == |chosen|
    ensures forall k :: 0 <= k < |chosen| ==> r[k] == tasks[chosen[k]].zone.id
  {
    seq(|chosen|, k requires 0 <= k < |chosen| => tasks[chosen[k]].zone.id)
  }

  /**
   Whether the allocation loop serves task i once the tasks in `chosen` are
   served, with n drones in all: its zone is targeted and not yet served,
   fewer than `target` zones are served, some drone is free, and at least
   the task's requirement of drones is free.
   */
  predicate Takes(tasks: seq<Task>, targets: seq<Zone>, target: nat, n: nat, chosen: seq<nat>, i: nat)
    requires i < |tasks| && forall k :: 0 <= k < |chosen| ==> chosen[k] < |tasks|
  {
    && tasks[i].zone in targets
    && tasks[i].zone.id !in ZoneIds(tasks, chosen)
    && |chosen| < target
    && RequiredOf(tasks, chosen) < n
    && n - RequiredOf(tasks, chosen) >= tasks[i].required
  }

  /**
   The tasks among the first i that the allocation loop serves, in order:
   each task in turn is added when Takes holds of it. Once the target is met
   or no drone is free, nothing more is added, which is the loop's early exit.
   */
  function ChosenUpTo(tasks: seq<Task>, targets: seq<Zone>, target: nat, n: nat, i: nat): (r: seq<nat>)
    requires i <= |tasks|
    ensures forall k :: 0 <= k < |r| ==> r[k] < i
    ensures |r| <= target && RequiredOf(tasks, r) <= n
  {
    if i == 0 then []
    else
      var c := ChosenUpTo(tasks, targets, target, n, i - 1);
      if Takes(tasks, targets, target, n, c, i - 1) then
        assert (c + [i - 1])[..|c|] == c;
        c + [i - 1]
      else c
  }

  /** Once the target is met or every drone is taken, later tasks are all passed over. */
  lemma {:induction false} ChosenStays(tasks: seq<Task>, targets: seq<Zone>, target: nat, n: nat, i: nat, j: nat)
    requires i <= j <= |tasks|
    requires var c := ChosenUpTo(tasks, targets, target, n, i); |c| >= target || RequiredOf(tasks, c) >= n
    ensures ChosenUpTo(tasks, targets, target, n, j) == ChosenUpTo(tasks, targets, target, n, i)
    decreases j
  {
    if j > i {
      ChosenStays(tasks, targets, target, n, i, j - 1);
    }
  }

  /** One more task: the choice grows by that task exactly when Takes holds of it. */
  lemma ChosenStep(tasks: seq<Task>, targets: seq<Zone>, target: nat, n: nat, j: nat)
    requires 0 < j <= |tasks|
    ensures var c := ChosenUpTo(tasks, targets, target, n, j - 1);
            ChosenUpTo(tasks, targets, target, n, j) == if Takes(tasks, targets, target, n, c, j - 1) then c + [j - 1] else c
  {
  }

  /** One more task adds at most that task. */
  lemma ChosenGrows(tasks: seq<Task>, targets: seq<Zone>, target: nat, n: nat, j: nat)
    requires 0 < j <= |tasks|
    ensures var c := ChosenUpTo(tasks, targets, target, n, j - 1);
            ChosenUpTo(tasks, targets, target, n, j) in {c, c + [j - 1]}
  {
  }

  /** `cj` is `ci` followed by elements no smaller than i. */
  predicate PrefixFrom(ci: seq<nat>, cj: seq<nat>, i: nat)
  {
    |ci| <= |cj| && cj[..|ci|] == ci && forall k :: |ci| <= k < |cj| ==> cj[k] >= i
  }

  /** Appending at most one element no smaller than i keeps a prefix-plus-tail-from-i shape. */
  lemma ExtendPrefix(ci: seq<nat>, cp: seq<nat>, cj: seq<nat>, i: nat, x: nat)
    requires PrefixFrom(ci, cp, i)
    requires cj in {cp, cp + [x]} && x >= i
    ensures PrefixFrom(ci, cj, i)
  {
    if cj != cp {
      assert cj[..|ci|] == cp[..|ci|];
      forall k | |ci| <= k < |cj|
        ensures cj[k] >= i
      {
        if k < |cp| {
          assert cj[k] == cp[k];
        }
      }
    }
  }

  /** The choice among the first i tasks is a prefix of the choice among the first j, extended by tasks from i on. */
  lemma {:induction false} ChosenExtends(tasks: seq<Task>, targets: seq<Zone>, target: nat, n: nat, i: nat, j: nat)
    requires i <= j <= |tasks|
    ensures PrefixFrom(ChosenUpTo(tasks, targets, target, n, i), ChosenUpTo(tasks, targets, target, n, j), i)
    decreases j
  {
    if j == i {
      assert ChosenUpTo(tasks, targets, target, n, i)[..|ChosenUpTo(tasks, targets, target, n, i)|]
             == ChosenUpTo(tasks, targets, target, n, i);
    } else {
      ChosenExtends(tasks, targets, target, n, i, j - 1);
      ChosenGrows(tasks, targets, target, n, j);
      ExtendPrefix(ChosenUpTo(tasks, targets, target, n, i), ChosenUpTo(tasks, targets, target, n, j - 1),
                   ChosenUpTo(tasks, targets, target, n, j), i, j - 1);
    }
  }

  /**
   Task i is served exactly when Takes holds of it given the tasks served
   before it: it is passed over exactly when its zone is not targeted or
   already served, the target is met, no drone is free, or fewer drones are
   free than it requires.
   */
  lemma ChosenExactly(tasks: seq<Task>, targets: seq<Zone>, target: nat, n: nat, i: nat)
    requires i < |tasks|
    ensures i in ChosenUpTo(tasks, targets, target, n, |tasks|) <==>
              Takes(tasks, targets, target, n, ChosenUpTo(tasks, targets, target, n, i), i)
  {
    var c, ci, cn := ChosenUpTo(tasks, targets, target, n, i), ChosenUpTo(tasks, targets, target, n, i + 1),
                     ChosenUpTo(tasks, targets, target, n, |tasks|);
    ChosenStep(tasks, targets, target, n, i + 1);
    assert i !in c;
    ChosenExtends(tasks, targets, target, n, i + 1, |tasks|);
    InPrefixOrTail(ci, cn, i);
  }

  /** An element below every later addition is in the extended sequence exactly when it is in the prefix. */
  lemma InPrefixOrTail(ci: seq<nat>, cn: seq<nat>, x: nat)
    requires PrefixFrom(ci, cn, x + 1)
    ensures x in cn <==> x in ci
  {
    if x in cn {
      var k :| 0 <= k < |cn| && cn[k] == x;
      assert k < |ci| && ci[k] == cn[k];
    }
    if x in ci {
      var k :| 0 <= k < |ci| && ci[k] == x;
      assert cn[k] == ci[k];
    }
  }

  /**
   With two drones and a target of two zones, the first of two tasks on the
   same targeted zone is served and the second is passed over, because its
   zone is already served, although a drone is still free for it.
   */
  lemma {:induction false} OneTaskPerTargetedZone(z: Zone)
    ensures var t := Task(Attack, z, 1, 0.5);
            ChosenUpTo([t, t], [z], 2, 2, 2) == [0]
  {
    var t := Task(Attack, z, 1, 0.5);
    var tasks := [t, t];
    assert ChosenUpTo(tasks, [z], 2, 2, 0) == [];
    assert Takes(tasks, [z], 2, 2, [], 0);
    assert ChosenUpTo(tasks, [z], 2, 2, 1) == [0];
    assert ZoneIds(tasks, [0]) == [z.id];
    assert !Takes(tasks, [z], 2, 2, [0], 1);
  }

  /** What the allocation loop keeps: each task's count is its requirement when served, else 0. */
  ghost predicate Recorded(assign: seq<Option<nat>>, tasks: seq<Task>, chosen: seq<nat>)
  {
    && (forall j :: 0 <= j < |tasks| ==> Count(assign, Some(j)) == (if j in chosen then tasks[j].required else 0))
    && (forall j: nat :: j >= |tasks| ==> Count(assign, Some(j)) == 0)
  }

  /** Serving task i, not yet served, with enough free drones: it joins `chosen` with its full requirement. */
  method ServeWhole(p: Pool, drones: seq<Point>, tasks: seq<Task>, chosen: seq<nat>, i: nat) returns (q: Pool)
    requires PoolOf(p.avail, p.assign) && |p.assign| == |drones|
    requires i < |tasks| && i !in chosen && |p.avail| >= tasks[i].required
    requires forall k :: 0 <= k < |chosen| ==> chosen[k] < |tasks|
    requires Recorded(p.assign, tasks, chosen)
    requires ServedByNearest(tasks, drones, p.assign)
    ensures PoolOf(q.avail, q.assign) && |q.assign| == |drones|
    ensures |q.avail| == |p.avail| - tasks[i].required
    ensures ServedByNearest(tasks, drones, q.assign)
    ensures Recorded(q.assign, tasks, chosen + [i])
    ensures RequiredOf(tasks, chosen + [i]) == RequiredOf(tasks, chosen) + tasks[i].required
    ensures OnlyFreeTaken(p.assign, q.assign)
    ensures forall d :: 0 <= d < |drones| && q.assign[d] != p.assign[d] ==>
              q.assign[d] == Some(i) && NearerThanFree(drones, q.assign, d, tasks[i].zone.center)
  {
    q := ServeTask(p, drones, tasks[i].zone.center, i, tasks[i].required);
    ServedByNearestAfter(tasks, drones, p.assign, q.assign);
    assert (chosen + [i])[..|chosen|] == chosen;
    forall j | 0 <= j < |tasks|
      ensures Count(q.assign, Some(j)) == (if j in chosen + [i] then tasks[j].required else 0)
    {
      assert j in chosen + [i] <==> j in chosen || j == i;
    }
  }

  /**
   The served tasks so far (below task i), in order, each on a targeted zone,
   with `ids` their zone ids, all different.
   */
  ghost predicate Served(tasks: seq<Task>, targets: seq<Zone>, chosen: seq<nat>, ids: seq<int>, i: nat)
  {
    && i <= |tasks| && |ids| == |chosen|
    && (forall k :: 0 <= k < |chosen| ==>
          chosen[k] < i && tasks[chosen[k]].zone in targets && ids[k] == tasks[chosen[k]].zone.id)
    && (forall a, b :: 0 <= a < b < |chosen| ==> chosen[a] < chosen[b] && ids[a] != ids[b])
  }

  lemma ServedAppend(tasks: seq<Task>, targets: seq<Zone>, chosen: seq<nat>, ids: seq<int>, i: nat)
    requires Served(tasks, targets, chosen, ids, i) && i < |tasks|
    requires tasks[i].zone in targets && tasks[i].zone.id !in ids
    ensures i !in chosen
    ensures Served(tasks, targets, chosen + [i], ids + [tasks[i].zone.id], i + 1)
  {
    var c, d := chosen + [i], ids + [tasks[i].zone.id];
    forall a, b | 0 <= a < b < |c|
      ensures c[a] < c[b] && d[a] != d[b]
    {
      if b == |chosen| {
        assert d[a] == ids[a];
      }
    }
  }

  lemma ServedTasks(tasks: seq<Task>, targets: seq<Zone>, chosen: seq<nat>, ids: seq<int>, i: nat)
    requires Served(tasks, targets, chosen, ids, i)
    ensures forall k :: 0 <= k < |chosen| ==> chosen[k] < |tasks| && tasks[chosen[k]].zone in targets
    ensures forall a, b :: 0 <= a < b < |chosen| ==>
              chosen[a] < chosen[b] && tasks[chosen[a]].zone.id != tasks[chosen[b]].zone.id
  {
  }

  /**
   The allocation loop's state after the first i tasks: the pool is
   consistent, the served tasks are those of ChosenUpTo with `ids` their zone
   ids, each holds exactly its requirement, the free drones are all the
   others, every drone with a task is at least as near to its zone as
   every free drone, and the served tasks took their drones in task order.
   */
  ghost predicate FocusedUpTo(tasks: seq<Task>, drones: seq<Point>, targets: seq<Zone>, target: nat,
                              p: Pool, chosen: seq<nat>, ids: seq<int>, i: nat)
  {
    && FocusedShares(tasks, drones, targets, target, p, chosen, ids, i)
    && NearestInTaskOrder(tasks, drones, Unassigned(|drones|), p.assign)
    && TakenBelow(Unassigned(|drones|), p.assign, i)
  }

  /** The part of FocusedUpTo about which tasks are served and with how many drones. */
  ghost predicate FocusedShares(tasks: seq<Task>, drones: seq<Point>, targets: seq<Zone>, target: nat,
                                p: Pool, chosen: seq<nat>, ids: seq<int>, i: nat)
  {
    && i <= |tasks|
    && PoolOf(p.avail, p.assign) && |p.assign| == |drones|
    && Served(tasks, targets, chosen, ids, i)
    && chosen == ChosenUpTo(tasks, targets, target, |drones|, i)
    && Recorded(p.assign, tasks, chosen)
    && |p.avail| == |drones| - RequiredOf(tasks, chosen)
    && ServedByNearest(tasks, drones, p.assign)
  }

  /**
   Task i's turn: served whole when its zone is targeted, not yet served, and
   enough drones are free; otherwise passed over.
   */
  method FocusedStep(tasks: seq<Task>, drones: seq<Point>, targets: seq<Zone>, target: nat,
                     p: Pool, chosen: seq<nat>, ids: seq<int>, i: nat)
    returns (q: Pool, chosen': seq<nat>, ids': seq<int>)
    requires i < |tasks| && |ids| < target && |p.avail| > 0
    requires FocusedUpTo(tasks, drones, targets, target, p, chosen, ids, i)
    ensures FocusedUpTo(tasks, drones, targets, target, q, chosen', ids', i + 1)
  {
    var task := tasks[i];
    if task.zone in targets && task.zone.id !in ids && |p.avail| >= task.required {
      q, chosen', ids' := FocusedServe(tasks, drones, targets, target, p, chosen, ids, i);
    } else {
      FocusedPass(tasks, drones, targets, target, p, chosen, ids, i);
      q, chosen', ids' := p, chosen, ids;
    }
    NearestInTaskOrderStep(tasks, drones, Unassigned(|drones|), p.assign, q.assign, i);
  }

  /** Task i is served whole; the drones it takes are the only ones that change. */
  method FocusedServe(tasks: seq<Task>, drones: seq<Point>, targets: seq<Zone>, target: nat,
                      p: Pool, chosen: seq<nat>, ids: seq<int>, i: nat)
    returns (q: Pool, chosen': seq<nat>, ids': seq<int>)
    requires i < |tasks| && |ids| < target && |p.avail| > 0
    requires FocusedShares(tasks, drones, targets, target, p, chosen, ids, i)
    requires tasks[i].zone in targets && tasks[i].zone.id !in ids && |p.avail| >= tasks[i].required
    ensures FocusedShares(tasks, drones, targets, target, q, chosen', ids', i + 1)
    ensures OnlyFreeTaken(p.assign, q.assign)
    ensures forall d :: 0 <= d < |drones| && q.assign[d] != p.assign[d] ==>
              q.assign[d] == Some(i) && NearerThanFree(drones, q.assign, d, tasks[i].zone.center)
  {
    assert ids == ZoneIds(tasks, chosen);
    ChosenStep(tasks, targets, target, |drones|, i + 1);
    ServedAppend(tasks, targets, chosen, ids, i);
    ServedTasks(tasks, targets, chosen, ids, i);
    q := ServeWhole(p, drones, tasks, chosen, i);
    chosen' := chosen + [i];
    ids' := ids + [tasks[i].zone.id];
  }

  /** Task i is passed over: nothing changes but the position. */
  lemma FocusedPass(tasks: seq<Task>, drones: seq<Point>, targets: seq<Zone>, target: nat,
                    p: Pool, chosen: seq<nat>, ids: seq<int>, i: nat)
    requires i < |tasks| && |ids| < target && |p.avail| > 0
    requires FocusedShares(tasks, drones, targets, target, p, chosen, ids, i)
    requires !(tasks[i].zone in targets && tasks[i].zone.id !in ids && |p.avail| >= tasks[i].required)
    ensures FocusedShares(tasks, drones, targets, target, p, chosen, ids, i + 1)
  {
    assert ids == ZoneIds(tasks, chosen);
    ChosenStep(tasks, targets, target, |drones|, i + 1);
  }

  /** Every task is served exactly when Takes holds of it given the tasks served before it. */
  lemma ChosenCharacterised(tasks: seq<Task>, targets: seq<Zone>, target: nat, n: nat)
    ensures forall i :: 0 <= i < |tasks| ==>
              (i in ChosenUpTo(tasks, targets, target, n, |tasks|) <==>
               Takes(tasks, targets, target, n, ChosenUpTo(tasks, targets, target, n, i), i))
  {
    forall i | 0 <= i < |tasks|
      ensures i in ChosenUpTo(tasks, targets, target, n, |tasks|) <==>
              Takes(tasks, targets, target, n, ChosenUpTo(tasks, targets, target, n, i), i)
    {
      ChosenExactly(tasks, targets, target, n, i);
    }
  }

  /**
   AllocateDronesToTasks on tasks already sorted by decreasing priority.
   Going down the tasks on the targeted zones, while fewer than `target`
   zones are served and drones remain, a task is served when its zone is not
   yet served and enough drones are free; it then gets exactly its required
   number of nearest drones. `chosen` lists the served tasks in order: it is
   ChosenUpTo over all tasks, so a task is served exactly when Takes holds of
   it. No drone left without a task is nearer to a task's zone than a drone
   serving it. The source first keeps only the tasks on targeted zones and
   then sorts them; the sort is stable, so walking all sorted tasks and
   passing over those off target visits the same tasks in the same order.
   */
  method AllocateFocused(tasks: seq<Task>, drones: seq<Point>, targets: seq<Zone>, target: nat)
    returns (assign: seq<Option<nat>>, chosen: seq<nat>)
    ensures |assign| == |drones|
    ensures |chosen| <= target
    ensures forall k :: 0 <= k < |chosen| ==> chosen[k] < |tasks| && tasks[chosen[k]].zone in targets
    ensures forall a, b :: 0 <= a < b < |chosen| ==>
              chosen[a] < chosen[b] && tasks[chosen[a]].zone.id != tasks[chosen[b]].zone.id
    ensures forall j :: 0 <= j < |tasks| ==>
              Count(assign, Some(j)) == (if j in chosen then tasks[j].required else 0)
    ensures forall j: nat :: j >= |tasks| ==> Count(assign, Some(j)) == 0
    ensures Count(assign, None) == |drones| - RequiredOf(tasks, chosen)
    ensures ServedByNearest(tasks, drones, assign)
    ensures NearestInTaskOrder(tasks, drones, Unassigned(|drones|), assign)
    ensures chosen == ChosenUpTo(tasks, targets, target, |drones|, |tasks|)
    ensures forall i :: 0 <= i < |tasks| ==>
              (i in chosen <==> Takes(tasks, targets, target, |drones|, ChosenUpTo(tasks, targets, target, |drones|, i), i))
  {
    var n := |drones|;
    FullPool(n);
    NearestInTaskOrderStart(tasks, drones, Unassigned(n));
    var p := Pool(AllDrones(n), Unassigned(n));
    chosen := [];
    var ids: seq<int> := [];
    var i := 0;
    while i < |tasks| && |ids| < target && |p.avail| > 0
      invariant FocusedUpTo(tasks, drones, targets, target, p, chosen, ids, i)
    {
      p, chosen, ids := FocusedStep(tasks, drones, targets, target, p, chosen, ids, i);
      i := i + 1;
    }
    if i < |tasks| {
      ChosenStays(tasks, targets, target, n, i, |tasks|);
    }
    assign := p.assign;
    ServedTasks(tasks, targets, chosen, ids, i);
    ChosenCharacterised(tasks, targets, target, n);
  }

  /**
   The whole allocator for team `me`: the target count, the zones to target,
   then the allocation: served tasks get exactly their requirement, every
   other drone stays free (there is no leftover pass), and no free drone is
   nearer to a task's zone than a drone serving it. The caller only uses it
   with more than two teams.
   */
  method AllocateDronesToTasks(me: int, zones: seq<Zone>, teams: nat, tasks: seq<Task>, drones: seq<Point>)
    returns (assign: seq<Option<nat>>, chosen: seq<nat>)
    requires teams > 0
    ensures |assign| == |drones|
    ensures |chosen| <= ZonesToTargetCount(|zones|, teams)
    ensures forall k :: 0 <= k < |chosen| ==>
              (chosen[k] < |tasks| && tasks[chosen[k]].zone in ZonesToTarget(zones, me, ZonesToTargetCount(|zones|, teams)))
    ensures forall a, b :: 0 <= a < b < |chosen| ==>
              chosen[a] < chosen[b] && tasks[chosen[a]].zone.id != tasks[chosen[b]].zone.id
    ensures forall j :: 0 <= j < |tasks| ==>
              Count(assign, Some(j)) == (if j in chosen then tasks[j].required else 0)
    ensures forall j: nat :: j >= |tasks| ==> Count(assign, Some(j)) == 0
    ensures Count(assign, None) == |drones| - RequiredOf(tasks, chosen)
    ensures ServedByNearest(tasks, drones, assign)
    ensures NearestInTaskOrder(tasks, drones, Unassigned(|drones|), assign)
    ensures var target := ZonesToTargetCount(|zones|, teams);
            var targets := ZonesToTarget(zones, me, target);
            && chosen == ChosenUpTo(tasks, targets, target, |drones|, |tasks|)
            && forall i :: 0 <= i < |tasks| ==>
                 (i in chosen <==> Takes(tasks, targets, target, |drones|, ChosenUpTo(tasks, targets, target, |drones|, i), i))
  {
    var target := ZonesToTargetCount(|zones|, teams);
    var targets := ZonesToTarget(zones, me, target);
    assign, chosen := AllocateFocused(tasks, drones, targets, target);
  }

  /**
   Two one-drone tasks on two targeted zones, each with one drone standing on
   its zone centre: both tasks are served, and any result meeting
   AllocateFocused's contract gives each drone the task on its own zone.
   */
  lemma {:induction false} FocusedDroneOnZoneServesIt(tasks: seq<Task>, drones: seq<Point>,
                                                      assign: seq<Option<nat>>, chosen: seq<nat>)
    requires tasks == [Task(Attack, Zone(0, Point(0, 0), -1), 1, 0.0), Task(Attack, Zone(1, Point(1000, 0), -1), 1, 0.0)]
    requires drones == [Point(0, 0), Point(1000, 0)]
    requires chosen == ChosenUpTo(tasks, [tasks[0].zone, tasks[1].zone], 2, |drones|, |tasks|)
    requires forall j :: 0 <= j < |tasks| ==> Count(assign, Some(j)) == (if j in chosen then tasks[j].required else 0)
    requires NearestInTaskOrder(tasks, drones, Unassigned(|drones|), assign)
    ensures chosen == [0, 1] && assign == [Some(0), Some(1)]
  {
    BothTargetedTasksChosen(tasks);
    assert Count(assign, Some(0)) == 1 && Count(assign, Some(1)) == 1;
    TwoZonesInTaskOrder(tasks, drones, assign);
  }

  /** Two one-drone tasks on two targeted zones, with two drones: both are served. */
  lemma {:induction false} BothTargetedTasksChosen(tasks: seq<Task>)
    requires tasks == [Task(Attack, Zone(0, Point(0, 0), -1), 1, 0.0), Task(Attack, Zone(1, Point(1000, 0), -1), 1, 0.0)]
    ensures ChosenUpTo(tasks, [tasks[0].zone, tasks[1].zone], 2, 2, 2) == [0, 1]
  {
    var targets := [tasks[0].zone, tasks[1].zone];
    assert ChosenUpTo(tasks, targets, 2, 2, 0) == [];
    assert Takes(tasks, targets, 2, 2, [], 0);
    assert ChosenUpTo(tasks, targets, 2, 2, 1) == [0];
    assert ZoneIds(tasks, [0]) == [0];
    assert Takes(tasks, targets, 2, 2, [0], 1);
  }
}
