/**
 The multi-task organizer, the one the task-based player uses. For each zone
 it builds a presence timeline over the next 25 turns (drones of each team
 arrived at the zone by each turn), replays the ownership rule of that
 timeline to score the turns my team would hold the zone with 0, 1, 2, ... of
 my nearest drones committed, and emits one task per drone count that adds
 value.

 ETAs are given naturals. Zones are handled in list order. The source
 enumerates an unordered parallel query over the zones, which may deliver
 them in any order, and appends each zone's tasks as it arrives, so the
 order of the emitted tasks across zones is not fixed there.
 */
module MultiTasksPerZone {
  import opened Core
  import opened Tasks
  import opened Helpers

  const NearDistance: nat := 3
  const ModerateDistance: nat := 12
  /** Length of the timeline, in turns. */
  const FarDistance: nat := 25
  /** int.MinValue, the initial maximum of the per-turn scan. */
  const IntMinValue: int := -2147483648

  /** A drone of team `teamId` reaching the zone after `eta` turns. */
  datatype Arrival = Arrival(teamId: nat, eta: nat)

  // ---------------------------------------------------------------------------
  // Presences
  // ---------------------------------------------------------------------------

  /** presences[t][p]: drones of team p at the zone at turn t, for t in [0, 25). */
  predicate IsTimeline(presences: seq<seq<nat>>, nbrTeams: nat)
  {
    |presences| == FarDistance && forall t :: 0 <= t < FarDistance ==> |presences[t]| == nbrTeams
  }

  function EmptyTimeline(nbrTeams: nat): (r: seq<seq<nat>>)
    ensures IsTimeline(r, nbrTeams)
    ensures forall t, p :: 0 <= t < FarDistance && 0 <= p < nbrTeams ==> r[t][p] == 0
  {
    seq(FarDistance, _ => seq(nbrTeams, _ => 0))
  }

  /** Number of arrivals of team `p` with ETA at most `t`. */
  function Arrived(arrivals: seq<Arrival>, p: int, t: int): nat
  {
    if |arrivals| == 0 then 0
    else (if arrivals[0].teamId == p && arrivals[0].eta <= t then 1 else 0) + Arrived(arrivals[1..], p, t)
  }

  /** The loop `for t = eta .. 24: presences[t, team]++` of one drone. */
  function AddArrival(presences: seq<seq<nat>>, nbrTeams: nat, a: Arrival): (r: seq<seq<nat>>)
    requires IsTimeline(presences, nbrTeams) && a.teamId < nbrTeams
    ensures IsTimeline(r, nbrTeams)
    ensures forall t, p :: 0 <= t < FarDistance && 0 <= p < nbrTeams ==>
              r[t][p] == presences[t][p] + (if p == a.teamId && a.eta <= t then 1 else 0)
  {
    seq(FarDistance, t requires 0 <= t < FarDistance =>
          if a.eta <= t then presences[t][a.teamId := presences[t][a.teamId] + 1] else presences[t])
  }

  /** The drones added one after the other: each adds 1 presence for every turn from its ETA on. */
  function AddArrivals(presences: seq<seq<nat>>, nbrTeams: nat, arrivals: seq<Arrival>): (r: seq<seq<nat>>)
    requires IsTimeline(presences, nbrTeams)
    requires forall i :: 0 <= i < |arrivals| ==> arrivals[i].teamId < nbrTeams
    ensures IsTimeline(r, nbrTeams)
    ensures forall t, p :: 0 <= t < FarDistance && 0 <= p < nbrTeams ==>
              r[t][p] == presences[t][p] + Arrived(arrivals, p, t)
    decreases |arrivals|
  {
    if |arrivals| == 0 then presences
    else AddArrivals(AddArrival(presences, nbrTeams, arrivals[0]), nbrTeams, arrivals[1..])
  }

  // ---------------------------------------------------------------------------
  // Ownership replay (calculateMyScore)
  // ---------------------------------------------------------------------------

  /** Team `i` has strictly more drones at the zone than every other team. */
  predicate UniqueMaxAt(row: seq<nat>, i: int)
  {
    0 <= i < |row| && forall j :: 0 <= j < |row| && j != i ==> row[j] < row[i]
  }

  datatype MaxScan = MaxScan(index: nat, isUnique: bool)

  /**
   The inner loop over teams: `maxIndex` is the first team with the largest
   presence, `isMaxUnique` is reset whenever another team equals the maximum.
   */
  function ScanMax(row: seq<nat>, p: nat, maxValue: int, maxIndex: nat, isUnique: bool): (r: MaxScan)
    requires p <= |row|
    requires p == 0 ==> maxValue == IntMinValue && maxIndex == 0 && !isUnique
    requires p > 0 ==> && maxIndex < p && maxValue == row[maxIndex]
                       && (forall j :: 0 <= j < p ==> row[j] <= maxValue)
                       && (isUnique <==> forall j :: 0 <= j < p && j != maxIndex ==> row[j] < maxValue)
    ensures r.isUnique <==> UniqueMaxAt(row, r.index)
    ensures forall i :: UniqueMaxAt(row, i) ==> i == r.index
    decreases |row| - p
  {
    if p == |row| then MaxScan(maxIndex, isUnique)
    else if row[p] > maxValue then ScanMax(row, p + 1, row[p], p, true)
    else if row[p] == maxValue then ScanMax(row, p + 1, maxValue, maxIndex, false)
    else ScanMax(row, p + 1, maxValue, maxIndex, isUnique)
  }

  function UniqueMax(row: seq<nat>): (r: MaxScan)
    ensures r.isUnique <==> UniqueMaxAt(row, r.index)
    ensures forall i :: UniqueMaxAt(row, i) ==> i == r.index
  {
    ScanMax(row, 0, IntMinValue, 0, false)
  }

  /** Owner of the zone after turn t of the timeline (t = -1: the current owner). */
  function OwnerAt(presences: seq<seq<nat>>, nbrTeams: nat, initialOwnerId: int, t: int): int
    requires IsTimeline(presences, nbrTeams) && -1 <= t < FarDistance
    decreases t + 1
  {
    if t < 0 then initialOwnerId
    else
      var scan := UniqueMax(presences[t]);
      if scan.isUnique then scan.index else OwnerAt(presences, nbrTeams, initialOwnerId, t - 1)
  }

  /**
   The owner changes only at a turn with a unique maximum presence, and then
   becomes that team; at a turn where the maximum is shared it is unchanged.
   */
  lemma OwnerChangesOnlyAtUniqueMax(presences: seq<seq<nat>>, nbrTeams: nat, initialOwnerId: int, t: int)
    requires IsTimeline(presences, nbrTeams) && 0 <= t < FarDistance
    ensures (exists i :: UniqueMaxAt(presences[t], i)) ==>
              UniqueMaxAt(presences[t], OwnerAt(presences, nbrTeams, initialOwnerId, t))
    ensures !(exists i :: UniqueMaxAt(presences[t], i)) ==>
              OwnerAt(presences, nbrTeams, initialOwnerId, t) == OwnerAt(presences, nbrTeams, initialOwnerId, t - 1)
    ensures OwnerAt(presences, nbrTeams, initialOwnerId, t) != OwnerAt(presences, nbrTeams, initialOwnerId, t - 1) ==>
              UniqueMaxAt(presences[t], OwnerAt(presences, nbrTeams, initialOwnerId, t))
  {
  }

  /** Number of turns among the first n at which team `me` owns the zone. */
  function TurnsOwned(presences: seq<seq<nat>>, nbrTeams: nat, initialOwnerId: int, me: int, n: nat): (r: nat)
    requires IsTimeline(presences, nbrTeams) && n <= FarDistance
    ensures r <= n
  {
    if n == 0 then 0
    else TurnsOwned(presences, nbrTeams, initialOwnerId, me, n - 1)
         + (if OwnerAt(presences, nbrTeams, initialOwnerId, n - 1) == me then 1 else 0)
  }

  /** The loop over turns of calculateMyScore, with the owner and score so far. */
  function ScoreFrom(presences: seq<seq<nat>>, nbrTeams: nat, initialOwnerId: int, me: int,
                     t: nat, ownerId: int, score: nat): (r: nat)
    requires IsTimeline(presences, nbrTeams) && t <= FarDistance
    requires ownerId == OwnerAt(presences, nbrTeams, initialOwnerId, t - 1)
    requires score == TurnsOwned(presences, nbrTeams, initialOwnerId, me, t)
    ensures r == TurnsOwned(presences, nbrTeams, initialOwnerId, me, FarDistance)
    decreases FarDistance - t
  {
    if t == FarDistance then score
    else
      var scan := UniqueMax(presences[t]);
      var owner := if scan.isUnique then scan.index else ownerId;
      ScoreFrom(presences, nbrTeams, initialOwnerId, me, t + 1, owner, score + (if owner == me then 1 else 0))
  }

  /** calculateMyScore: the number of the 25 turns at which my team owns the zone. */
  function CalculateMyScore(presences: seq<seq<nat>>, nbrTeams: nat, initialOwnerId: int, me: int): (r: nat)
    requires IsTimeline(presences, nbrTeams)
    ensures r == TurnsOwned(presences, nbrTeams, initialOwnerId, me, FarDistance)
    ensures r <= FarDistance
  {
    ScoreFrom(presences, nbrTeams, initialOwnerId, me, 0, initialOwnerId, 0)
  }

  /** A timeline where I hold a strict majority at every turn scores all 25 turns. */
  lemma MajorityEverywhereScoresAll(presences: seq<seq<nat>>, nbrTeams: nat, initialOwnerId: int, me: nat)
    requires IsTimeline(presences, nbrTeams)
    requires forall t :: 0 <= t < FarDistance ==> UniqueMaxAt(presences[t], me)
    ensures CalculateMyScore(presences, nbrTeams, initialOwnerId, me) == FarDistance
  {
    AllTurnsOwned(presences, nbrTeams, initialOwnerId, me, FarDistance);
  }

  lemma {:induction false} AllTurnsOwned(presences: seq<seq<nat>>, nbrTeams: nat, initialOwnerId: int, me: nat, n: nat)
    requires IsTimeline(presences, nbrTeams) && n <= FarDistance
    requires forall t :: 0 <= t < FarDistance ==> UniqueMaxAt(presences[t], me)
    ensures TurnsOwned(presences, nbrTeams, initialOwnerId, me, n) == n
  {
    if n > 0 {
      AllTurnsOwned(presences, nbrTeams, initialOwnerId, me, n - 1);
      OwnerChangesOnlyAtUniqueMax(presences, nbrTeams, initialOwnerId, n - 1);
    }
  }

  // ---------------------------------------------------------------------------
  // Scores per number of involved drones, added values, tasks
  // ---------------------------------------------------------------------------

  /** Enemies within 25 turns that are near (3 turns), or within 12 turns and heading here or unknown. */
  predicate IsRelevantEnemy(e: EnemyDrone, zoneId: int)
  {
    && e.eta <= FarDistance
    && (e.eta <= NearDistance || ((e.target == Some(zoneId) || e.intent == Unknown) && e.eta <= ModerateDistance))
  }

  /** Every relevant enemy belongs to one of the teams 0 .. nbrTeams-1. */
  predicate EnemyTeamsInRange(zone: Zone, enemies: seq<EnemyDrone>, nbrTeams: nat)
  {
    forall e :: e in enemies && IsRelevantEnemy(e, zone.id) ==> 0 <= e.teamId < nbrTeams
  }

  function RelevantEnemies(enemies: seq<EnemyDrone>, zoneId: int): (r: seq<EnemyDrone>)
    ensures forall e :: e in r <==> e in enemies && IsRelevantEnemy(e, zoneId)
    ensures forall e :: multiset(r)[e] == if IsRelevantEnemy(e, zoneId) then multiset(enemies)[e] else 0
  {
    if |enemies| == 0 then []
    else
      var r := (if IsRelevantEnemy(enemies[0], zoneId) then [enemies[0]] else []) + RelevantEnemies(enemies[1..], zoneId);
      assert forall x :: x in enemies ==> x == enemies[0] || x in enemies[1..];
      assert enemies == [enemies[0]] + enemies[1..];
      r
  }

  /** My drones within reach of the timeline (ETA at most 25). */
  function Reachable(etas: seq<nat>): (r: seq<nat>)
    ensures |r| <= |etas|
    ensures forall e :: e in r <==> e in etas && e <= FarDistance
    ensures multiset(r) <= multiset(etas)
    ensures forall e :: multiset(r)[e] == if e <= FarDistance then multiset(etas)[e] else 0
  {
    if |etas| == 0 then []
    else
      var r := (if etas[0] <= FarDistance then [etas[0]] else []) + Reachable(etas[1..]);
      assert etas == [etas[0]] + etas[1..];
      assert forall x :: x in etas ==> x == etas[0] || x in etas[1..];
      r
  }

  function EnemyArrivals(enemies: seq<EnemyDrone>): seq<Arrival>
    requires forall e :: e in enemies ==> e.teamId >= 0
  {
    seq(|enemies|, i requires 0 <= i < |enemies| => Arrival(enemies[i].teamId, enemies[i].eta))
  }

  function MyArrivals(me: nat, etas: seq<nat>): seq<Arrival>
  {
    seq(|etas|, i requires 0 <= i < |etas| => Arrival(me, etas[i]))
  }

  /**
   myScorePerInvolvedDrones: entry k is the score with the relevant enemies
   and my k nearest drones on the timeline; entries past the number of my
   drones within reach stay 0. The array has one entry per drone of mine, plus one.
   */
  function ScorePerInvolvedDrones(me: nat, nbrTeams: nat, zone: Zone, myEtas: seq<nat>, enemies: seq<EnemyDrone>)
    : (r: seq<nat>)
    requires me < nbrTeams
    requires EnemyTeamsInRange(zone, enemies, nbrTeams)
    ensures |r| == |myEtas| + 1
    ensures forall k :: 0 <= k < |r| ==> r[k] <= FarDistance
    ensures forall k :: |Reachable(myEtas)| < k < |r| ==> r[k] == 0
  {
    var mine := SortBy(Reachable(myEtas), x => x);
    ScoresFor(me, nbrTeams, zone.ownerId, EnemyTimeline(nbrTeams, zone, enemies), mine, |myEtas| + 1)
  }

  /** Entry k: the score with my first k drones of `mine` added (k up to |mine|), then zeros up to `len`. */
  function ScoresFor(me: nat, nbrTeams: nat, initialOwnerId: int, base: seq<seq<nat>>, mine: seq<nat>, len: nat)
    : (r: seq<nat>)
    requires me < nbrTeams && IsTimeline(base, nbrTeams) && |mine| < len
    ensures |r| == len
    ensures forall k :: 0 <= k < len ==> r[k] <= FarDistance
    ensures forall k :: |mine| < k < len ==> r[k] == 0
  {
    seq(len, k requires 0 <= k < len =>
          if k <= |mine| then ScoreWith(me, nbrTeams, initialOwnerId, base, mine[..k]) else 0)
  }

  /** The presences of the relevant enemies alone, before any drone of mine is added. */
  function EnemyTimeline(nbrTeams: nat, zone: Zone, enemies: seq<EnemyDrone>): (r: seq<seq<nat>>)
    requires EnemyTeamsInRange(zone, enemies, nbrTeams)
    ensures IsTimeline(r, nbrTeams)
    ensures forall t, p :: 0 <= t < FarDistance && 0 <= p < nbrTeams ==>
              r[t][p] == Arrived(EnemyArrivals(RelevantEnemies(enemies, zone.id)), p, t)
  {
    var relevant := RelevantEnemies(enemies, zone.id);
    AddArrivals(EmptyTimeline(nbrTeams), nbrTeams, EnemyArrivals(relevant))
  }

  /** The score on the enemies' timeline `base` once my drones with ETAs `etas` are added. */
  function ScoreWith(me: nat, nbrTeams: nat, initialOwnerId: int, base: seq<seq<nat>>, etas: seq<nat>): (r: nat)
    requires me < nbrTeams && IsTimeline(base, nbrTeams)
    ensures r <= FarDistance
  {
    CalculateMyScore(AddArrivals(base, nbrTeams, MyArrivals(me, etas)), nbrTeams, initialOwnerId, me)
  }

  /** Added value of each drone: the first entry is the score with none, later ones the gain, floored at 0. */
  function AddedValues(scores: seq<nat>): (r: seq<nat>)
    ensures |r| == |scores|
    ensures |r| > 0 ==> r[0] == scores[0]
    ensures forall i :: 0 <= i < |r| ==> (r[i] > 0 <==> if i == 0 then scores[0] > 0 else scores[i] > scores[i - 1])
    ensures forall i :: 0 < i < |r| && scores[i] > scores[i - 1] ==> scores[i] == scores[i - 1] + r[i]
  {
    seq(|scores|, i requires 0 <= i < |scores| =>
          if i == 0 then scores[0] else if scores[i] > scores[i - 1] then scores[i] - scores[i - 1] else 0)
  }

  /** The indices from `n` on whose added value is positive, in increasing order. */
  function PositiveFrom(added: seq<nat>, n: nat): (r: seq<nat>)
    requires n <= |added|
    ensures forall j :: 0 <= j < |r| ==> n <= r[j] < |added|
    ensures forall j, k :: 0 <= j < k < |r| ==> r[j] < r[k]
    ensures forall m :: m in r <==> n <= m < |added| && added[m] > 0
    decreases |added| - n
  {
    if n == |added| then []
    else
      var rest := PositiveFrom(added, n + 1);
      if added[n] > 0 then [n] + rest else rest
  }

  /**
   The tasks of one zone given its scores: a task requiring n drones, worth
   score[n], for every n whose added value is positive, in increasing n.
   */
  function TasksFromScores(kind: TaskType, zone: Zone, scores: seq<nat>): (r: seq<Task>)
    requires forall k :: 0 <= k < |scores| ==> scores[k] <= FarDistance
    ensures forall j :: 0 <= j < |r| ==>
              && r[j].kind == kind && r[j].zone == zone
              && r[j].required < |scores|
              && r[j].gain == scores[r[j].required] as real
    ensures forall j, k :: 0 <= j < k < |r| ==> r[j].required < r[k].required
    ensures forall n :: 0 <= n < |scores| ==>
              ((exists j :: 0 <= j < |r| && r[j].required == n) <==>
               (if n == 0 then scores[0] > 0 else scores[n] > scores[n - 1]))
  {
    var added := AddedValues(scores);
    var req := PositiveFrom(added, 0);
    TasksAt(kind, zone, scores, req)
  }

  /** One task per index of `req`, requiring that many drones and worth the score for it. */
  function TasksAt(kind: TaskType, zone: Zone, scores: seq<nat>, req: seq<nat>): (r: seq<Task>)
    requires forall j :: 0 <= j < |req| ==> req[j] < |scores|
    ensures |r| == |req|
    ensures forall j :: 0 <= j < |r| ==>
              r[j].kind == kind && r[j].zone == zone && r[j].required == req[j] && r[j].gain == scores[req[j]] as real
    ensures forall n :: (exists j :: 0 <= j < |r| && r[j].required == n) <==> n in req
  {
    var r := seq(|req|, j requires 0 <= j < |req| => Task(kind, zone, req[j], scores[req[j]] as real));
    assert forall n :: n in req ==> exists j :: 0 <= j < |r| && r[j].required == n by {
      forall n | n in req
        ensures exists j :: 0 <= j < |r| && r[j].required == n
      {
        var j :| 0 <= j < |req| && req[j] == n;
        assert r[j].required == n;
      }
    }
    r
  }

  /** Every gain is a number of turns among the 25 of the timeline. */
  lemma TaskGainsBounded(kind: TaskType, zone: Zone, scores: seq<nat>)
    requires forall k :: 0 <= k < |scores| ==> scores[k] <= FarDistance
    ensures forall t :: t in TasksFromScores(kind, zone, scores) ==> 0.0 <= t.gain <= FarDistance as real
  {
    var r := TasksFromScores(kind, zone, scores);
    forall t | t in r
      ensures 0.0 <= t.gain <= FarDistance as real
    {
      var j :| 0 <= j < |r| && r[j] == t;
      var g := scores[t.required];
      assert g <= FarDistance;
    }
  }

  /** DefineTasks for one zone: Defend tasks when I own it, Attack tasks otherwise. */
  function DefineZoneTasks(me: nat, nbrTeams: nat, zone: Zone, myEtas: seq<nat>, enemies: seq<EnemyDrone>)
    : (r: seq<Task>)
    requires me < nbrTeams
    requires EnemyTeamsInRange(zone, enemies, nbrTeams)
    ensures forall j :: 0 <= j < |r| ==>
              && r[j].kind == (if zone.ownerId == me then Defend else Attack)
              && r[j].zone == zone
              && r[j].required <= |myEtas|
    ensures forall j, k :: 0 <= j < k < |r| ==> r[j].required < r[k].required
  {
    var kind := if zone.ownerId == me then Defend else Attack;
    var scores := ScorePerInvolvedDrones(me, nbrTeams, zone, myEtas, enemies);
    TasksFromScores(kind, zone, scores)
  }

  /**
   DefineTasks: the tasks of every zone, zone after zone. A task is emitted
   exactly when DefineZoneTasks emits it for one of the zones; it is Defend on
   my zones and Attack on the others.
   */
  function DefineTasks(me: nat, nbrTeams: nat, views: seq<ZoneView>): (r: seq<Task>)
    requires me < nbrTeams
    requires forall k :: 0 <= k < |views| ==> EnemyTeamsInRange(views[k].zone, views[k].enemies, nbrTeams)
    ensures forall t :: t in r <==> exists k :: 0 <= k < |views| && t in ViewTasks(me, nbrTeams, views, k)
    ensures forall t :: t in r ==>
              && (exists k :: 0 <= k < |views| && t.zone == views[k].zone)
              && t.kind == (if t.zone.ownerId == me then Defend else Attack)
  {
    var lists := seq(|views|, k requires 0 <= k < |views| => ViewTasks(me, nbrTeams, views, k));
    var r := Flatten(lists);
    assert forall t :: t in r <==> exists k :: 0 <= k < |views| && t in ViewTasks(me, nbrTeams, views, k) by {
      forall t
        ensures t in r <==> exists k :: 0 <= k < |views| && t in ViewTasks(me, nbrTeams, views, k)
      {
        if t in r {
          var k :| 0 <= k < |lists| && t in lists[k];
        }
        if exists k :: 0 <= k < |views| && t in ViewTasks(me, nbrTeams, views, k) {
          var k :| 0 <= k < |views| && t in ViewTasks(me, nbrTeams, views, k);
          assert t in lists[k];
        }
      }
    }
    r
  }

  /** The tasks DefineZoneTasks gives for view k. */
  function ViewTasks(me: nat, nbrTeams: nat, views: seq<ZoneView>, k: nat): (r: seq<Task>)
    requires me < nbrTeams && k < |views|
    requires EnemyTeamsInRange(views[k].zone, views[k].enemies, nbrTeams)
    ensures forall t :: t in r ==> t.zone == views[k].zone && t.kind == (if t.zone.ownerId == me then Defend else Attack)
  {
    DefineZoneTasks(me, nbrTeams, views[k].zone, views[k].myEtas, views[k].enemies)
  }

  // ---------------------------------------------------------------------------
  // Committing one more drone never lowers the score
  // ---------------------------------------------------------------------------

  /** Timeline `b` has at least the presences of `a` for team `me` and the same for every other team. */
  predicate Boosted(a: seq<seq<nat>>, b: seq<seq<nat>>, nbrTeams: nat, me: nat)
  {
    && IsTimeline(a, nbrTeams) && IsTimeline(b, nbrTeams)
    && forall t, p :: 0 <= t < FarDistance && 0 <= p < nbrTeams ==>
         (if p == me then a[t][p] <= b[t][p] else a[t][p] == b[t][p])
  }

  /** On one turn: my unique majority survives a boost, and any other team's unique majority was already one. */
  lemma BoostedRow(ra: seq<nat>, rb: seq<nat>, me: nat)
    requires |ra| == |rb| && me < |ra|
    requires forall p :: 0 <= p < |ra| ==> (if p == me then ra[p] <= rb[p] else ra[p] == rb[p])
    ensures UniqueMaxAt(ra, me) ==> UniqueMaxAt(rb, me)
    ensures forall i :: i != me && UniqueMaxAt(rb, i) ==> UniqueMaxAt(ra, i)
  {
  }

  /** A turn my team owns on timeline `a` is still mine on the boosted timeline `b`. */
  lemma {:induction false} BoostKeepsOwnership(a: seq<seq<nat>>, b: seq<seq<nat>>, nbrTeams: nat, initialOwnerId: int,
                                               me: nat, t: int)
    requires me < nbrTeams && Boosted(a, b, nbrTeams, me) && -1 <= t < FarDistance
    requires OwnerAt(a, nbrTeams, initialOwnerId, t) == me
    ensures OwnerAt(b, nbrTeams, initialOwnerId, t) == me
    decreases t + 1
  {
    if t >= 0 {
      BoostedRow(a[t], b[t], me);
      if !UniqueMax(a[t]).isUnique {
        BoostKeepsOwnership(a, b, nbrTeams, initialOwnerId, me, t - 1);
      }
    }
  }

  /** Boosting my presences never lowers the number of turns I own. */
  lemma {:induction false} BoostKeepsScore(a: seq<seq<nat>>, b: seq<seq<nat>>, nbrTeams: nat, initialOwnerId: int,
                                           me: nat, n: nat)
    requires me < nbrTeams && Boosted(a, b, nbrTeams, me) && n <= FarDistance
    ensures TurnsOwned(a, nbrTeams, initialOwnerId, me, n) <= TurnsOwned(b, nbrTeams, initialOwnerId, me, n)
  {
    if n > 0 {
      BoostKeepsScore(a, b, nbrTeams, initialOwnerId, me, n - 1);
      if OwnerAt(a, nbrTeams, initialOwnerId, n - 1) == me {
        BoostKeepsOwnership(a, b, nbrTeams, initialOwnerId, me, n - 1);
      }
    }
  }

  lemma {:induction false} ArrivedConcat(x: seq<Arrival>, y: seq<Arrival>, p: int, t: int)
    ensures Arrived(x + y, p, t) == Arrived(x, p, t) + Arrived(y, p, t)
  {
    if |x| == 0 {
      assert x + y == y;
    } else {
      assert (x + y)[1..] == x[1..] + y;
      ArrivedConcat(x[1..], y, p, t);
    }
  }

  /** Adding my drone with ETA `eta` adds 1 to my presence from that turn on and nothing to the others'. */
  lemma OneMoreArrival(me: nat, etas: seq<nat>, eta: nat, p: int, t: int)
    ensures Arrived(MyArrivals(me, etas + [eta]), p, t) ==
            Arrived(MyArrivals(me, etas), p, t) + (if p == me && eta <= t then 1 else 0)
  {
    assert MyArrivals(me, etas + [eta]) == MyArrivals(me, etas) + [Arrival(me, eta)];
    ArrivedConcat(MyArrivals(me, etas), [Arrival(me, eta)], p, t);
    assert [Arrival(me, eta)][1..] == [];
  }

  /** The timeline with my drone `eta` added is a boost of the one without it. */
  lemma OneMoreDroneBoosts(me: nat, nbrTeams: nat, base: seq<seq<nat>>, etas: seq<nat>, eta: nat)
    requires me < nbrTeams && IsTimeline(base, nbrTeams)
    ensures Boosted(AddArrivals(base, nbrTeams, MyArrivals(me, etas)),
                    AddArrivals(base, nbrTeams, MyArrivals(me, etas + [eta])), nbrTeams, me)
  {
    forall t, p | 0 <= t < FarDistance && 0 <= p < nbrTeams
      ensures Arrived(MyArrivals(me, etas + [eta]), p, t) ==
              Arrived(MyArrivals(me, etas), p, t) + (if p == me && eta <= t then 1 else 0)
    {
      OneMoreArrival(me, etas, eta, p, t);
    }
  }

  /** Adding one drone of mine to the timeline never lowers my score. */
  lemma OneMoreDroneNeverLowersScore(me: nat, nbrTeams: nat, initialOwnerId: int, base: seq<seq<nat>>,
                                     etas: seq<nat>, eta: nat)
    requires me < nbrTeams && IsTimeline(base, nbrTeams)
    ensures ScoreWith(me, nbrTeams, initialOwnerId, base, etas) <= ScoreWith(me, nbrTeams, initialOwnerId, base, etas + [eta])
  {
    OneMoreDroneBoosts(me, nbrTeams, base, etas, eta);
    BoostKeepsScore(AddArrivals(base, nbrTeams, MyArrivals(me, etas)),
                    AddArrivals(base, nbrTeams, MyArrivals(me, etas + [eta])),
                    nbrTeams, initialOwnerId, me, FarDistance);
  }

  /** The scores for 0, 1, 2, ... of the drones `mine` never decrease while there are drones to add. */
  lemma ScoresForMonotone(me: nat, nbrTeams: nat, initialOwnerId: int, base: seq<seq<nat>>, mine: seq<nat>, len: nat, k: nat)
    requires me < nbrTeams && IsTimeline(base, nbrTeams) && |mine| < len && k < |mine|
    ensures ScoresFor(me, nbrTeams, initialOwnerId, base, mine, len)[k] <=
            ScoresFor(me, nbrTeams, initialOwnerId, base, mine, len)[k + 1]
  {
    assert mine[..k + 1] == mine[..k] + [mine[k]];
    OneMoreDroneNeverLowersScore(me, nbrTeams, initialOwnerId, base, mine[..k], mine[k]);
  }

  /**
   Entry k+1 of myScorePerInvolvedDrones is at least entry k while my k+1-th
   nearest drone is within reach: one more drone of mine never loses a turn
   of ownership. So each added value is exactly the gain over the previous
   count.
   */
  lemma MoreDronesNeverLowerScore(me: nat, nbrTeams: nat, zone: Zone, myEtas: seq<nat>, enemies: seq<EnemyDrone>, k: nat)
    requires me < nbrTeams
    requires EnemyTeamsInRange(zone, enemies, nbrTeams)
    requires k < |Reachable(myEtas)|
    ensures ScorePerInvolvedDrones(me, nbrTeams, zone, myEtas, enemies)[k] <=
            ScorePerInvolvedDrones(me, nbrTeams, zone, myEtas, enemies)[k + 1]
    ensures AddedValues(ScorePerInvolvedDrones(me, nbrTeams, zone, myEtas, enemies))[k + 1] ==
            ScorePerInvolvedDrones(me, nbrTeams, zone, myEtas, enemies)[k + 1] -
            ScorePerInvolvedDrones(me, nbrTeams, zone, myEtas, enemies)[k]
  {
    var mine := SortBy(Reachable(myEtas), x => x);
    ScoresForMonotone(me, nbrTeams, zone.ownerId, EnemyTimeline(nbrTeams, zone, enemies), mine, |myEtas| + 1, k);
  }
}
