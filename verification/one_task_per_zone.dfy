/**
 The one-task-per-zone organizer: wave-based combat simulations for attacking
 and defending a zone, their aggregation over enemy squads, and the resulting
 task (required drones and payoff).

 ETAs (turns needed to reach the zone's edge) are given naturals. The source
 groups drones into waves of equal ETA and walks the waves by ascending ETA;
 here every turn 0..15 is visited. A turn without drones adds nothing to either
 side and repeats the check of the previous wave, which had failed, so it
 cannot decide anything; `AttackTurnIsAWave` and `DefenseTurnIsAWave` show the
 deciding turn is always the ETA of a real drone.
 */
module OneTaskPerZone {
  import opened Core
  import opened Tasks

  /** Horizon of the simulations, in turns. */
  const TurnsConsidered: nat := 15
  /** Zone.Radius * 3 / MaxMoveDistance: enemies this close (in turns) always count. */
  const SurroundingDistance: nat := 3

  /** Result of a simulation: drones required and the deciding turn. */
  datatype Outcome = Outcome(required: nat, turns: nat)

  /** Number of ETAs at most `t` (the drones arrived by turn t). */
  function CountUpTo(etas: seq<nat>, t: int): nat
    ensures CountUpTo(etas, t) <= |etas|
  {
    if |etas| == 0 then 0
    else (if etas[0] <= t then 1 else 0) + CountUpTo(etas[1..], t)
  }

  /** Number of ETAs equal to `t` (the size of that wave). */
  function CountAt(etas: seq<nat>, t: int): nat
  {
    if |etas| == 0 then 0
    else (if etas[0] == t then 1 else 0) + CountAt(etas[1..], t)
  }

  lemma {:induction false} CountUpToStep(etas: seq<nat>, t: int)
    ensures CountUpTo(etas, t) == CountUpTo(etas, t - 1) + CountAt(etas, t)
  {
    if |etas| > 0 {
      CountUpToStep(etas[1..], t);
    }
  }

  lemma {:induction false} CountUpToNegative(etas: seq<nat>)
    ensures CountUpTo(etas, -1) == 0
  {
    if |etas| > 0 {
      CountUpToNegative(etas[1..]);
    }
  }

  lemma {:induction false} CountAtPositive(etas: seq<nat>, t: int)
    requires CountAt(etas, t) > 0
    ensures t in etas
  {
    if etas[0] != t {
      CountAtPositive(etas[1..], t);
    }
  }

  // ---------------------------------------------------------------------------
  // Attack
  // ---------------------------------------------------------------------------

  /** My drones win at turn t when more of them than of the enemies have arrived. */
  predicate AttackWinsAt(allies: seq<nat>, enemies: seq<nat>, t: int)
  {
    CountUpTo(allies, t) > CountUpTo(enemies, t)
  }

  /** The wave walk of CalculateRequiredDronesForAttack from turn t, with the totals of earlier turns. */
  function AttackFrom(allies: seq<nat>, enemies: seq<nat>, t: nat, nbrAllies: nat, nbrEnemies: nat): (o: Outcome)
    requires t <= TurnsConsidered + 1
    requires nbrAllies == CountUpTo(allies, t - 1) && nbrEnemies == CountUpTo(enemies, t - 1)
    requires forall u :: 0 <= u < t ==> !AttackWinsAt(allies, enemies, u)
    ensures o.turns <= TurnsConsidered
    ensures forall u :: 0 <= u < o.turns ==> !AttackWinsAt(allies, enemies, u)
    ensures o.required > 0 ==> AttackWinsAt(allies, enemies, o.turns) && o.required == CountUpTo(enemies, o.turns) + 1
    ensures o.required == 0 ==> o.turns == TurnsConsidered && !AttackWinsAt(allies, enemies, TurnsConsidered)
    decreases TurnsConsidered + 1 - t
  {
    if t > TurnsConsidered then Outcome(0, TurnsConsidered)
    else
      var alliesBackup := CountAt(allies, t);
      var enemiesBackup := CountAt(enemies, t);
      CountUpToStep(allies, t);
      CountUpToStep(enemies, t);
      if nbrAllies + alliesBackup > nbrEnemies + enemiesBackup then
        Outcome(nbrEnemies + enemiesBackup + 1, t)
      else
        AttackFrom(allies, enemies, t + 1, nbrAllies + alliesBackup, nbrEnemies + enemiesBackup)
  }

  /**
   CalculateRequiredDronesForAttack. Success is the first turn (at most 15) at
   which more of my drones than enemies have arrived; it needs one drone more
   than the enemies arrived by then, which my drones can provide. Without
   success the result is 0 drones at the horizon. The source reads my team id
   from my first drone, so my drone list must not be empty.
   */
  function CalculateRequiredDronesForAttack(allies: seq<nat>, enemies: seq<nat>): (o: Outcome)
    requires |allies| > 0
    ensures o.turns <= TurnsConsidered
    ensures forall u :: 0 <= u < o.turns ==> !AttackWinsAt(allies, enemies, u)
    ensures o.required > 0 <==> AttackWinsAt(allies, enemies, o.turns)
    ensures o.required > 0 ==> CountUpTo(enemies, o.turns) < o.required <= CountUpTo(allies, o.turns)
    ensures o.required > 0 ==> o.required == CountUpTo(enemies, o.turns) + 1
    ensures o.required == 0 ==> o.turns == TurnsConsidered
  {
    CountUpToNegative(allies);
    CountUpToNegative(enemies);
    AttackFrom(allies, enemies, 0, 0, 0)
  }

  /** The turn an attack succeeds at is the ETA of one of my drones: a real wave. */
  lemma AttackTurnIsAWave(allies: seq<nat>, enemies: seq<nat>)
    requires |allies| > 0
    ensures var o := CalculateRequiredDronesForAttack(allies, enemies);
            o.required > 0 ==> o.turns in allies
  {
    var o := CalculateRequiredDronesForAttack(allies, enemies);
    if o.required > 0 {
      CountUpToStep(allies, o.turns);
      CountUpToStep(enemies, o.turns);
      if o.turns > 0 {
        assert !AttackWinsAt(allies, enemies, o.turns - 1);
      } else {
        CountUpToNegative(allies);
        CountUpToNegative(enemies);
      }
      CountAtPositive(allies, o.turns);
    }
  }

  /** One of my drones already at the zone and no enemy: attack with 1 drone at turn 0. */
  lemma SingleDroneTakesEmptyZone()
    ensures CalculateRequiredDronesForAttack([0], []) == Outcome(1, 0)
  {
    assert AttackWinsAt([0], [], 0);
  }

  // ---------------------------------------------------------------------------
  // Defense
  // ---------------------------------------------------------------------------

  /** The defense fails at turn t when fewer of my drones than enemies have arrived. */
  predicate DefenseFailsAt(allies: seq<nat>, enemies: seq<nat>, t: int)
  {
    CountUpTo(allies, t) < CountUpTo(enemies, t)
  }

  function DefenseFrom(allies: seq<nat>, enemies: seq<nat>, t: nat, nbrAllies: nat, nbrEnemies: nat): (o: Outcome)
    requires t <= TurnsConsidered + 1
    requires nbrAllies == CountUpTo(allies, t - 1) && nbrEnemies == CountUpTo(enemies, t - 1)
    requires forall u :: 0 <= u < t ==> !DefenseFailsAt(allies, enemies, u)
    ensures o.turns <= TurnsConsidered
    ensures forall u :: 0 <= u < o.turns ==> !DefenseFailsAt(allies, enemies, u)
    ensures DefenseFailsAt(allies, enemies, o.turns) ==> o.required == CountUpTo(allies, o.turns - 1)
    ensures !DefenseFailsAt(allies, enemies, o.turns) ==>
              o.turns == TurnsConsidered && o.required == CountUpTo(enemies, TurnsConsidered)
    decreases TurnsConsidered + 1 - t
  {
    if t > TurnsConsidered then Outcome(nbrEnemies, TurnsConsidered)
    else
      var alliesBackup := CountAt(allies, t);
      var enemiesBackup := CountAt(enemies, t);
      CountUpToStep(allies, t);
      CountUpToStep(enemies, t);
      if nbrAllies + alliesBackup < nbrEnemies + enemiesBackup then
        Outcome(nbrAllies, t)
      else
        DefenseFrom(allies, enemies, t + 1, nbrAllies + alliesBackup, nbrEnemies + enemiesBackup)
  }

  /**
   CalculateRequiredDronesForDefense. Failure is the first turn (at most 15) at
   which fewer of my drones than enemies have arrived; the result is my drones
   arrived before that turn. If the defense never fails, the result is the
   number of enemies arrived within the horizon (not 0), at turn 15.
   */
  function CalculateRequiredDronesForDefense(allies: seq<nat>, enemies: seq<nat>): (o: Outcome)
    requires |allies| > 0
    ensures o.turns <= TurnsConsidered
    ensures forall u :: 0 <= u < o.turns ==> !DefenseFailsAt(allies, enemies, u)
    ensures DefenseFailsAt(allies, enemies, o.turns) ==> o.required == CountUpTo(allies, o.turns - 1)
    ensures !DefenseFailsAt(allies, enemies, o.turns) ==>
              o.turns == TurnsConsidered && o.required == CountUpTo(enemies, TurnsConsidered)
  {
    CountUpToNegative(allies);
    CountUpToNegative(enemies);
    DefenseFrom(allies, enemies, 0, 0, 0)
  }

  /** The turn a defense fails at is the ETA of an enemy drone: a real wave. */
  lemma DefenseTurnIsAWave(allies: seq<nat>, enemies: seq<nat>)
    requires |allies| > 0
    ensures var o := CalculateRequiredDronesForDefense(allies, enemies);
            DefenseFailsAt(allies, enemies, o.turns) ==> o.turns in enemies
  {
    var o := CalculateRequiredDronesForDefense(allies, enemies);
    if DefenseFailsAt(allies, enemies, o.turns) {
      CountUpToStep(allies, o.turns);
      CountUpToStep(enemies, o.turns);
      if o.turns > 0 {
        assert !DefenseFailsAt(allies, enemies, o.turns - 1);
      } else {
        CountUpToNegative(allies);
        CountUpToNegative(enemies);
      }
      CountAtPositive(enemies, o.turns);
    }
  }

  /** A defense that never fails still reports the enemies arrived within the horizon. */
  lemma SafeDefenseReportsEnemies()
    ensures CalculateRequiredDronesForDefense([0, 0], [4]) == Outcome(1, TurnsConsidered)
  {
    var o := CalculateRequiredDronesForDefense([0, 0], [4]);
    assert CountUpTo([0, 0], o.turns) == 2;
  }

  // ---------------------------------------------------------------------------
  // Squads and aggregation
  // ---------------------------------------------------------------------------

  /** Distinct team ids of `s`, in order of first appearance (the keys of a lookup by team). */
  function SquadIds(s: seq<EnemyDrone>, seen: seq<int>): (r: seq<int>)
    ensures forall id :: id in r <==> id in seen || exists e :: e in s && e.teamId == id
    decreases |s|
  {
    if |s| == 0 then seen
    else
      var next := if s[0].teamId in seen then seen else seen + [s[0].teamId];
      var r := SquadIds(s[1..], next);
      assert forall e :: e in s ==> e == s[0] || e in s[1..];
      r
  }

  /** ETAs of the drones of team `id`. */
  function SquadEtas(s: seq<EnemyDrone>, id: int): (r: seq<nat>)
    ensures |r| <= |s|
  {
    if |s| == 0 then []
    else (if s[0].teamId == id then [s[0].eta] else []) + SquadEtas(s[1..], id)
  }

  /** Outcome `a` is at least as demanding an attack as `b`: later, or as late with more drones. */
  predicate AttackDemands(a: Outcome, b: Outcome)
  {
    a.turns > b.turns || (a.turns == b.turns && a.required >= b.required)
  }

  /** Outcome `a` is at least as urgent a defense as `b`: earlier, or as early with more drones. */
  predicate DefenseDemands(a: Outcome, b: Outcome)
  {
    a.turns < b.turns || (a.turns == b.turns && a.required >= b.required)
  }

  /**
   Attack aggregation over the other attacking squads' outcomes: a later
   outcome replaces the current one, an equally late one raises its
   requirement; the result is the most demanding outcome.
   */
  function AggregateAttack(outcomes: seq<Outcome>, best: Outcome): (r: Outcome)
    ensures AttackDemands(r, best)
    ensures forall i :: 0 <= i < |outcomes| ==> AttackDemands(r, outcomes[i])
    ensures r == best || r in outcomes
    decreases |outcomes|
  {
    if |outcomes| == 0 then best
    else
      var o := outcomes[0];
      var next :=
        if o.turns == best.turns then (if o.required > best.required then Outcome(o.required, best.turns) else best)
        else if o.turns > best.turns then o
        else best;
      var r := AggregateAttack(outcomes[1..], next);
      assert forall i :: 1 <= i < |outcomes| ==> outcomes[i] == outcomes[1..][i - 1];
      r
  }

  /**
   Defense aggregation over the attacking squads' outcomes: the first one is
   taken, an earlier one replaces it, an equally early one raises its
   requirement; the result is the most urgent outcome.
   */
  function AggregateDefense(outcomes: seq<Outcome>, best: Option<Outcome>): (r: Option<Outcome>)
    ensures r.None? <==> best.None? && |outcomes| == 0
    ensures best.Some? ==> r.Some? && DefenseDemands(r.value, best.value)
    ensures r.Some? ==> forall i :: 0 <= i < |outcomes| ==> DefenseDemands(r.value, outcomes[i])
    ensures r == best || (r.Some? && r.value in outcomes)
    decreases |outcomes|
  {
    if |outcomes| == 0 then best
    else
      var o := outcomes[0];
      var next :=
        if best.None? || o.turns < best.value.turns then Some(o)
        else if o.turns == best.value.turns && o.required > best.value.required then Some(Outcome(o.required, best.value.turns))
        else best;
      var r := AggregateDefense(outcomes[1..], next);
      assert forall i :: 1 <= i < |outcomes| ==> outcomes[i] == outcomes[1..][i - 1];
      r
  }

  /** The attack outcome against each squad of `enemies`. */
  function AttackOutcomes(allies: seq<nat>, squads: seq<int>, enemies: seq<EnemyDrone>): (r: seq<Outcome>)
    requires |allies| > 0
    ensures |r| == |squads|
    ensures forall i :: 0 <= i < |squads| ==> r[i] == CalculateRequiredDronesForAttack(allies, SquadEtas(enemies, squads[i]))
  {
    seq(|squads|, i requires 0 <= i < |squads| => CalculateRequiredDronesForAttack(allies, SquadEtas(enemies, squads[i])))
  }

  /** The defense outcome against each squad of `enemies`. */
  function DefenseOutcomes(allies: seq<nat>, squads: seq<int>, enemies: seq<EnemyDrone>): (r: seq<Outcome>)
    requires |allies| > 0
    ensures |r| == |squads|
    ensures forall i :: 0 <= i < |squads| ==> r[i] == CalculateRequiredDronesForDefense(allies, SquadEtas(enemies, squads[i]))
  {
    seq(|squads|, i requires 0 <= i < |squads| => CalculateRequiredDronesForDefense(allies, SquadEtas(enemies, squads[i])))
  }

  // ---------------------------------------------------------------------------
  // DefineTasks
  // ---------------------------------------------------------------------------

  /** An enemy near the zone (by ETA) or heading for it with the given intent. */
  predicate IsRelevant(e: EnemyDrone, zone: Zone, intent: TaskType)
  {
    e.eta <= SurroundingDistance || (e.intent == intent && e.target == Some(zone.id))
  }

  /** Enemies near the zone (by ETA) or heading for it with the given intent, each copy kept. */
  function Relevant(enemies: seq<EnemyDrone>, zone: Zone, intent: TaskType): (r: seq<EnemyDrone>)
    ensures forall e :: e in r <==> e in enemies && IsRelevant(e, zone, intent)
    ensures forall e :: multiset(r)[e] == if IsRelevant(e, zone, intent) then multiset(enemies)[e] else 0
  {
    if |enemies| == 0 then []
    else
      var e := enemies[0];
      var r := (if IsRelevant(e, zone, intent) then [e] else []) + Relevant(enemies[1..], zone, intent);
      assert forall x :: x in enemies ==> x == e || x in enemies[1..];
      assert enemies == [e] + enemies[1..];
      r
  }

  /** The enemies of the teams other than (or equal to) `owner`. */
  function OfTeam(enemies: seq<EnemyDrone>, owner: int, same: bool): (r: seq<EnemyDrone>)
    ensures forall e :: e in r <==> e in enemies && (e.teamId == owner) == same
    ensures forall e :: multiset(r)[e] == if (e.teamId == owner) == same then multiset(enemies)[e] else 0
  {
    if |enemies| == 0 then []
    else
      var e := enemies[0];
      var r := (if (e.teamId == owner) == same then [e] else []) + OfTeam(enemies[1..], owner, same);
      assert forall x :: x in enemies ==> x == e || x in enemies[1..];
      assert enemies == [e] + enemies[1..];
      r
  }

  function Etas(s: seq<EnemyDrone>): (r: seq<nat>)
    ensures |r| == |s| && forall i :: 0 <= i < |s| ==> r[i] == s[i].eta
  {
    seq(|s|, i requires 0 <= i < |s| => s[i].eta)
  }

  /**
   The attack plan: the simulation against the owner's relevant defenders,
   then against every other relevant squad (near, or attacking this zone),
   keeping the most demanding outcome.
   */
  function AttackPlan(allies: seq<nat>, zone: Zone, enemies: seq<EnemyDrone>): (o: Outcome)
    requires |allies| > 0
    ensures var defenders := Etas(OfTeam(Relevant(enemies, zone, Defend), zone.ownerId, true));
            AttackDemands(o, CalculateRequiredDronesForAttack(allies, defenders))
    ensures var others := OfTeam(Relevant(enemies, zone, Attack), zone.ownerId, false);
            forall e :: e in others ==>
              AttackDemands(o, CalculateRequiredDronesForAttack(allies, SquadEtas(others, e.teamId)))
    ensures var defenders := Etas(OfTeam(Relevant(enemies, zone, Defend), zone.ownerId, true));
            var others := OfTeam(Relevant(enemies, zone, Attack), zone.ownerId, false);
            || o == CalculateRequiredDronesForAttack(allies, defenders)
            || exists e :: e in others && o == CalculateRequiredDronesForAttack(allies, SquadEtas(others, e.teamId))
    ensures o.turns <= TurnsConsidered
  {
    var defenders := Etas(OfTeam(Relevant(enemies, zone, Defend), zone.ownerId, true));
    var others := OfTeam(Relevant(enemies, zone, Attack), zone.ownerId, false);
    AttackOverSquads(allies, CalculateRequiredDronesForAttack(allies, defenders), others)
  }

  /** The most demanding of `first` and the attack outcomes against each squad of `others`, attained by one of them. */
  function AttackOverSquads(allies: seq<nat>, first: Outcome, others: seq<EnemyDrone>): (o: Outcome)
    requires |allies| > 0 && first.turns <= TurnsConsidered
    ensures AttackDemands(o, first)
    ensures forall e :: e in others ==>
              AttackDemands(o, CalculateRequiredDronesForAttack(allies, SquadEtas(others, e.teamId)))
    ensures o == first || exists e :: e in others && o == CalculateRequiredDronesForAttack(allies, SquadEtas(others, e.teamId))
    ensures o.turns <= TurnsConsidered
  {
    var squads := SquadIds(others, []);
    var outcomes := AttackOutcomes(allies, squads, others);
    var o := AggregateAttack(outcomes, first);
    forall e | e in others
      ensures AttackDemands(o, CalculateRequiredDronesForAttack(allies, SquadEtas(others, e.teamId)))
    {
      assert e.teamId in squads;
      var i :| 0 <= i < |squads| && squads[i] == e.teamId;
      assert AttackDemands(o, outcomes[i]);
    }
    assert o == first || exists e :: e in others && o == CalculateRequiredDronesForAttack(allies, SquadEtas(others, e.teamId)) by {
      if o != first {
        var i :| 0 <= i < |outcomes| && outcomes[i] == o;
        assert squads[i] in squads;
        var e :| e in others && e.teamId == squads[i];
        assert o == CalculateRequiredDronesForAttack(allies, SquadEtas(others, e.teamId));
      }
    }
    o
  }

  /**
   The defense plan over every relevant attacking squad (any team), keeping the
   earliest failure; with no such squad the zone is safe: 0 drones, turn 15.
   */
  function DefensePlan(allies: seq<nat>, zone: Zone, enemies: seq<EnemyDrone>): (o: Outcome)
    requires |allies| > 0
    ensures var attackers := Relevant(enemies, zone, Attack);
            forall e :: e in attackers ==>
              DefenseDemands(o, CalculateRequiredDronesForDefense(allies, SquadEtas(attackers, e.teamId)))
    ensures Relevant(enemies, zone, Attack) == [] ==> o == Outcome(0, TurnsConsidered)
    ensures var attackers := Relevant(enemies, zone, Attack);
            attackers != [] ==>
              exists e :: e in attackers && o == CalculateRequiredDronesForDefense(allies, SquadEtas(attackers, e.teamId))
    ensures o.turns <= TurnsConsidered
  {
    DefenseOverSquads(allies, Relevant(enemies, zone, Attack))
  }

  /** The most urgent defense outcome against each squad of `attackers`, attained by one; (0, 15) without squads. */
  function DefenseOverSquads(allies: seq<nat>, attackers: seq<EnemyDrone>): (o: Outcome)
    requires |allies| > 0
    ensures forall e :: e in attackers ==>
              DefenseDemands(o, CalculateRequiredDronesForDefense(allies, SquadEtas(attackers, e.teamId)))
    ensures attackers == [] ==> o == Outcome(0, TurnsConsidered)
    ensures attackers != [] ==>
              exists e :: e in attackers && o == CalculateRequiredDronesForDefense(allies, SquadEtas(attackers, e.teamId))
    ensures o.turns <= TurnsConsidered
  {
    var squads := SquadIds(attackers, []);
    var outcomes := DefenseOutcomes(allies, squads, attackers);
    var r := AggregateDefense(outcomes, None);
    forall e | e in attackers
      ensures r.Some? && DefenseDemands(r.value, CalculateRequiredDronesForDefense(allies, SquadEtas(attackers, e.teamId)))
    {
      assert e.teamId in squads;
      var i :| 0 <= i < |squads| && squads[i] == e.teamId;
      assert DefenseDemands(r.value, outcomes[i]);
    }
    assert attackers != [] ==>
             r.Some? && exists e :: e in attackers && r.value == CalculateRequiredDronesForDefense(allies, SquadEtas(attackers, e.teamId)) by {
      if attackers != [] {
        assert attackers[0] in attackers;
        var i :| 0 <= i < |outcomes| && outcomes[i] == r.value;
        assert squads[i] in squads;
        var e :| e in attackers && e.teamId == squads[i];
        assert r.value == CalculateRequiredDronesForDefense(allies, SquadEtas(attackers, e.teamId));
      }
    }
    match r
    case None => Outcome(0, TurnsConsidered)
    case Some(o) => o
  }

  /**
   The task of one zone: Defend when I own it, Attack otherwise, with the
   plan's required drones and a payoff of (15 - turns)/15 for an attack and
   turns/15 for a defense.
   */
  function DefineZoneTask(myTeamId: int, zone: Zone, allies: seq<nat>, enemies: seq<EnemyDrone>): (task: Task)
    requires |allies| > 0
    ensures task.zone == zone
    ensures task.kind == (if zone.ownerId == myTeamId then Defend else Attack)
    ensures 0.0 <= task.gain <= 1.0
    ensures task.kind == Attack ==> var o := AttackPlan(allies, zone, enemies);
              task.required == o.required && task.gain == (TurnsConsidered - o.turns) as real / TurnsConsidered as real
    ensures task.kind == Defend ==> var o := DefensePlan(allies, zone, enemies);
              task.required == o.required && task.gain == o.turns as real / TurnsConsidered as real
  {
    if zone.ownerId == myTeamId then
      var o := DefensePlan(allies, zone, enemies);
      Task(Defend, zone, o.required, o.turns as real / TurnsConsidered as real)
    else
      var o := AttackPlan(allies, zone, enemies);
      Task(Attack, zone, o.required, (TurnsConsidered - o.turns) as real / TurnsConsidered as real)
  }

  /** An owned zone nobody relevant attacks needs no drone and pays off fully. */
  lemma UnattackedZoneIsSafe(myTeamId: int, zone: Zone, allies: seq<nat>, enemies: seq<EnemyDrone>)
    requires |allies| > 0 && zone.ownerId == myTeamId
    requires forall e :: e in enemies ==> e.eta > SurroundingDistance && (e.intent != Attack || e.target != Some(zone.id))
    ensures DefineZoneTask(myTeamId, zone, allies, enemies).required == 0
    ensures DefineZoneTask(myTeamId, zone, allies, enemies).gain == 1.0
  {
    NothingRelevant(enemies, zone, Attack);
  }

  /** With no enemy near the zone or heading for it with the intent, nothing is relevant. */
  lemma {:induction false} NothingRelevant(enemies: seq<EnemyDrone>, zone: Zone, intent: TaskType)
    requires forall e :: e in enemies ==> e.eta > SurroundingDistance && (e.intent != intent || e.target != Some(zone.id))
    ensures Relevant(enemies, zone, intent) == []
  {
    if |enemies| > 0 {
      assert enemies[0] in enemies;
      assert forall e :: e in enemies[1..] ==> e in enemies;
      NothingRelevant(enemies[1..], zone, intent);
    }
  }

  /**
   DefineTasks: one task per zone, in zone order, Defend on my zones and
   Attack elsewhere, each with a payoff in [0, 1].
   */
  function DefineTasks(myTeamId: int, views: seq<ZoneView>): (tasks: seq<Task>)
    requires forall k :: 0 <= k < |views| ==> |views[k].myEtas| > 0
    ensures |tasks| == |views|
    ensures forall k :: 0 <= k < |views| ==>
              && tasks[k].zone == views[k].zone
              && tasks[k].kind == (if views[k].zone.ownerId == myTeamId then Defend else Attack)
              && 0.0 <= tasks[k].gain <= 1.0
  {
    seq(|views|, k requires 0 <= k < |views| =>
          DefineZoneTask(myTeamId, views[k].zone, views[k].myEtas, views[k].enemies))
  }
}
