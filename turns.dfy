/**
  The turn loop (TurnManager).  The `ExecuteTurn` coroutine is written as three steps: begin
  (raise the guard, reset highlights, let the enemies plan), execute every living member of the
  side whose turn it is, and finish (flip the side, lower the guard, notify).  A pass that hands
  the turn to the enemy schedules a chained pass, which starts on its own after a short delay;
  the guard is already lowered during that delay, so a second EndTurn there is not refused.
  `TurnState` is the machine of the two flags and the number of chained passes waiting.
*/
module Turns {
  import opened Wrappers
  import opened Units
  import opened Grid
  import opened Board
  import opened Effects
  import opened Commands
  import opened AI

  datatype TurnState = TurnState(isPlayerTurn: bool, isExecutingTurn: bool, pendingChains: nat)

  /** Player to move, nothing running, nothing scheduled. */
  const Idle: TurnState := TurnState(true, false, 0)

  /** Start of ExecuteTurn: the guard goes up. */
  function Begin(s: TurnState): TurnState {
    s.(isExecutingTurn := true)
  }

  /** End of ExecuteTurn: the side flips, the guard comes down, and handing over to the enemy schedules a chained pass. */
  function Finish(s: TurnState): TurnState {
    TurnState(!s.isPlayerTurn, false, if s.isPlayerTurn then s.pendingChains + 1 else s.pendingChains)
  }

  /** One whole ExecuteTurn. */
  function Pass(s: TurnState): TurnState {
    Finish(Begin(s))
  }

  /** EndTurn: refused while a pass is running. */
  function EndTurnStep(s: TurnState): TurnState {
    if s.isExecutingTurn then s else Pass(s)
  }

  /** A scheduled chained pass starts; it does not consult the guard. */
  function ResumeStep(s: TurnState): TurnState
    requires s.pendingChains > 0
  {
    Pass(s.(pendingChains := s.pendingChains - 1))
  }

  /** What IsPlayerTurn() reports. */
  predicate ObservedPlayerTurn(s: TurnState) {
    s.isPlayerTurn && !s.isExecutingTurn
  }

  /** A pass always runs the side whose turn it was, then gives the turn to the other side with the guard open. */
  lemma PassHandsOver(s: TurnState)
    ensures Pass(s).isPlayerTurn == !s.isPlayerTurn && !Pass(s).isExecutingTurn
    ensures Pass(s).pendingChains == s.pendingChains + (if s.isPlayerTurn then 1 else 0)
    ensures s.isExecutingTurn ==> EndTurnStep(s) == s
  {
  }

  /**
    One EndTurn from an idle player turn: the enemy is to move with the guard already open and a
    chained pass scheduled; when it fires, the game is back to an idle player turn.
  */
  lemma EndTurnRoundTrip()
    ensures EndTurnStep(Idle) == TurnState(false, false, 1)
    ensures !ObservedPlayerTurn(EndTurnStep(Idle))
    ensures ResumeStep(EndTurnStep(Idle)) == Idle
  {
  }

  /**
    A second EndTurn in the window before the chained pass fires is not refused: it runs the
    enemy pass at once, IsPlayerTurn() then reads true while the chained pass is still
    scheduled, and that chained pass then runs the player's side without a further EndTurn.
  */
  lemma SecondEndTurnInWindow()
    ensures var s1 := EndTurnStep(Idle);
            var s2 := EndTurnStep(s1);
            && !s1.isExecutingTurn && s1.pendingChains == 1
            && s2 == TurnState(true, false, 1) && ObservedPlayerTurn(s2)
            && s2.pendingChains > 0 && s2.(pendingChains := s2.pendingChains - 1).isPlayerTurn
            && ResumeStep(s2) == TurnState(false, false, 1)
            && ResumeStep(ResumeStep(s2)) == Idle
  {
  }

  /** What can happen between passes: the player presses EndTurn, or a scheduled chained pass starts. */
  datatype Event = EndTurnPressed | ChainFires

  /**
    One event when EndTurn is only offered while IsPlayerTurn() holds (the interface hides the
    button otherwise).  Returns the new state and the sides (true = player) of the passes run.
  */
  function GatedStep(s: TurnState, e: Event): (TurnState, seq<bool>)
  {
    match e
    case EndTurnPressed =>
      if ObservedPlayerTurn(s) then (EndTurnStep(s), [s.isPlayerTurn]) else (s, [])
    case ChainFires =>
      if s.pendingChains > 0 then (ResumeStep(s), [s.isPlayerTurn]) else (s, [])
  }

  /** A run of events from `s`: the final state and the sides of all passes, in order. */
  function GatedRun(s: TurnState, events: seq<Event>): (TurnState, seq<bool>)
  {
    if events == [] then (s, [])
    else
      var (mid, sides) := GatedRun(s, events[..|events| - 1]);
      var (last, more) := GatedStep(mid, events[|events| - 1]);
      (last, sides + more)
  }

  /** Player, enemy, player, ...: the side of the i-th pass. */
  predicate Alternating(sides: seq<bool>)
  {
    forall i :: 0 <= i < |sides| ==> sides[i] == (i % 2 == 0)
  }

  /**
    With EndTurn offered only during the player's turn, play from an idle player turn strictly
    alternates sides, and between passes the game is either an idle player turn (after an even
    number of passes) or an enemy turn with exactly one chained pass scheduled.
  */
  lemma {:induction false} GatedPlayAlternates(events: seq<Event>)
    ensures var (s, sides) := GatedRun(Idle, events);
            && Alternating(sides)
            && (s == Idle || s == TurnState(false, false, 1))
            && (s == Idle <==> |sides| % 2 == 0)
  {
    if events != [] {
      GatedPlayAlternates(events[..|events| - 1]);
      var (mid, sides) := GatedRun(Idle, events[..|events| - 1]);
      var (last, more) := GatedStep(mid, events[|events| - 1]);
      assert GatedRun(Idle, events) == (last, sides + more);
      if more != [] {
        assert more == [mid.isPlayerTurn];
        assert (sides + more)[|sides|] == (|sides| % 2 == 0);
      }
      assert forall i :: 0 <= i < |sides| ==> (sides + more)[i] == sides[i];
    }
  }

  /** No unit listed twice in a roster. */
  predicate Distinct(s: seq<Character>)
  {
    forall i, j :: 0 <= i < j < |s| ==> s[i] != s[j]
  }

  /** No unit is on both sides. */
  predicate Disjoint(players: seq<Character>, enemies: seq<Character>)
  {
    forall u | u in players :: u !in enemies
  }

  /** The queue notices of one planning decision: a removal, then an addition if a command was queued. */
  function Notices(plans: bool, planned: seq<Command>): seq<QueueEvent>
  {
    if plans then [CommandRemoved] + (if planned != [] then [CommandAdded] else []) else []
  }

  /** The per-unit state a pass works on, as values: each unit's queue and action points, and the battle. */
  datatype UnitsView = UnitsView(queues: map<Character, seq<Command>>, points: map<Character, int>, world: World)

  /** What the execution part of a pass leaves: the battle, the members that ran, and the commands run, in order. */
  datatype PassResult = PassResult(world: World, ran: set<Character>, executed: seq<Command>)

  /**
    The execution part of a pass on values: each member of `team`, in roster order, runs its
    queue from `queues` (Effects.RunAll) on the battle the earlier slots left, unless it is
    dead when its slot comes.
  */
  function TeamPass(team: seq<Character>, queues: map<Character, seq<Command>>, w: World): PassResult
    requires forall u | u in team :: u in queues
    decreases |team|
  {
    if team == [] then PassResult(w, {}, [])
    else
      var p := TeamPass(team[..|team| - 1], queues, w);
      var c := team[|team| - 1];
      if DeadIn(p.world, c) then p
      else PassResult(RunAll(queues[c], p.world), p.ran + {c}, p.executed + queues[c])
  }

  /** Only members of the roster run. */
  lemma {:induction false} TeamPassRanIn(team: seq<Character>, queues: map<Character, seq<Command>>, w: World)
    requires forall u | u in team :: u in queues
    ensures forall u | u in TeamPass(team, queues, w).ran :: u in team
    decreases |team|
  {
    if team != [] {
      TeamPassRanIn(team[..|team| - 1], queues, w);
    }
  }

  /** The battle a pass leaves is the one its executed commands, run in order, leave. */
  lemma {:induction false} TeamPassRunsExecuted(team: seq<Character>, queues: map<Character, seq<Command>>, w: World)
    requires forall u | u in team :: u in queues
    ensures TeamPass(team, queues, w).world == RunAll(TeamPass(team, queues, w).executed, w)
    decreases |team|
  {
    if team != [] {
      var p := TeamPass(team[..|team| - 1], queues, w);
      var c := team[|team| - 1];
      TeamPassRunsExecuted(team[..|team| - 1], queues, w);
      if !DeadIn(p.world, c) {
        RunAllAppend(p.executed, queues[c], w);
      }
    }
  }

  /** The queues a pass may run: each member's commands are well-formed for it. */
  predicate QueuesWellFormed(team: seq<Character>, queues: map<Character, seq<Command>>, units: set<Character>)
  {
    forall u | u in team :: u in queues && WellFormedQueue(queues[u], u, units)
  }

  /** A pass never brings a destroyed unit back. */
  lemma {:induction false} TeamPassKeepsDestroyed(team: seq<Character>, queues: map<Character, seq<Command>>, w: World)
    requires forall u | u in team :: u in queues
    ensures w.destroyed <= TeamPass(team, queues, w).world.destroyed
    decreases |team|
  {
    if team != [] {
      var p := TeamPass(team[..|team| - 1], queues, w);
      TeamPassKeepsDestroyed(team[..|team| - 1], queues, w);
      RunAllKeepsDestroyed(queues[team[|team| - 1]], p.world);
    }
  }

  /**
    While the health invariant holds, a pass of well-formed queues keeps it, leaves every
    dead unit dead, runs only members alive at the start, and every member that did not run
    is dead at the end.
  */
  lemma {:induction false} TeamPassKeepsHealthy(team: seq<Character>, queues: map<Character, seq<Command>>, w: World,
                                                units: set<Character>)
    requires QueuesWellFormed(team, queues, units) && Healthy(w)
    ensures var p := TeamPass(team, queues, w);
            && Healthy(p.world)
            && (forall u :: DeadIn(w, u) ==> DeadIn(p.world, u))
            && (forall u | u in p.ran :: !DeadIn(w, u))
            && (forall u | u in team && u !in p.ran :: DeadIn(p.world, u))
    decreases |team|
  {
    if team != [] {
      var front, c := team[..|team| - 1], team[|team| - 1];
      var p := TeamPass(front, queues, w);
      TeamPassKeepsHealthy(front, queues, w, units);
      if !DeadIn(p.world, c) {
        var q := queues[c];
        assert forall i :: 0 <= i < |q| && q[i].Heal? ==> q[i].healAmount >= 0 by {
          assert WellFormedQueue(q, c, units);
        }
        forall u
          ensures Healthy(RunAll(q, p.world)) && (DeadIn(p.world, u) ==> DeadIn(RunAll(q, p.world), u))
        {
          RunAllKeepsDead(q, p.world, u);
        }
      }
      forall u | u in team && u !in TeamPass(team, queues, w).ran
        ensures DeadIn(TeamPass(team, queues, w).world, u)
      {
        if u != c {
          assert u in front;
        }
      }
    }
  }

  /** A pass of well-formed queues keeps the tile<->unit invariant: a member that runs is not destroyed, and it never attacks itself. */
  lemma {:induction false} TeamPassKeepsConsistent(team: seq<Character>, queues: map<Character, seq<Command>>, w: World,
                                                   units: set<Character>)
    requires QueuesWellFormed(team, queues, units) && WorldConsistent(w)
    ensures WorldConsistent(TeamPass(team, queues, w).world)
    decreases |team|
  {
    if team != [] {
      var front, c := team[..|team| - 1], team[|team| - 1];
      var p := TeamPass(front, queues, w);
      TeamPassKeepsConsistent(front, queues, w, units);
      if !DeadIn(p.world, c) {
        var q := queues[c];
        assert forall i :: 0 <= i < |q| ==> q[i].owner == c && !(q[i].Attack? && q[i].target == c) by {
          assert WellFormedQueue(q, c, units);
        }
        RunAllKeepsConsistent(q, p.world, c);
      }
    }
  }

  /**
    The slots of `team` have run from `v0` to `v`: the battle is TeamPass's, and exactly the
    members that ran have an empty queue and full action points; every other unit keeps its own.
  */
  ghost predicate PassEffect(units: set<Character>, team: seq<Character>, v0: UnitsView, v: UnitsView)
  {
    && v0.queues.Keys == units && v0.points.Keys == units && (forall u | u in team :: u in units)
    && var p := TeamPass(team, v0.queues, v0.world);
       && v.world == p.world
       && v.queues == (map u | u in units :: if u in p.ran then [] else v0.queues[u])
       && v.points == (map u | u in units :: if u in p.ran then u.maxActionPoints else v0.points[u])
  }

  /** A map that agrees with `m0` everywhere but at `k`, where it holds `x`, is `m0` updated at `k`. */
  lemma UpdatedAt<V>(m: map<Character, V>, m0: map<Character, V>, k: Character, x: V)
    requires m.Keys == m0.Keys && k in m && m[k] == x
    requires forall j | j in m && j != k :: m[j] == m0[j]
    ensures m == m0[k := x]
  {
    assert m.Keys == m0[k := x].Keys;
  }

  /** One slot of the execution loop: a dead member changes nothing; a living one runs its queue, which is emptied, and its points are refilled. */
  ghost predicate SlotEffect(v: UnitsView, w: UnitsView, c: Character)
  {
    && c in v.queues && c in v.points
    && w == (if DeadIn(v.world, c) then v
             else UnitsView(v.queues[c := []], v.points[c := c.maxActionPoints], RunAll(v.queues[c], v.world)))
  }

  /** Before the first slot nothing has run. */
  lemma TallyStart(units: set<Character>, team: seq<Character>, v0: UnitsView)
    requires v0.queues.Keys == units && v0.points.Keys == units
    ensures PassEffect(units, team[..0], v0, v0)
  {
    var none := TeamPass(team[..0], v0.queues, v0.world).ran;
    assert none == {};
    assert v0.queues == (map u | u in units :: if u in none then [] else v0.queues[u]);
    assert v0.points == (map u | u in units :: if u in none then u.maxActionPoints else v0.points[u]);
  }

  /** The queues of a pass in which `ran` ran, once `c` runs too. */
  lemma QueuesRanStep(units: set<Character>, ran: set<Character>, c: Character,
                      q0: map<Character, seq<Command>>, q: map<Character, seq<Command>>)
    requires q0.Keys == units && c in units
    requires q == (map u | u in units :: if u in ran then [] else q0[u])
    ensures q[c := []] == (map u | u in units :: if u in ran + {c} then [] else q0[u])
  {
    UpdatedAt(map u | u in units :: if u in ran + {c} then [] else q0[u], q, c, []);
  }

  /** The action points of a pass in which `ran` ran, once `c` runs too. */
  lemma PointsRanStep(units: set<Character>, ran: set<Character>, c: Character,
                      p0: map<Character, int>, p: map<Character, int>)
    requires p0.Keys == units && c in units
    requires p == (map u | u in units :: if u in ran then u.maxActionPoints else p0[u])
    ensures p[c := c.maxActionPoints] == (map u | u in units :: if u in ran + {c} then u.maxActionPoints else p0[u])
  {
    UpdatedAt(map u | u in units :: if u in ran + {c} then u.maxActionPoints else p0[u], p, c, c.maxActionPoints);
  }

  /** One slot of a roster of distinct units extends the pass by that slot. */
  lemma SlotKeepsTally(units: set<Character>, team: seq<Character>, i: nat, v0: UnitsView, v: UnitsView, w: UnitsView)
    requires i < |team| && Distinct(team) && team[i] in units
    requires PassEffect(units, team[..i], v0, v) && SlotEffect(v, w, team[i])
    ensures PassEffect(units, team[..i + 1], v0, w)
  {
    var c := team[i];
    assert team[..i + 1][..i] == team[..i] && team[..i + 1][i] == c;
    var p := TeamPass(team[..i], v0.queues, v0.world);
    TeamPassRanIn(team[..i], v0.queues, v0.world);
    assert c !in team[..i];
    assert c !in p.ran;
    if !DeadIn(v.world, c) {
      QueuesRanStep(units, p.ran, c, v0.queues, v.queues);
      PointsRanStep(units, p.ran, c, v0.points, v.points);
    }
  }

  /** A finished pass: every member of the roster is dead or has an empty queue and full action points, whenever the health invariant held. */
  lemma PassLeavesTeamDone(units: set<Character>, team: seq<Character>, v0: UnitsView, v: UnitsView)
    requires PassEffect(units, team, v0, v) && QueuesWellFormed(team, v0.queues, units) && Healthy(v0.world)
    ensures Healthy(v.world)
    ensures forall u | u in team :: DeadIn(v.world, u) || (v.queues[u] == [] && v.points[u] == u.maxActionPoints)
  {
    TeamPassKeepsHealthy(team, v0.queues, v0.world, units);
  }

  /**
    The placements one loop of InitializeCharacterPositions has added after `placed0`: the
    members of `team` in order, each on a cell of its side's columns.
  */
  predicate SidePlacements(team: seq<Character>, leftSide: bool, placed0: seq<Placement>, tries0: seq<nat>,
                           placed: seq<Placement>, tries: seq<nat>)
  {
    && |placed0| <= |placed| <= |placed0| + |team| && |tries0| <= |tries|
    && (forall k | 0 <= k < |placed0| :: placed[k] == placed0[k])
    && (forall k | 0 <= k < |tries0| :: tries[k] == tries0[k])
    && forall k | |placed0| <= k < |placed| ::
         placed[k].0 == team[k - |placed0|] &&
         (if leftSide then 0 <= placed[k].1.0 <= 1 else 3 <= placed[k].1.0 <= 4)
  }

  lemma SidePlacementsStep(team: seq<Character>, leftSide: bool, placed0: seq<Placement>, tries0: seq<nat>,
                           placed: seq<Placement>, tries: seq<nat>, i: nat, c: Cell, retries: nat)
    requires SidePlacements(team, leftSide, placed0, tries0, placed, tries)
    requires |placed| == |placed0| + i && i < |team|
    requires if leftSide then 0 <= c.0 <= 1 else 3 <= c.0 <= 4
    ensures SidePlacements(team, leftSide, placed0, tries0, placed + [(team[i], c)], tries + [retries])
  {
  }

  /** The next member of a roster of distinct units, none placed before the loop, is not placed yet. */
  lemma NextNotPlaced(team: seq<Character>, leftSide: bool, placed0: seq<Placement>, tries0: seq<nat>,
                      placed: seq<Placement>, tries: seq<nat>, i: nat)
    requires SidePlacements(team, leftSide, placed0, tries0, placed, tries)
    requires Distinct(team) && forall u | u in team :: u !in PlacedUnits(placed0)
    requires |placed| == |placed0| + i && i < |team|
    ensures team[i] !in PlacedUnits(placed)
  {
    var u := team[i];
    forall k | 0 <= k < |placed|
      ensures placed[k].0 != u
    {
      if k < |placed0| {
        assert placed0[k].0 in PlacedUnits(placed0);
      }
    }
  }

  /** No enemy is among the players' placements. */
  lemma EnemiesNotYetPlaced(players: seq<Character>, enemies: seq<Character>, placed: seq<Placement>, tries: seq<nat>)
    requires SidePlacements(players, true, [], [], placed, tries) && Disjoint(players, enemies)
    ensures forall u | u in enemies :: u !in PlacedUnits(placed)
  {
    forall u, k | u in enemies && 0 <= k < |placed|
      ensures placed[k].0 != u
    {
      assert placed[k].0 == players[k];
    }
  }

  /** The placements follow the rosters: the players in order on the left columns, then the enemies in order on the right. */
  predicate RosterOrder(players: seq<Character>, enemies: seq<Character>, placed: seq<Placement>)
  {
    && |placed| <= |players| + |enemies|
    && forall i | 0 <= i < |placed| ::
         && (i < |players| ==> placed[i].0 == players[i] && 0 <= placed[i].1.0 <= 1)
         && (i >= |players| ==> placed[i].0 == enemies[i - |players|] && 3 <= placed[i].1.0 <= 4)
  }

  /** The first loop alone. */
  lemma PlayersPlaced(players: seq<Character>, enemies: seq<Character>, placed: seq<Placement>, tries: seq<nat>)
    requires SidePlacements(players, true, [], [], placed, tries)
    ensures RosterOrder(players, enemies, placed)
  {
    forall i | 0 <= i < |placed|
      ensures placed[i].0 == players[i] && 0 <= placed[i].1.0 <= 1
    {
      assert placed[i].0 == players[i - 0];
    }
  }

  /** The two loops together; once both ran to the end every unit of either roster is placed. */
  lemma RostersPlaced(players: seq<Character>, enemies: seq<Character>, p: seq<Placement>, t: seq<nat>,
                      placed: seq<Placement>, tries: seq<nat>)
    requires SidePlacements(players, true, [], [], p, t) && |p| == |players|
    requires SidePlacements(enemies, false, p, t, placed, tries)
    ensures RosterOrder(players, enemies, placed)
    ensures |placed| == |players| + |enemies| ==>
              forall u :: u in PlacedUnits(placed) <==> u in players || u in enemies
  {
    forall i | 0 <= i < |players|
      ensures placed[i] == p[i]
    {
    }
    if |placed| == |players| + |enemies| {
      forall u | u in players || u in enemies
        ensures u in PlacedUnits(placed)
      {
        if u in players {
          var k :| 0 <= k < |players| && players[k] == u;
          assert placed[k].0 == u;
        } else {
          var k :| 0 <= k < |enemies| && enemies[k] == u;
          assert placed[|players| + k].0 == u;
        }
      }
    }
  }

  class TurnManager {
    const playerTeam: seq<Character>
    const enemyTeam: seq<Character>
    const gridManager: GridManager
    /** Every unit of the battle. */
    ghost const units: set<Character>
    var isPlayerTurn: bool
    var isExecutingTurn: bool
    /** Chained ExecuteTurn passes scheduled and not yet started. */
    ghost var pendingChains: nat
    /** The OnTurnChanged notifications so far: the side to move after each pass. */
    var turnChanges: seq<bool>

    constructor (playerTeam: seq<Character>, enemyTeam: seq<Character>, gridManager: GridManager)
      ensures this.playerTeam == playerTeam && this.enemyTeam == enemyTeam && this.gridManager == gridManager
      ensures units == (set u | u in playerTeam) + (set u | u in enemyTeam) && Roster()
      ensures State() == Idle && turnChanges == []
    {
      this.playerTeam := playerTeam;
      this.enemyTeam := enemyTeam;
      this.gridManager := gridManager;
      units := (set u | u in playerTeam) + (set u | u in enemyTeam);
      isPlayerTurn := true;
      isExecutingTurn := false;
      pendingChains := 0;
      turnChanges := [];
    }

    ghost function State(): TurnState
      reads this`isPlayerTurn, this`isExecutingTurn, this`pendingChains
    {
      TurnState(isPlayerTurn, isExecutingTurn, pendingChains)
    }


    /** The roster whose turn it is. */
    function CurrentTeam(): seq<Character>
      reads this`isPlayerTurn
    {
      if isPlayerTurn then playerTeam else enemyTeam
    }

    /** `units` holds exactly the members of the two rosters. */
    ghost predicate Roster()
    {
      && (forall u | u in playerTeam :: u in units)
      && (forall u | u in enemyTeam :: u in units)
      && (forall u | u in units :: u in playerTeam || u in enemyTeam)
    }

    /** The battle is set up: a well-formed grid, distinct units, and queues of well-formed commands. */
    ghost predicate Ready()
      reads gridManager, gridManager.grid, units`commandQueue
    {
      && gridManager.Valid()
      && Rosters()
      && (forall u | u in units :: QueueWellFormed(u, units))
    }

    /** Each roster lists distinct units, no unit is on both, and `units` holds exactly their members. */
    ghost predicate Rosters()
    {
      Distinct(playerTeam) && Distinct(enemyTeam) && Disjoint(playerTeam, enemyTeam) && Roster()
    }

    /** Every tile names a unit of the battle or nobody. */
    ghost predicate Populated()
      reads gridManager, gridManager.grid, gridManager.tiles`occupant, units`gridX, units`gridZ, units`health, units`destroyed
    {
      gridManager.Valid() && OccupantsAreUnits(WorldOf(gridManager, units))
    }

    /** A battle on an empty grid, with distinct rosters and well-formed queues, is set up. */
    lemma ReadyFrom()
      requires gridManager.Valid() && gridManager.AllFree() && Roster()
      requires Distinct(playerTeam) && Distinct(enemyTeam) && Disjoint(playerTeam, enemyTeam)
      requires forall u | u in units :: QueueWellFormed(u, units)
      ensures Ready() && Populated()
    {
      var w := WorldOf(gridManager, units);
      forall c | c in w.occ
        ensures w.occ[c] == null
      {
        assert gridManager.grid[c.0, c.1] in gridManager.tiles;
      }
    }

    /** The state while InitializeCharacterPositions runs: Board.Placements on the live tiles and coordinates. */
    ghost predicate Placing(occ0: Occupancy, at0: Positions, present: set<Character>, placed: seq<Placement>, tries: seq<nat>)
      reads gridManager, gridManager.grid, gridManager.tiles`occupant, units`gridX, units`gridZ, units`destroyed
      requires gridManager.Valid()
    {
      && Placements(occ0, at0, present, placed, tries, gridManager.Occupants(), PositionsOf(units))
      && PresentOf(units) == present
    }

    /**
      One start position: the unit takes the drawn cell's coordinates (InitializePosition) and
      becomes that tile's occupant.  A cell kept after fewer than ten redraws is unoccupied.
    */
    method PlaceOne(character: Character, x: int, z: int, ghost retries: nat, ghost occ0: Occupancy,
                    ghost at0: Positions, ghost present: set<Character>, ghost placed: seq<Placement>, ghost tries: seq<nat>)
      requires gridManager.Valid() && gridManager.IsValidPosition(x, z) && retries <= 10
      requires retries < 10 ==> !gridManager.GetTile(x, z).IsOccupied()
      requires occ0.Keys == Cells(gridManager.gridSize) && forall c | c in occ0 :: occ0[c] == null
      requires at0.Keys == units && character in units && character !in PlacedUnits(placed)
      requires Placing(occ0, at0, present, placed, tries)
      modifies gridManager.tiles`occupant, character`gridX, character`gridZ
      ensures gridManager.Valid()
      ensures Placing(occ0, at0, present, placed + [(character, (x, z))], tries + [retries])
    {
      ghost var occ, at := gridManager.Occupants(), PositionsOf(units);
      if retries < 10 && occ[(x, z)] != null {
        LastPlacement(occ0, placed, (x, z));
      }
      PlacementsStep(occ0, at0, present, placed, tries, occ, at, character, (x, z), retries);
      Occupy(character, x, z);
    }

    /** Commands.Relocate on this battle, which stays set up. */
    method Occupy(character: Character, x: int, z: int)
      requires gridManager.Valid() && gridManager.IsValidPosition(x, z) && character in units
      modifies gridManager.tiles`occupant, character`gridX, character`gridZ
      ensures gridManager.Valid()
      ensures gridManager.Occupants() == old(gridManager.Occupants())[(x, z) := character]
      ensures PositionsOf(units) == old(PositionsOf(units))[character := (x, z)]
      ensures PresentOf(units) == old(PresentOf(units))
    {
      Relocate(gridManager, character, x, z, units);
    }

    /**
      One of the two loops of InitializeCharacterPositions: each member of `team`, in order,
      draws a cell on its side and is placed there.  A column outside the grid ends the loop
      (`done` is false).
    */
    method PlaceTeam(team: seq<Character>, leftSide: bool, rng: nat -> nat, cursor: nat,
                     ghost occ0: Occupancy, ghost at0: Positions, ghost present: set<Character>,
                     ghost placed0: seq<Placement>, ghost tries0: seq<nat>)
      returns (done: bool, next: nat, ghost placed: seq<Placement>, ghost tries: seq<nat>)
      requires gridManager.Valid() && Distinct(team) && forall u | u in team :: u in units
      requires occ0.Keys == Cells(gridManager.gridSize) && forall c | c in occ0 :: occ0[c] == null
      requires at0.Keys == units && forall u | u in team :: u !in PlacedUnits(placed0)
      requires Placing(occ0, at0, present, placed0, tries0)
      modifies gridManager.tiles`occupant, units`gridX, units`gridZ
      ensures gridManager.Valid()
      ensures Placing(occ0, at0, present, placed, tries)
      ensures SidePlacements(team, leftSide, placed0, tries0, placed, tries)
      ensures done <==> |placed| == |placed0| + |team|
      ensures gridManager.gridSize >= 5 ==> done
    {
      done, next, placed, tries := true, cursor, placed0, tries0;
      for i := 0 to |team|
        invariant gridManager.Valid()
        invariant Placing(occ0, at0, present, placed, tries)
        invariant SidePlacements(team, leftSide, placed0, tries0, placed, tries)
        invariant |placed| == |placed0| + i
      {
        var ok;
        ok, next, placed, tries := PlaceMember(team, i, leftSide, rng, next, occ0, at0, present, placed0, tries0, placed, tries);
        if !ok {
          return false, next, placed, tries;
        }
      }
    }

    /**
      One iteration of a placement loop: the next member of `team` draws a cell on its side
      (GetRandomPositionOnSide) and is placed there (PlaceOne).  A column outside the grid
      stops here (`ok` is false) with nothing changed.
    */
    method PlaceMember(team: seq<Character>, i: nat, leftSide: bool, rng: nat -> nat, cursor: nat,
                       ghost occ0: Occupancy, ghost at0: Positions, ghost present: set<Character>,
                       ghost placed0: seq<Placement>, ghost tries0: seq<nat>, ghost placed: seq<Placement>, ghost tries: seq<nat>)
      returns (ok: bool, next: nat, ghost placed': seq<Placement>, ghost tries': seq<nat>)
      requires gridManager.Valid() && Distinct(team) && forall u | u in team :: u in units
      requires occ0.Keys == Cells(gridManager.gridSize) && forall c | c in occ0 :: occ0[c] == null
      requires at0.Keys == units && forall u | u in team :: u !in PlacedUnits(placed0)
      requires Placing(occ0, at0, present, placed, tries)
      requires SidePlacements(team, leftSide, placed0, tries0, placed, tries)
      requires |placed| == |placed0| + i && i < |team|
      modifies gridManager.tiles`occupant, units`gridX, units`gridZ
      ensures gridManager.Valid()
      ensures Placing(occ0, at0, present, placed', tries')
      ensures SidePlacements(team, leftSide, placed0, tries0, placed', tries')
      ensures |placed'| == if ok then |placed| + 1 else |placed|
      ensures gridManager.gridSize >= 5 ==> ok
    {
      var u := team[i];
      var pos, after, retries := gridManager.GetRandomPositionOnSide(leftSide, rng, cursor);
      if pos.None? {
        return false, after, placed, tries;
      }
      PlaceDrawn(team, i, leftSide, pos.value, retries, occ0, at0, present, placed0, tries0, placed, tries);
      ok, next, placed', tries' := true, after, placed + [(u, pos.value)], tries + [retries];
    }

    /** The rest of a PlaceMember iteration once a cell `c` on the team's side was drawn. */
    method PlaceDrawn(team: seq<Character>, i: nat, leftSide: bool, c: Cell, ghost retries: nat,
                      ghost occ0: Occupancy, ghost at0: Positions, ghost present: set<Character>,
                      ghost placed0: seq<Placement>, ghost tries0: seq<nat>, ghost placed: seq<Placement>, ghost tries: seq<nat>)
      requires gridManager.Valid() && Distinct(team) && forall u | u in team :: u in units
      requires occ0.Keys == Cells(gridManager.gridSize) && forall c | c in occ0 :: occ0[c] == null
      requires at0.Keys == units && forall u | u in team :: u !in PlacedUnits(placed0)
      requires Placing(occ0, at0, present, placed, tries)
      requires SidePlacements(team, leftSide, placed0, tries0, placed, tries)
      requires |placed| == |placed0| + i && i < |team|
      requires gridManager.IsValidPosition(c.0, c.1) && retries <= 10
      requires retries < 10 ==> !gridManager.GetTile(c.0, c.1).IsOccupied()
      requires if leftSide then 0 <= c.0 <= 1 else 3 <= c.0 <= 4
      modifies gridManager.tiles`occupant, units`gridX, units`gridZ
      ensures gridManager.Valid()
      ensures Placing(occ0, at0, present, placed + [(team[i], c)], tries + [retries])
      ensures SidePlacements(team, leftSide, placed0, tries0, placed + [(team[i], c)], tries + [retries])
    {
      NextNotPlaced(team, leftSide, placed0, tries0, placed, tries, i);
      SidePlacementsStep(team, leftSide, placed0, tries0, placed, tries, i, c, retries);
      PlaceOne(team[i], c.0, c.1, retries, occ0, at0, present, placed, tries);
    }

    /**
      InitializeCharacterPositions, on the freshly built grid: every player in roster order is
      placed on a cell of the left columns, then every enemy on one of the right columns.  A
      column outside a grid narrower than five ends the coroutine there (`done` is false).
      `placed` lists the placements in order and `tries` the redraws each needed.  The board
      invariant holds afterwards whenever every unit was placed and none needed all ten redraws
      (Board.PlacementsConsistent says exactly when it holds).
    */
    method InitializeCharacterPositions(rng: nat -> nat, cursor: nat)
      returns (done: bool, next: nat, ghost placed: seq<Placement>, ghost tries: seq<nat>)
      requires Ready() && gridManager.AllFree()
      modifies gridManager.tiles`occupant, units`gridX, units`gridZ
      ensures Ready()
      ensures done <==> |placed| == |playerTeam| + |enemyTeam|
      ensures gridManager.gridSize >= 5 ==> done
      ensures RosterOrder(playerTeam, enemyTeam, placed)
      ensures Placing(old(gridManager.Occupants()), old(PositionsOf(units)), old(PresentOf(units)), placed, tries)
      ensures done && (forall i | 0 <= i < |tries| :: tries[i] < 10) ==> BoardConsistent(gridManager, units)
      ensures OccupantsAreUnits(WorldOf(gridManager, units))
    {
      ghost var occ0, at0, present := gridManager.Occupants(), PositionsOf(units), PresentOf(units);
      ghost var ready := Ready();
      gridManager.FreeOccupants();
      assert Relocated(at0, PlacedAt([])) == at0;
      done, next, placed, tries := PlaceRosters(rng, cursor, occ0, at0, present);
      QueuesKeepReady(ready);
      Placed(occ0, at0, present, placed, tries);
    }

    /** The battle stays set up while the queues are untouched. */
    twostate lemma QueuesKeepReady(ready: bool)
      requires ready && ready == old(Ready())
      requires unchanged(gridManager) && old(allocated(gridManager.grid)) && unchanged(gridManager.grid)
      requires forall u | u in units :: u.commandQueue == old(u.commandQueue)
      ensures Ready()
    {
    }

    /**
      After the placements, every tile names a unit of the battle or nobody; once every unit
      is placed, each on a cell that was free, the tile<->unit invariant holds.
    */
    lemma Placed(occ0: Occupancy, at0: Positions, present: set<Character>, placed: seq<Placement>, tries: seq<nat>)
      requires gridManager.Valid() && at0.Keys == units && forall c | c in occ0 :: occ0[c] == null
      requires Placing(occ0, at0, present, placed, tries)
      ensures OccupantsAreUnits(WorldOf(gridManager, units))
      ensures PlacedUnits(placed) == units && (forall i | 0 <= i < |tries| :: tries[i] < 10) ==> BoardConsistent(gridManager, units)
    {
      assert PlacedUnits(placed) <= units;
      PlaceNamesUnits(occ0, placed, units);
      if PlacedUnits(placed) == units && (forall i | 0 <= i < |tries| :: tries[i] < 10) {
        PlacementsComplete(occ0, at0, present, placed, tries, gridManager.Occupants(), PositionsOf(units));
      }
    }

    /** The two PlaceTeam calls of InitializeCharacterPositions: players on the left, then enemies on the right. */
    method PlaceRosters(rng: nat -> nat, cursor: nat, ghost occ0: Occupancy, ghost at0: Positions, ghost present: set<Character>)
      returns (done: bool, next: nat, ghost placed: seq<Placement>, ghost tries: seq<nat>)
      requires gridManager.Valid() && Rosters()
      requires occ0.Keys == Cells(gridManager.gridSize) && forall c | c in occ0 :: occ0[c] == null
      requires at0.Keys == units && Placing(occ0, at0, present, [], [])
      modifies gridManager.tiles`occupant, units`gridX, units`gridZ
      ensures gridManager.Valid()
      ensures done <==> |placed| == |playerTeam| + |enemyTeam|
      ensures gridManager.gridSize >= 5 ==> done
      ensures RosterOrder(playerTeam, enemyTeam, placed)
      ensures Placing(occ0, at0, present, placed, tries)
      ensures done ==> PlacedUnits(placed) == units
    {
      done, next, placed, tries := PlaceTeam(playerTeam, true, rng, cursor, occ0, at0, present, [], []);
      if done {
        EnemiesNotYetPlaced(playerTeam, enemyTeam, placed, tries);
        ghost var placed', tries' := placed, tries;
        done, next, placed, tries := PlaceTeam(enemyTeam, false, rng, next, occ0, at0, present, placed', tries');
        RostersPlaced(playerTeam, enemyTeam, placed', tries', placed, tries);
      } else {
        PlayersPlaced(playerTeam, enemyTeam, placed, tries);
      }
    }

    /** Whether the planning step of this pass consults `e`'s planner. */
    ghost predicate Plans(e: Character)
      reads this`isPlayerTurn, e`health, e`destroyed
    {
      !isPlayerTurn && !e.IsDead() && e.hasAI
    }

    /** The queue `e`'s planner leaves: its planned command when there is one and the budget allows it. */
    ghost function Planned(e: Character): seq<Command>
      reads e`gridX, e`gridZ, playerTeam`gridX, playerTeam`gridZ, playerTeam`health, playerTeam`destroyed
      reads gridManager, gridManager.grid, gridManager.tiles`occupant
      reads (set t | t in gridManager.tiles && t.occupant != null :: t.occupant)`destroyed
      requires gridManager.Valid()
    {
      var plan := PlannedCommand(e, gridManager, playerTeam);
      if plan.Some? && 1 <= e.maxActionPoints then [plan.value] else []
    }

    /** A planned command is well-formed for its enemy: it targets a player, never the enemy itself. */
    lemma PlannedWellFormed(e: Character)
      requires gridManager.Valid() && Disjoint(playerTeam, enemyTeam) && Roster() && e in enemyTeam
      ensures WellFormedQueue(Planned(e), e, units)
    {
      var plan := PlannedCommand(e, gridManager, playerTeam);
      PlannedCommandShape(e, gridManager, playerTeam);
    }

    /** On the heap and on View(), the planning step decides alike for `e`. */
    lemma PlanningInWorld(e: Character)
      requires Ready() && Populated() && e in enemyTeam
      ensures Plans(e) == PlansIn(View(), isPlayerTurn, e) && Planned(e) == PlannedIn(View(), e)
    {
      DeadInWorld(gridManager, units, e);
      PlanInWorld(e, gridManager, playerTeam, units);
    }

    /** Whether the planning step consults `e`'s planner, on the view `v` of a pass of side `playerTurn`. */
    ghost predicate PlansIn(v: UnitsView, playerTurn: bool, e: Character)
    {
      !playerTurn && !DeadIn(v.world, e) && e.hasAI
    }

    /** The queue `e`'s planner leaves on the view `v`: its planned command when there is one and the budget allows it. */
    ghost function PlannedIn(v: UnitsView, e: Character): seq<Command>
      requires e in v.world.at && forall p | p in playerTeam :: p in v.world.at
    {
      var plan := PlanIn(v.world, e, playerTeam);
      if plan.Some? && 1 <= e.maxActionPoints then [plan.value] else []
    }

    /** The view the planning step leaves: each enemy whose planner is consulted holds its plan. */
    ghost function AfterPlanning(v: UnitsView, playerTurn: bool): (r: UnitsView)
      requires v.queues.Keys == units && v.world.at.Keys == units && Roster()
      ensures r.queues.Keys == units && r.points == v.points && r.world == v.world
    {
      v.(queues := map u | u in units :: if u in enemyTeam && PlansIn(v, playerTurn, u) then PlannedIn(v, u) else v.queues[u])
    }

    /** The enemies' notices after the planning step on the view `v`: each gets Notices of its decision appended. */
    ghost function InboxesAfter(inboxes: map<Character, seq<QueueEvent>>, v: UnitsView, playerTurn: bool): (r: map<Character, seq<QueueEvent>>)
      requires (forall e | e in enemyTeam :: e in inboxes) && v.world.at.Keys == units && Roster()
      ensures r.Keys == set e | e in enemyTeam
    {
      map e | e in enemyTeam :: inboxes[e] + Notices(PlansIn(v, playerTurn, e), PlannedIn(v, e))
    }

    /** Inboxes() reads nothing but the enemies' notices. */
    twostate lemma InboxesKept()
      requires unchanged(enemyTeam`notifications)
      ensures Inboxes() == old(Inboxes())
    {
    }

    /** Inboxes() is any map that holds each enemy's notices under that enemy. */
    lemma InboxesAre(inboxes: map<Character, seq<QueueEvent>>)
      requires inboxes.Keys == set e | e in enemyTeam
      requires forall e | e in enemyTeam :: e.notifications == inboxes[e]
      ensures Inboxes() == inboxes
    {
    }

    /** The notices each enemy has received so far. */
    ghost function Inboxes(): (m: map<Character, seq<QueueEvent>>)
      reads enemyTeam`notifications
      ensures m.Keys == set e | e in enemyTeam
      ensures forall e | e in enemyTeam :: m[e] == e.notifications
    {
      map e | e in enemyTeam :: e.notifications
    }

    /**
      The first part of ExecuteTurn: the guard goes up, every highlight is reset, and on the
      enemy's turn each living enemy with a planner replaces its queue by its plan
      (PlanEnemies).  The units are then as AfterPlanning describes.
    */
    method BeginTurn()
      requires Ready() && Populated()
      modifies this`isExecutingTurn, gridManager.tiles`color, enemyTeam`commandQueue, enemyTeam`notifications
      ensures State() == Begin(old(State()))
      ensures Ready() && Populated()
      ensures forall t :: t in gridManager.tiles ==> t.color == t.originalColor
      ensures View() == AfterPlanning(old(View()), old(isPlayerTurn))
      ensures Inboxes() == InboxesAfter(old(Inboxes()), old(View()), old(isPlayerTurn))
    {
      RaiseGuard();
      ResetColors();
      if !isPlayerTurn {
        PlanEnemies();
      } else {
        PlanningIdle(View(), Inboxes());
      }
    }

    /** On the player's turn nothing plans: the planning step changes no queue and sends no notice. */
    lemma PlanningIdle(v: UnitsView, inboxes: map<Character, seq<QueueEvent>>)
      requires v.queues.Keys == units && v.world.at.Keys == units && Roster()
      requires inboxes.Keys == set e | e in enemyTeam
      ensures AfterPlanning(v, true) == v
      ensures InboxesAfter(inboxes, v, true) == inboxes
    {
      assert AfterPlanning(v, true).queues == v.queues;
      forall e | e in enemyTeam
        ensures InboxesAfter(inboxes, v, true)[e] == inboxes[e]
      {
        assert inboxes[e] + [] == inboxes[e];
      }
    }

    /** The guard goes up; nothing else changes. */
    method RaiseGuard()
      requires Ready()
      modifies this`isExecutingTurn
      ensures State() == Begin(old(State()))
      ensures Ready() && (old(Populated()) ==> Populated())
      ensures View() == old(View()) && Inboxes() == old(Inboxes())
    {
      Guard();
      ViewAfter(old(View()).queues);
      InboxesKept();
    }

    /** The guard flag itself. */
    method Guard()
      modifies this`isExecutingTurn
      ensures State() == Begin(old(State()))
    {
      isExecutingTurn := true;
    }

    /** ResetAllTileColors, which touches nothing but the colours. */
    method ResetColors()
      requires Ready()
      modifies gridManager.tiles`color
      ensures forall t :: t in gridManager.tiles ==> t.color == t.originalColor
      ensures Ready() && (old(Populated()) ==> Populated())
      ensures View() == old(View()) && Inboxes() == old(Inboxes())
      ensures State() == old(State())
    {
      gridManager.ResetAllTileColors();
      ViewAfter(old(View()).queues);
      InboxesKept();
    }

    /** The planning loop of ExecuteTurn, on the enemy's turn; the players' queues are not touched. */
    method PlanEnemies()
      requires Ready() && Populated() && !isPlayerTurn
      modifies enemyTeam`commandQueue, enemyTeam`notifications
      ensures Ready() && Populated()
      ensures View() == AfterPlanning(old(View()), old(isPlayerTurn))
      ensures Inboxes() == InboxesAfter(old(Inboxes()), old(View()), old(isPlayerTurn))
      ensures State() == old(State()) && unchanged(gridManager.tiles`color)
    {
      ghost var planned, inboxes := AfterPlanning(View(), false).queues, InboxesAfter(Inboxes(), View(), false);
      PlanningOnHeap(planned, inboxes);
      ApplyPlans(planned, inboxes);
    }

    /** PlanEnemies once the queues and notices planning leaves are known (`planned`, `inboxes`). */
    method ApplyPlans(ghost planned: map<Character, seq<Command>>, ghost inboxes: map<Character, seq<QueueEvent>>)
      requires Ready() && !isPlayerTurn
      requires planned.Keys == units && inboxes.Keys == set e | e in enemyTeam
      requires forall u | u in units :: planned[u] == if u in enemyTeam && Plans(u) then Planned(u) else u.commandQueue
      requires forall u | u in units :: WellFormedQueue(planned[u], u, units)
      requires forall e | e in enemyTeam :: inboxes[e] == e.notifications + Notices(Plans(e), Planned(e))
      modifies enemyTeam`commandQueue, enemyTeam`notifications
      ensures Ready() && (old(Populated()) ==> Populated())
      ensures View() == old(View()).(queues := planned) && Inboxes() == inboxes
      ensures State() == old(State())
      ensures forall t :: t in gridManager.tiles ==> t.color == old(t.color)
    {
      PlanEach(planned, inboxes);
      forall u | u in units
        ensures u.commandQueue == planned[u]
      {
        if u !in enemyTeam {
          assert u.commandQueue == old(u.commandQueue);
        }
      }
      ViewAfter(planned);
      InboxesAre(inboxes);
    }

    /** Every queue the planning step leaves is well-formed: the ones Ready() vouches for, and the enemies' plans. */
    lemma PlanningWellFormed()
      requires Ready() && Populated()
      ensures forall u | u in units :: WellFormedQueue(AfterPlanning(View(), isPlayerTurn).queues[u], u, units)
    {
      forall u | u in units
        ensures WellFormedQueue(AfterPlanning(View(), isPlayerTurn).queues[u], u, units)
      {
        if u in enemyTeam && PlansIn(View(), isPlayerTurn, u) {
          PlanningInWorld(u);
          PlannedWellFormed(u);
        }
      }
    }

    /**
      What the planning step leaves, told on the heap (Plans and Planned) and on View()
      (AfterPlanning and InboxesAfter): the two agree.
    */
    lemma PlanningOnHeap(planned: map<Character, seq<Command>>, inboxes: map<Character, seq<QueueEvent>>)
      requires Ready() && Populated() && !isPlayerTurn
      requires planned == AfterPlanning(View(), false).queues && inboxes == InboxesAfter(Inboxes(), View(), false)
      ensures planned.Keys == units && inboxes.Keys == set e | e in enemyTeam
      ensures forall u | u in units :: planned[u] == if u in enemyTeam && Plans(u) then Planned(u) else u.commandQueue
      ensures forall u | u in units :: WellFormedQueue(planned[u], u, units)
      ensures forall e | e in enemyTeam :: inboxes[e] == e.notifications + Notices(Plans(e), Planned(e))
    {
      PlanningWellFormed();
      forall e | e in enemyTeam
        ensures Plans(e) == PlansIn(View(), false, e) && Planned(e) == PlannedIn(View(), e)
      {
        PlanningInWorld(e);
      }
    }

    /**
      The loop itself: each enemy in roster order gets the queue and notices its planning
      step gives it, here handed in as `planned` and `inboxes`.
    */
    method PlanEach(ghost planned: map<Character, seq<Command>>, ghost inboxes: map<Character, seq<QueueEvent>>)
      requires gridManager.Valid() && !isPlayerTurn && Distinct(enemyTeam)
      requires forall e | e in enemyTeam ::
                 && e in planned && planned[e] == (if Plans(e) then Planned(e) else e.commandQueue)
                 && e in inboxes && inboxes[e] == e.notifications + Notices(Plans(e), Planned(e))
      modifies enemyTeam`commandQueue, enemyTeam`notifications
      ensures forall e | e in enemyTeam :: e.commandQueue == planned[e] && e.notifications == inboxes[e]
    {
      for i := 0 to |enemyTeam|
        invariant forall k :: 0 <= k < i ==>
                    enemyTeam[k].commandQueue == planned[enemyTeam[k]] && enemyTeam[k].notifications == inboxes[enemyTeam[k]]
        invariant forall k :: i <= k < |enemyTeam| ==>
                    enemyTeam[k].commandQueue == old(enemyTeam[k].commandQueue) &&
                    enemyTeam[k].notifications == old(enemyTeam[k].notifications)
      {
        var e := enemyTeam[i];
        assert forall k :: 0 <= k < |enemyTeam| && k != i ==> enemyTeam[k] != e;
        PlanningUnaffected(e);
        PlanOne(e, planned[e], inboxes[e]);
      }
      forall e | e in enemyTeam
        ensures e.commandQueue == planned[e] && e.notifications == inboxes[e]
      {
        var k :| 0 <= k < |enemyTeam| && enemyTeam[k] == e;
      }
    }

    /** Planning changes only queues and notices, so what an enemy would plan stays as it was. */
    twostate lemma PlanningUnaffected(e: Character)
      requires old(gridManager.Valid()) && unchanged(this, gridManager) && unchanged(gridManager.grid)
      requires old(allocated(gridManager.grid)) && unchanged(gridManager.tiles`occupant)
      requires unchanged(e`gridX, e`gridZ, e`health, e`destroyed)
      requires unchanged(playerTeam`gridX, playerTeam`gridZ, playerTeam`health, playerTeam`destroyed)
      requires forall t | t in gridManager.tiles && t.occupant != null :: unchanged(t.occupant`destroyed)
      ensures gridManager.Valid() && Plans(e) == old(Plans(e)) && Planned(e) == old(Planned(e))
    {
    }

    /**
      One iteration of the planning loop: a dead enemy is skipped, a living one with a planner
      plans; `queue` and `notes` are what that leaves it.
    */
    method PlanOne(enemy: Character, ghost queue: seq<Command>, ghost notes: seq<QueueEvent>)
      requires gridManager.Valid() && !isPlayerTurn
      requires queue == (if Plans(enemy) then Planned(enemy) else enemy.commandQueue)
      requires notes == enemy.notifications + Notices(Plans(enemy), Planned(enemy))
      modifies enemy`commandQueue, enemy`notifications
      ensures enemy.commandQueue == queue && enemy.notifications == notes
    {
      if enemy.IsDead() {
        assert enemy.notifications + [] == enemy.notifications;
        return;
      }
      if enemy.hasAI {
        PlanTurn(enemy, gridManager, playerTeam);
      } else {
        assert enemy.notifications + [] == enemy.notifications;
      }
    }

    /** The per-unit state the execution loop works on, read off the heap. */
    ghost function View(): (v: UnitsView)
      reads units`commandQueue, units`currentActionPoints
      reads gridManager, gridManager.grid, gridManager.tiles`occupant, units`gridX, units`gridZ, units`health, units`destroyed
      requires gridManager.Valid()
      ensures v.queues.Keys == units && v.points.Keys == units
      ensures forall u | u in units :: v.queues[u] == u.commandQueue && v.points[u] == u.currentActionPoints
      ensures v.world == WorldOf(gridManager, units)
    {
      var queues := map u | u in units :: u.commandQueue;
      var points := map u | u in units :: u.currentActionPoints;
      UnitsView(queues, points, WorldOf(gridManager, units))
    }

    /**
      Between two states that differ at most in the turn flags, the colours, the notices and
      the queues (given as `queues`), the view differs only in the queues; the battle stays
      set up when those queues are well-formed.
    */
    twostate lemma ViewAfter(queues: map<Character, seq<Command>>)
      requires old(Ready()) && unchanged(gridManager) && old(allocated(gridManager.grid)) && unchanged(gridManager.grid)
      requires unchanged(gridManager.tiles`occupant, units`gridX, units`gridZ, units`health, units`destroyed, units`currentActionPoints)
      requires queues.Keys == units && forall u | u in units :: u.commandQueue == queues[u]
      ensures gridManager.Valid() && View() == old(View()).(queues := queues)
      ensures (forall u | u in units :: WellFormedQueue(queues[u], u, units)) ==> Ready()
      ensures old(Populated()) ==> Populated()
    {
      assert View().queues == queues;
    }

    /**
      The execution part of ExecuteTurn: every member of the side to move that is alive when
      its slot in the roster comes runs its queue (ExecuteCommands); dead members are
      skipped.  The units end as TeamPass of that roster describes.
    */
    method ExecuteTeam()
      requires Ready()
      requires Populated()
      modifies gridManager.tiles`occupant
      modifies units`gridX, units`gridZ, units`health, units`destroyed
      modifies units`commandQueue, units`currentActionPoints
      ensures Ready() && Populated()
      ensures PassEffect(units, CurrentTeam(), old(View()), View())
      ensures State() == old(State()) && unchanged(enemyTeam`notifications, gridManager.tiles`color)
    {
      var team := if isPlayerTurn then playerTeam else enemyTeam;
      RunTeam(team);
    }

    /** The loop over the roster: each member in order takes its slot. */
    method RunTeam(team: seq<Character>)
      requires Ready() && (team == playerTeam || team == enemyTeam)
      requires Populated()
      modifies gridManager.tiles`occupant
      modifies units`gridX, units`gridZ, units`health, units`destroyed
      modifies units`commandQueue, units`currentActionPoints
      ensures Ready() && Populated()
      ensures PassEffect(units, team, old(View()), View())
    {
      ghost var start := View();
      ProgressStart(team);
      for i := 0 to |team|
        invariant Progress(team, i, start)
      {
        ExecuteSlot(team, i, start);
      }
      ProgressDone(team, start);
    }

    /** Before the first slot, nothing has run. */
    lemma ProgressStart(team: seq<Character>)
      requires Ready() && (team == playerTeam || team == enemyTeam) && Populated()
      ensures Progress(team, 0, View())
    {
      TallyStart(units, team, View());
    }

    /** After the last slot, the pass is the whole roster's. */
    lemma ProgressDone(team: seq<Character>, start: UnitsView)
      requires Progress(team, |team|, start)
      ensures Ready() && Populated() && PassEffect(units, team, start, View())
    {
      assert team[..|team|] == team;
    }

    /** What the execution loop has done after the first `i` members of `team`, from the view `start` it began in. */
    ghost predicate Progress(team: seq<Character>, i: nat, start: UnitsView)
      reads *
    {
      && Ready() && Populated() && i <= |team| && Distinct(team) && (forall u | u in team :: u in units)
      && PassEffect(units, team[..i], start, View())
    }

    /** The body of the execution loop: the member at `i` takes its slot. */
    method ExecuteSlot(team: seq<Character>, i: nat, ghost start: UnitsView)
      requires i < |team| && Progress(team, i, start)
      modifies gridManager.tiles`occupant
      modifies units`gridX, units`gridZ, units`health, units`destroyed
      modifies units`commandQueue, units`currentActionPoints
      ensures Progress(team, i + 1, start)
    {
      ghost var v := View();
      assert team[i] in team[..i + 1];
      TakeTurnOf(team[i]);
      SlotKeepsTally(units, team, i, start, v, View());
    }

    /** One member's slot in the execution loop: it runs its queue if it is alive. */
    method TakeTurnOf(character: Character)
      requires Ready() && character in units
      requires Populated()
      modifies gridManager.tiles`occupant
      modifies units`gridX, units`gridZ, units`health, units`destroyed
      modifies character`commandQueue, character`currentActionPoints
      ensures Ready() && Populated()
      ensures SlotEffect(old(View()), View(), character)
    {
      DeadInWorld(gridManager, units, character);
      if !character.IsDead() {
        RunLiving(character);
      }
    }

    /** The slot of a living member: ExecuteCommands on its queue. */
    method RunLiving(character: Character)
      requires Ready() && Populated() && character in units
      modifies gridManager.tiles`occupant
      modifies units`gridX, units`gridZ, units`health, units`destroyed
      modifies character`commandQueue, character`currentActionPoints
      ensures Ready() && Populated()
      ensures View() == old(View()).(queues := old(View()).queues[character := []],
                                     points := old(View()).points[character := character.maxActionPoints],
                                     world := RunAll(old(character.commandQueue), old(View()).world))
    {
      ExecuteCommands(character, gridManager, units);
      SlotView(character);
      SlotReady(character);
    }

    /**
      Between two states that differ at most in the tiles' occupants, the units' coordinates,
      health and destruction, and `character`'s queue and action points, the view differs in
      just those; the battle stays set up when that queue is well-formed.
    */
    twostate lemma SlotView(character: Character)
      requires old(gridManager.Valid()) && character in units
      requires unchanged(gridManager) && old(allocated(gridManager.grid)) && unchanged(gridManager.grid)
      requires forall u | u in units && u != character :: unchanged(u`commandQueue, u`currentActionPoints)
      ensures gridManager.Valid()
      ensures View() == old(View()).(queues := old(View()).queues[character := character.commandQueue],
                                     points := old(View()).points[character := character.currentActionPoints],
                                     world := WorldOf(gridManager, units))
    {
      UpdatedAt(View().queues, old(View()).queues, character, character.commandQueue);
      UpdatedAt(View().points, old(View()).points, character, character.currentActionPoints);
    }

    /** The battle stays set up when only `character`'s queue changed, to a well-formed one. */
    twostate lemma SlotReady(character: Character)
      requires old(Ready()) && character in units && QueueWellFormed(character, units)
      requires unchanged(gridManager) && old(allocated(gridManager.grid)) && unchanged(gridManager.grid)
      requires forall u | u in units && u != character :: unchanged(u`commandQueue)
      ensures Ready()
    {
    }

    /** The last part of ExecuteTurn: the side flips, the guard comes down, OnTurnChanged reports the side to move, and handing over to the enemy schedules a chained pass. */
    method FinishTurn(ghost chained: bool)
      requires Ready() && (chained ==> pendingChains > 0)
      modifies this`isPlayerTurn, this`isExecutingTurn, this`pendingChains, this`turnChanges
      ensures State() == Finish(if chained then old(State()).(pendingChains := old(pendingChains) - 1) else old(State()))
      ensures turnChanges == old(turnChanges) + [!old(isPlayerTurn)]
      ensures Ready() && (old(Populated()) ==> Populated())
      ensures View() == old(View()) && Inboxes() == old(Inboxes())
      ensures unchanged(gridManager.tiles`color)
    {
      Flip(chained);
      ViewAfter(old(View()).queues);
      InboxesKept();
    }

    /** The turn flags of FinishTurn: a chained pass that started is no longer pending. */
    method Flip(ghost chained: bool)
      requires chained ==> pendingChains > 0
      modifies this`isPlayerTurn, this`isExecutingTurn, this`pendingChains, this`turnChanges
      ensures State() == Finish(if chained then old(State()).(pendingChains := old(pendingChains) - 1) else old(State()))
      ensures turnChanges == old(turnChanges) + [!old(isPlayerTurn)]
    {
      var handOver := isPlayerTurn;
      isPlayerTurn, isExecutingTurn := !isPlayerTurn, false;
      turnChanges := turnChanges + [isPlayerTurn];
      pendingChains := if chained then pendingChains - 1 else pendingChains;
      pendingChains := if handOver then pendingChains + 1 else pendingChains;
    }

    /**
      ExecuteTurn: begin, execute the side to move, finish.  The units end as TeamPass of the
      side that was to move describes, run on the queues the planning step left (on the
      enemy's turn, each living enemy's plan); each enemy got its planning notices.
    */
    method ExecuteTurn(ghost chained: bool)
      requires Ready() && (chained ==> pendingChains > 0)
      requires Populated()
      modifies this`isPlayerTurn, this`isExecutingTurn, this`pendingChains, this`turnChanges
      modifies gridManager.tiles`color, gridManager.tiles`occupant
      modifies units`gridX, units`gridZ, units`health, units`destroyed
      modifies units`commandQueue, units`currentActionPoints, enemyTeam`notifications
      ensures State() == if chained then ResumeStep(old(State())) else Pass(old(State()))
      ensures turnChanges == old(turnChanges) + [!old(isPlayerTurn)]
      ensures Ready() && Populated()
      ensures forall t :: t in gridManager.tiles ==> t.color == t.originalColor
      ensures PassEffect(units, old(CurrentTeam()), AfterPlanning(old(View()), old(isPlayerTurn)), View())
      ensures Inboxes() == InboxesAfter(old(Inboxes()), old(View()), old(isPlayerTurn))
    {
      RunPass();
      FinishTurn(chained);
    }

    /** ExecuteTurn up to the hand-over: BeginTurn, then ExecuteTeam. */
    method RunPass()
      requires Ready()
      requires Populated()
      modifies this`isExecutingTurn
      modifies gridManager.tiles`color, gridManager.tiles`occupant
      modifies units`gridX, units`gridZ, units`health, units`destroyed
      modifies units`commandQueue, units`currentActionPoints, enemyTeam`notifications
      ensures State() == Begin(old(State()))
      ensures Ready() && Populated()
      ensures forall t :: t in gridManager.tiles ==> t.color == t.originalColor
      ensures PassEffect(units, CurrentTeam(), AfterPlanning(old(View()), old(isPlayerTurn)), View())
      ensures Inboxes() == InboxesAfter(old(Inboxes()), old(View()), old(isPlayerTurn))
    {
      BeginTurn();
      ExecuteTeam();
    }

    /**
      A pass keeps the battle's invariants: the health invariant and the tile<->unit
      invariant hold after it if they held before, and every member of the side that moved
      is then dead or has an empty queue and full action points.
    */
    lemma PassKeepsInvariants(team: seq<Character>, v0: UnitsView, v: UnitsView)
      requires Ready() && (team == playerTeam || team == enemyTeam)
      requires PassEffect(units, team, v0, v) && QueuesWellFormed(team, v0.queues, units)
      ensures v0.world.destroyed <= v.world.destroyed
      ensures WorldConsistent(v0.world) ==> WorldConsistent(v.world)
      ensures Healthy(v0.world) ==>
                && Healthy(v.world)
                && forall u | u in team :: DeadIn(v.world, u) || (v.queues[u] == [] && v.points[u] == u.maxActionPoints)
    {
      TeamPassKeepsDestroyed(team, v0.queues, v0.world);
      if WorldConsistent(v0.world) {
        TeamPassKeepsConsistent(team, v0.queues, v0.world, units);
      }
      if Healthy(v0.world) {
        PassLeavesTeamDone(units, team, v0, v);
      }
    }

    /** EndTurn: ignored while a pass is running, otherwise one pass. */
    method EndTurn()
      requires Ready()
      requires Populated()
      modifies this`isPlayerTurn, this`isExecutingTurn, this`pendingChains, this`turnChanges
      modifies gridManager.tiles`color, gridManager.tiles`occupant
      modifies units`gridX, units`gridZ, units`health, units`destroyed
      modifies units`commandQueue, units`currentActionPoints, enemyTeam`notifications
      ensures State() == EndTurnStep(old(State()))
      ensures Ready() && Populated()
      ensures old(isExecutingTurn) ==> unchanged(this) && unchanged(units) && unchanged(gridManager.tiles)
      ensures !old(isExecutingTurn) ==>
                && turnChanges == old(turnChanges) + [!old(isPlayerTurn)]
                && (forall t :: t in gridManager.tiles ==> t.color == t.originalColor)
                && PassEffect(units, old(CurrentTeam()), AfterPlanning(old(View()), old(isPlayerTurn)), View())
                && Inboxes() == InboxesAfter(old(Inboxes()), old(View()), old(isPlayerTurn))
    {
      if isExecutingTurn {
        return;
      }
      ExecuteTurn(false);
    }

    /** A chained pass starting after its delay: one scheduled pass fewer, then a pass, whatever the guard says. */
    method ResumeChained()
      requires Ready() && Populated() && pendingChains > 0
      modifies this`isPlayerTurn, this`isExecutingTurn, this`pendingChains, this`turnChanges
      modifies gridManager.tiles`color, gridManager.tiles`occupant
      modifies units`gridX, units`gridZ, units`health, units`destroyed
      modifies units`commandQueue, units`currentActionPoints, enemyTeam`notifications
      ensures State() == ResumeStep(old(State()))
      ensures turnChanges == old(turnChanges) + [!old(isPlayerTurn)]
      ensures Ready() && Populated()
      ensures forall t :: t in gridManager.tiles ==> t.color == t.originalColor
      ensures Inboxes() == InboxesAfter(old(Inboxes()), old(View()), old(isPlayerTurn))
      ensures PassEffect(units, old(CurrentTeam()), AfterPlanning(old(View()), old(isPlayerTurn)), View())
    {
      ExecuteTurn(true);
    }

    /** IsPlayerTurn: it is the player's turn and no pass is running. */
    method IsPlayerTurn() returns (b: bool)
      ensures b == ObservedPlayerTurn(State())
    {
      b := isPlayerTurn && !isExecutingTurn;
    }

    method IsExecutingTurn() returns (b: bool)
      ensures b == State().isExecutingTurn
    {
      b := isExecutingTurn;
    }
  }

  /** The members of both rosters. */
  function Members(playerTeam: seq<Character>, enemyTeam: seq<Character>): set<Character>
  {
    (set u | u in playerTeam) + (set u | u in enemyTeam)
  }

  /**
    A battle from its start to the end of the player's first turn: the turn manager is built
    over an empty grid and two distinct rosters and the units are placed (SetUpBattle), then
    the player presses end turn with nothing running.  The players' queues run as TeamPass
    describes on the board the placement left, the turn passes to the enemy with one chained
    pass scheduled, and a placement in which every unit landed on a free cell leaves the
    tile<->unit invariant holding after that pass.
  */
  method OpeningTurn(playerTeam: seq<Character>, enemyTeam: seq<Character>, gm: GridManager, rng: nat -> nat, cursor: nat)
    returns (tm: TurnManager, done: bool, ghost tries: seq<nat>, ghost placedView: UnitsView)
    requires gm.Valid() && gm.AllFree()
    requires Distinct(playerTeam) && Distinct(enemyTeam) && Disjoint(playerTeam, enemyTeam)
    requires forall u | u in Members(playerTeam, enemyTeam) :: QueueWellFormed(u, Members(playerTeam, enemyTeam))
    modifies gm.tiles, Members(playerTeam, enemyTeam)
    ensures fresh(tm) && tm.playerTeam == playerTeam && tm.enemyTeam == enemyTeam && tm.gridManager == gm
    ensures tm.units == Members(playerTeam, enemyTeam)
    ensures gm.gridSize >= 5 ==> done
    ensures tm.State() == TurnState(false, false, 1) && tm.turnChanges == [false]
    ensures tm.Ready() && tm.Populated()
    ensures PassEffect(tm.units, playerTeam, placedView, tm.View())
    ensures done && (forall i | 0 <= i < |tries| :: tries[i] < 10) ==>
              WorldConsistent(placedView.world) && WorldConsistent(tm.View().world)
  {
    tm, done, tries, placedView := SetUpBattle(playerTeam, enemyTeam, gm, rng, cursor);
    tm.PlanningIdle(placedView, tm.Inboxes());
    tm.EndTurn();
    if done && (forall i | 0 <= i < |tries| :: tries[i] < 10) {
      TeamPassKeepsConsistent(playerTeam, placedView.queues, placedView.world, tm.units);
    }
  }

  /**
    Start: the turn manager over an empty grid and two distinct rosters, then
    InitializeCharacterPositions.  The battle is set up with the player to move; when every
    unit was placed on a free cell the tile<->unit invariant holds.
  */
  method SetUpBattle(playerTeam: seq<Character>, enemyTeam: seq<Character>, gm: GridManager, rng: nat -> nat, cursor: nat)
    returns (tm: TurnManager, done: bool, ghost tries: seq<nat>, ghost placedView: UnitsView)
    requires gm.Valid() && gm.AllFree()
    requires Distinct(playerTeam) && Distinct(enemyTeam) && Disjoint(playerTeam, enemyTeam)
    requires forall u | u in Members(playerTeam, enemyTeam) :: QueueWellFormed(u, Members(playerTeam, enemyTeam))
    modifies gm.tiles, Members(playerTeam, enemyTeam)
    ensures fresh(tm) && tm.playerTeam == playerTeam && tm.enemyTeam == enemyTeam && tm.gridManager == gm
    ensures tm.units == Members(playerTeam, enemyTeam)
    ensures gm.gridSize >= 5 ==> done
    ensures tm.State() == Idle && tm.turnChanges == []
    ensures tm.Ready() && tm.Populated() && placedView == tm.View()
    ensures QueuesWellFormed(playerTeam, placedView.queues, tm.units)
    ensures done && (forall i | 0 <= i < |tries| :: tries[i] < 10) ==> WorldConsistent(placedView.world)
  {
    tm := new TurnManager(playerTeam, enemyTeam, gm);
    tm.ReadyFrom();
    var next;
    ghost var placed;
    done, next, placed, tries := tm.InitializeCharacterPositions(rng, cursor);
    placedView := tm.View();
    ConsistentWorld(gm, tm.units);
  }
}
