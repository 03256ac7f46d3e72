/**
  The enemy planner (AIEnemyController).  Its fields are references fixed at Awake (the unit it
  drives, the grid, the turn manager it asks for the player roster), so it is written as
  operations taking those as parameters.  Planning looks at the closest living player: it queues
  an attack when that player is adjacent, otherwise one step towards it when that cell is free,
  otherwise nothing.
*/
module AI {
  import opened Wrappers
  import opened Units
  import opened Grid
  import opened Board
  import opened Effects
  import opened Commands

  /** A unit's coordinates. */
  function PosOf(c: Character): Cell
    reads c`gridX, c`gridZ
  {
    (c.gridX, c.gridZ)
  }

  /**
    Squared Euclidean distance: it orders pairs of cells as Vector2Int.Distance does.  It is
    zero only on the same cell and one exactly on adjacent cells.
  */
  function Dist2(a: Cell, b: Cell): (d: int)
    ensures d >= 0
    ensures d == 0 <==> a == b
    ensures d == 1 <==> IsAdjacent(a, b)
  {
    var dx, dz := a.0 - b.0, a.1 - b.1;
    assert dx * dx >= if dx == 0 then 0 else 1;
    assert dz * dz >= if dz == 0 then 0 else 1;
    assert dx * dx == 1 <==> dx == 1 || dx == -1;
    assert dz * dz == 1 <==> dz == 1 || dz == -1;
    dx * dx + dz * dz
  }

  /** IsAdjacent: the Manhattan distance is exactly 1 (a unit on the same cell is not adjacent). */
  predicate IsAdjacent(a: Cell, b: Cell) {
    Manhattan(a, b) == 1
  }

  /**
    GetNextStepTowards: one cell along x while the columns differ, then along z, else stay.
    The step is a neighbour that is one closer to the target.
  */
  function NextStep(from: Cell, to: Cell): (r: Cell)
    ensures from == to ==> r == from
    ensures from != to ==> Manhattan(from, r) == 1 && Manhattan(r, to) == Manhattan(from, to) - 1
    ensures from.0 != to.0 ==> r.1 == from.1
    ensures from.0 == to.0 ==> r.0 == from.0
    ensures IsAdjacent(from, to) <==> from != to && r == to
  {
    if to.0 > from.0 then (from.0 + 1, from.1)
    else if to.0 < from.0 then (from.0 - 1, from.1)
    else if to.1 > from.1 then (from.0, from.1 + 1)
    else if to.1 < from.1 then (from.0, from.1 - 1)
    else from
  }

  /**
    The reference for FindClosestPlayer: scanning the roster in order, a living player replaces
    the current choice only when strictly closer, so the first of the closest wins.
  */
  function Closest(me: Cell, players: seq<Character>): (c: Character?)
    reads players`gridX, players`gridZ, players`health, players`destroyed
    ensures c != null ==> c in players
  {
    if players == [] then null
    else
      var best := Closest(me, players[..|players| - 1]);
      var p := players[|players| - 1];
      if p.IsDead() then best
      else if best == null || Dist2(me, PosOf(p)) < Dist2(me, PosOf(best)) then p
      else best
  }

  /** No target exactly when every player is dead; a target is a living player. */
  lemma {:induction false} ClosestNullIffAllDead(me: Cell, players: seq<Character>)
    ensures Closest(me, players) == null <==> forall i :: 0 <= i < |players| ==> players[i].IsDead()
    ensures Closest(me, players) != null ==> !Closest(me, players).IsDead()
  {
    if players != [] {
      var pre := players[..|players| - 1];
      ClosestNullIffAllDead(me, pre);
      assert forall i :: 0 <= i < |pre| ==> players[i] == pre[i];
    }
  }

  /** The target is at least as close as every living player. */
  lemma {:induction false} ClosestIsMinimal(me: Cell, players: seq<Character>)
    ensures Closest(me, players) != null ==>
              forall i :: 0 <= i < |players| && !players[i].IsDead() ==>
                Dist2(me, PosOf(Closest(me, players))) <= Dist2(me, PosOf(players[i]))
  {
    if players != [] {
      var pre := players[..|players| - 1];
      ClosestIsMinimal(me, pre);
      ClosestNullIffAllDead(me, pre);
      assert forall i :: 0 <= i < |pre| ==> players[i] == pre[i];
    }
  }

  /** Ties go to the earlier player: the target occurs no later than any living player as close as it. */
  lemma {:induction false} ClosestIsFirst(me: Cell, players: seq<Character>)
    ensures Closest(me, players) != null ==>
              forall j :: 0 <= j < |players| && !players[j].IsDead() &&
                          Dist2(me, PosOf(players[j])) == Dist2(me, PosOf(Closest(me, players))) ==>
                exists k :: 0 <= k <= j && players[k] == Closest(me, players)
  {
    if players != [] {
      var n := |players|;
      var pre := players[..n - 1];
      ClosestIsFirst(me, pre);
      ClosestIsMinimal(me, pre);
      ClosestNullIffAllDead(me, pre);
      var c := Closest(me, players);
      forall j | 0 <= j < n && !players[j].IsDead() && Dist2(me, PosOf(players[j])) == Dist2(me, PosOf(c))
        ensures exists k :: 0 <= k <= j && players[k] == c
      {
        if j < n - 1 {
          assert players[j] == pre[j];
          var k :| 0 <= k <= j && pre[k] == c;
          assert players[k] == c;
        } else {
          var k :| 0 <= k < n && players[k] == c;
        }
      }
    }
  }

  /** FindClosestPlayer: the accumulator loop over the roster. */
  method FindClosestPlayer(character: Character, players: seq<Character>) returns (closest: Character?)
    ensures closest == Closest(PosOf(character), players)
  {
    var me := (character.gridX, character.gridZ);
    closest := null;
    var closestDist := 0;
    for i := 0 to |players|
      invariant closest == Closest(me, players[..i])
      invariant closest != null ==> closestDist == Dist2(me, PosOf(closest))
    {
      assert players[..i + 1][..i] == players[..i];
      var player := players[i];
      if player.IsDead() {
        continue;
      }
      var dist := Dist2(me, (player.gridX, player.gridZ));
      if closest == null || dist < closestDist {
        closestDist := dist;
        closest := player;
      }
    }
    assert players[..|players|] == players;
  }

  /** The one command PlanTurn queues for a living unit (before the budget check), if any. */
  function PlannedCommand(character: Character, gm: GridManager, players: seq<Character>): Option<Command>
    reads character`gridX, character`gridZ
    reads players`gridX, players`gridZ, players`health, players`destroyed
    reads gm, gm.grid, gm.tiles`occupant, (set t | t in gm.tiles && t.occupant != null :: t.occupant)`destroyed
    requires gm.Valid()
  {
    var target := Closest(PosOf(character), players);
    if target == null then None
    else if IsAdjacent(PosOf(character), PosOf(target)) then Some(NewAttack(character, target, DefaultAttackDamage))
    else
      var step := NextStep(PosOf(character), PosOf(target));
      if gm.IsValidPosition(step.0, step.1) && !gm.GetTile(step.0, step.1).IsOccupied()
      then Some(NewMove(character, step.0, step.1))
      else None
  }

  /**
    What the planner promises: it plans nothing exactly when no player is alive or the step is
    blocked; an attack names the closest living player, adjacent, for 10 damage; a move is one
    cell to a free on-grid tile, one step closer to that player, from where the unit stands,
    and a free on-grid step towards a player not yet adjacent is always planned as that move.
  */
  lemma PlannedCommandShape(character: Character, gm: GridManager, players: seq<Character>)
    requires gm.Valid()
    ensures var plan := PlannedCommand(character, gm, players);
            var target := Closest(PosOf(character), players);
            && (target == null ==> plan.None?)
            && (plan.Some? ==> plan.value.owner == character && target != null && target in players && !target.IsDead())
            && (plan.Some? && plan.value.Attack? ==>
                  plan.value.target == target && plan.value.damage == 10 && IsAdjacent(PosOf(character), PosOf(target)))
            && (plan.Some? && plan.value.Move? ==>
                  var to := (plan.value.targetX, plan.value.targetZ);
                  && !IsAdjacent(PosOf(character), PosOf(target))
                  && gm.IsValidPosition(to.0, to.1) && !gm.GetTile(to.0, to.1).IsOccupied()
                  && (PosOf(character) == PosOf(target) ==> to == PosOf(character))
                  && (PosOf(character) != PosOf(target) ==>
                        Manhattan(PosOf(character), to) == 1 &&
                        Manhattan(to, PosOf(target)) == Manhattan(PosOf(character), PosOf(target)) - 1)
                  && plan.value.previousX == character.gridX && plan.value.previousZ == character.gridZ)
            && (target != null && IsAdjacent(PosOf(character), PosOf(target)) ==> plan.Some? && plan.value.Attack?)
            && (target != null && !IsAdjacent(PosOf(character), PosOf(target)) ==>
                  var s := NextStep(PosOf(character), PosOf(target));
                  && (plan.Some? ==> plan.value.Move? && (plan.value.targetX, plan.value.targetZ) == s)
                  && (gm.IsValidPosition(s.0, s.1) && !gm.GetTile(s.0, s.1).IsOccupied() ==>
                        plan == Some(NewMove(character, s.0, s.1))))
  {
    ClosestNullIffAllDead(PosOf(character), players);
    var target := Closest(PosOf(character), players);
  }

  /** Closest on a world: the same scan, reading positions and deaths from `w`. */
  function ClosestIn(w: World, me: Cell, players: seq<Character>): (c: Character?)
    requires forall p | p in players :: p in w.at
    ensures c != null ==> c in players && !DeadIn(w, c)
  {
    if players == [] then null
    else
      var best := ClosestIn(w, me, players[..|players| - 1]);
      var p := players[|players| - 1];
      if DeadIn(w, p) then best
      else if best == null || Dist2(me, w.at[p]) < Dist2(me, w.at[best]) then p
      else best
  }

  /** PlannedCommand on a world: the unit's cell, its target and the tile it would step on are all read from `w`. */
  function PlanIn(w: World, character: Character, players: seq<Character>): Option<Command>
    requires character in w.at && forall p | p in players :: p in w.at
  {
    var me := w.at[character];
    var target := ClosestIn(w, me, players);
    if target == null then None
    else if IsAdjacent(me, w.at[target]) then Some(Attack(character, target, DefaultAttackDamage))
    else
      var step := NextStep(me, w.at[target]);
      if step in w.occ && !Occupied(w, step) then Some(Move(character, step.0, step.1, me.0, me.1))
      else None
  }

  /** On the battle read off the heap, Closest and ClosestIn pick the same player. */
  lemma {:induction false} ClosestInWorld(gm: GridManager, units: set<Character>, me: Cell, players: seq<Character>)
    requires gm.Valid() && forall p | p in players :: p in units
    ensures Closest(me, players) == ClosestIn(WorldOf(gm, units), me, players)
  {
    if players != [] {
      ClosestInWorld(gm, units, me, players[..|players| - 1]);
      DeadInWorld(gm, units, players[|players| - 1]);
    }
  }

  /**
    While every tile names a unit of the battle or nobody, the planner on the heap and PlanIn
    on the world read off it plan the same command.
  */
  lemma PlanInWorld(character: Character, gm: GridManager, players: seq<Character>, units: set<Character>)
    requires gm.Valid() && character in units && (forall p | p in players :: p in units)
    requires OccupantsAreUnits(WorldOf(gm, units))
    ensures PlannedCommand(character, gm, players) == PlanIn(WorldOf(gm, units), character, players)
  {
    var w := WorldOf(gm, units);
    ClosestInWorld(gm, units, PosOf(character), players);
    var target := Closest(PosOf(character), players);
    if target != null && !IsAdjacent(PosOf(character), PosOf(target)) {
      var step := NextStep(PosOf(character), PosOf(target));
      if gm.IsValidPosition(step.0, step.1) {
        OccupiedInWorld(gm, units, step.0, step.1);
      }
    }
  }

  /**
    PlanTurn.  A dead unit is left alone (its queue is not even cleared).  Otherwise the queue
    is cleared (one removal notice) and the planned command, if any, is offered to AddCommand,
    which takes it when the unit's budget allows one action point.
  */
  method PlanTurn(character: Character, gm: GridManager, players: seq<Character>)
    requires gm.Valid()
    modifies character`commandQueue, character`notifications
    ensures old(character.IsDead()) ==>
              character.commandQueue == old(character.commandQueue) && character.notifications == old(character.notifications)
    ensures !old(character.IsDead()) ==>
              var plan := old(PlannedCommand(character, gm, players));
              var added := plan.Some? && 1 <= character.maxActionPoints;
              && character.commandQueue == (if added then [plan.value] else [])
              && character.notifications ==
                   old(character.notifications) + [CommandRemoved] + (if added then [CommandAdded] else [])
  {
    if character.IsDead() {
      return;
    }
    ghost var plan := PlannedCommand(character, gm, players);
    character.ClearCommands();
    var target := FindClosestPlayer(character, players);
    if target == null {
      return;
    }
    if IsAdjacent((character.gridX, character.gridZ), (target.gridX, target.gridZ)) {
      character.AddCommand(NewAttack(character, target, DefaultAttackDamage));
    } else {
      var nextStep := NextStep((character.gridX, character.gridZ), (target.gridX, target.gridZ));
      if gm.IsValidPosition(nextStep.0, nextStep.1) && !gm.GetTile(nextStep.0, nextStep.1).IsOccupied() {
        character.AddCommand(NewMove(character, nextStep.0, nextStep.1));
      }
    }
  }
}
