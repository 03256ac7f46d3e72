/**
  Executing and undoing commands against the grid and the units, and a unit's
  execution of its whole queue.  Each Execute returns whether it succeeded;
  each Undo is unconditional.  A Move's effect on the tiles is tied to
  Board.MoveOccupancy / Board.UndoOccupancy, and the tile<->unit invariant
  (Board.Consistent, read off the heap by `BoardConsistent`) is preserved.
*/
module Commands {
  import opened Units
  import opened Grid
  import opened Board
  import opened Effects

  /** Each unit's coordinates. */
  ghost function PositionsOf(units: set<Character>): (at: Positions)
    reads units`gridX, units`gridZ
    ensures at.Keys == units
  {
    map u | u in units :: (u.gridX, u.gridZ)
  }

  /** The units still on the battlefield (not destroyed). */
  ghost function PresentOf(units: set<Character>): set<Character>
    reads units`destroyed
  {
    set u | u in units && !u.destroyed
  }

  /** The tile<->unit invariant over the live heap. */
  ghost predicate BoardConsistent(gm: GridManager, units: set<Character>)
    reads gm, gm.grid, gm.tiles`occupant, units`gridX, units`gridZ, units`destroyed
    requires gm.Valid()
  {
    Consistent(gm.Occupants(), PositionsOf(units), PresentOf(units))
  }

  /** Each unit's health. */
  ghost function HealthOf(units: set<Character>): (h: map<Character, int>)
    reads units`health
    ensures h.Keys == units
  {
    map u | u in units :: u.health
  }

  /** The units destroyed so far. */
  ghost function DestroyedOf(units: set<Character>): set<Character>
    reads units`destroyed
  {
    set u | u in units && u.destroyed
  }

  /** The battle as Effects sees it, read off the heap. */
  ghost function WorldOf(gm: GridManager, units: set<Character>): (w: World)
    reads gm, gm.grid, gm.tiles`occupant, units`gridX, units`gridZ, units`health, units`destroyed
    requires gm.Valid()
    ensures w.occ == gm.Occupants() && w.at.Keys == units && w.health.Keys == units && w.destroyed <= units
    ensures forall u | u in units :: w.at[u] == (u.gridX, u.gridZ) && w.health[u] == u.health && (u in w.destroyed <==> u.destroyed)
  {
    World(gm.Occupants(), PositionsOf(units), HealthOf(units), DestroyedOf(units))
  }

  /**
    While every tile names a unit of the battle or nobody, a tile reads occupied exactly when
    its cell is Occupied in the world: a destroyed occupant reads as none.
  */
  lemma OccupiedInWorld(gm: GridManager, units: set<Character>, x: int, z: int)
    requires gm.Valid() && gm.IsValidPosition(x, z) && OccupantsAreUnits(WorldOf(gm, units))
    ensures gm.GetTile(x, z).IsOccupied() <==> Occupied(WorldOf(gm, units), (x, z))
  {
    var occ := gm.Occupants();
    assert occ[(x, z)] == gm.grid[x, z].occupant;
  }

  /** Character.IsDead of a unit of the battle is Effects.DeadIn on the world. */
  lemma DeadInWorld(gm: GridManager, units: set<Character>, u: Character)
    requires gm.Valid() && u in units
    ensures u.IsDead() <==> DeadIn(WorldOf(gm, units), u)
  {
  }

  /** The heap invariant from its value form, in one state. */
  lemma BoardConsistentOf(gm: GridManager, units: set<Character>, occ: Occupancy, at: Positions, present: set<Character>)
    requires gm.Valid() && occ == gm.Occupants() && at == PositionsOf(units) && present == PresentOf(units)
    requires Consistent(occ, at, present)
    ensures BoardConsistent(gm, units)
  {
  }

  /** Values read off the heap are still current when the fields they come from agree with them. */
  lemma SnapshotStill(gm: GridManager, units: set<Character>, occ: Occupancy, at: Positions, present: set<Character>)
    requires gm.Valid() && occ.Keys == Cells(gm.gridSize) && at.Keys == units
    requires forall c | c in occ :: occ[c] == gm.grid[c.0, c.1].occupant
    requires forall u | u in units :: at[u] == (u.gridX, u.gridZ) && (u in present <==> !u.destroyed)
    requires present <= units
    ensures occ == gm.Occupants() && at == PositionsOf(units) && present == PresentOf(units)
  {
  }

  /** Under the invariant, a tile reads occupied exactly when its cell is not Free. */
  lemma OccupiedIsNotFree(gm: GridManager, units: set<Character>, x: int, z: int)
    requires gm.Valid() && BoardConsistent(gm, units) && gm.IsValidPosition(x, z)
    ensures gm.GetTile(x, z).IsOccupied() <==> !Free(gm.Occupants(), PresentOf(units), (x, z))
  {
    var occ := gm.Occupants();
    assert occ[(x, z)] == gm.grid[x, z].occupant;
  }

  /**
    A Move built with `new MoveCommand` records where its owner stands; onto a free tile it
    succeeds, and its Undo restores the battle exactly.
  */
  lemma NewMoveUndone(gm: GridManager, units: set<Character>, character: Character, x: int, z: int)
    requires gm.Valid() && character in units && !character.destroyed
    requires BoardConsistent(gm, units) && AllHealthy(units)
    requires gm.IsValidPosition(x, z) && gm.GetTile(x, z).occupant == null
    ensures Succeeds(NewMove(character, x, z), WorldOf(gm, units))
    ensures Revert(NewMove(character, x, z), Step(NewMove(character, x, z), WorldOf(gm, units))) == WorldOf(gm, units)
  {
    ConsistentWorld(gm, units);
    HealthyWorld(gm, units);
    var w := WorldOf(gm, units);
    assert w.occ[(x, z)] == null;
    StepRevertRoundTrip(NewMove(character, x, z), w);
  }

  /**
    An attack built with `new AttackCommand` on a living neighbour that survives the hit
    succeeds, and its Undo restores the battle exactly.
  */
  lemma NewAttackUndone(gm: GridManager, units: set<Character>, attacker: Character, target: Character, damage: int)
    requires gm.Valid() && attacker in units && target in units && AllHealthy(units)
    requires !target.IsDead() && Manhattan((attacker.gridX, attacker.gridZ), (target.gridX, target.gridZ)) <= 1
    requires 0 <= damage < target.health <= target.maxHealth
    ensures Succeeds(NewAttack(attacker, target, damage), WorldOf(gm, units))
    ensures Revert(NewAttack(attacker, target, damage), Step(NewAttack(attacker, target, damage), WorldOf(gm, units))) == WorldOf(gm, units)
  {
    HealthyWorld(gm, units);
    DeadInWorld(gm, units, target);
    StepRevertRoundTrip(NewAttack(attacker, target, damage), WorldOf(gm, units));
  }

  /**
    A heal built with `new HealCommand` always succeeds; its Undo restores the battle exactly
    when the heal stayed within the maximum.
  */
  lemma NewHealUndone(gm: GridManager, units: set<Character>, character: Character, amount: int)
    requires gm.Valid() && character in units && AllHealthy(units)
    requires 0 <= amount && character.health + amount <= character.maxHealth
    ensures Succeeds(NewHeal(character, amount), WorldOf(gm, units))
    ensures Revert(NewHeal(character, amount), Step(NewHeal(character, amount), WorldOf(gm, units))) == WorldOf(gm, units)
  {
    HealthyWorld(gm, units);
    StepRevertRoundTrip(NewHeal(character, amount), WorldOf(gm, units));
  }

  /** The success condition of each command, in the state before it executes. */
  ghost predicate CanExecute(cmd: Command, gm: GridManager)
    reads gm, gm.grid, gm.tiles`occupant, (set t | t in gm.tiles && t.occupant != null :: t.occupant)`destroyed
    reads cmd.owner`gridX, cmd.owner`gridZ
    reads (if cmd.Attack? then Opt(cmd.target) else {})`gridX, (if cmd.Attack? then Opt(cmd.target) else {})`gridZ
    reads (if cmd.Attack? then Opt(cmd.target) else {})`health, (if cmd.Attack? then Opt(cmd.target) else {})`destroyed
    requires gm.Valid()
  {
    match cmd
    case Move(_, tx, tz, _, _) => gm.IsValidPosition(tx, tz) && !gm.GetTile(tx, tz).IsOccupied()
    case Attack(owner, target, _) =>
      target != null && !target.IsDead() && Manhattan((owner.gridX, owner.gridZ), (target.gridX, target.gridZ)) <= 1
    case Heal(_, _) => true
  }

  /**
    MoveCommand.Execute.  Fails, changing nothing, when the target is off the grid or its
    tile is occupied (by the owner too); there is no distance limit.  On success the
    owner's current tile is cleared, the target tile names the owner and the owner's
    coordinates become the target.
  */
  method ExecuteMove(cmd: Command, gm: GridManager) returns (success: bool)
    requires cmd.Move? && gm.Valid()
    modifies gm.tiles`occupant, cmd.owner`gridX, cmd.owner`gridZ
    ensures success <==> gm.IsValidPosition(cmd.targetX, cmd.targetZ) &&
                         !old(gm.GetTile(cmd.targetX, cmd.targetZ).IsOccupied())
    ensures !success ==> gm.Occupants() == old(gm.Occupants()) &&
                         cmd.owner.gridX == old(cmd.owner.gridX) && cmd.owner.gridZ == old(cmd.owner.gridZ)
    ensures success ==> gm.Occupants() == MoveOccupancy(old(gm.Occupants()), cmd.owner,
                                                        old((cmd.owner.gridX, cmd.owner.gridZ)),
                                                        (cmd.targetX, cmd.targetZ))
    ensures success ==> cmd.owner.gridX == cmd.targetX && cmd.owner.gridZ == cmd.targetZ
  {
    var owner := cmd.owner;
    var targetTile := gm.GetTile(cmd.targetX, cmd.targetZ);
    var currentTile := gm.GetTile(owner.gridX, owner.gridZ);
    if targetTile == null || targetTile.IsOccupied() {
      return false;
    }
    if currentTile != null {
      SetOccupant(gm, currentTile, null);
    }
    SetOccupant(gm, targetTile, owner);
    owner.MoveTo(cmd.targetX, cmd.targetZ);
    success := true;
  }

  /** One tile's occupant assignment, seen on the occupancy map. */
  method SetOccupant(gm: GridManager, t: GridTile, v: Character?)
    requires gm.Valid() && t in gm.tiles
    modifies t`occupant
    ensures gm.Occupants() == old(gm.Occupants())[(t.x, t.z) := v]
  {
    ghost var occ := gm.Occupants();
    t.occupant := v;
    ghost var now, want := gm.Occupants(), occ[(t.x, t.z) := v];
    forall c | c in want
      ensures c in now && now[c] == want[c]
    {
      if c != (t.x, t.z) {
        assert gm.grid[c.0, c.1] != t;
      }
    }
    assert now == want;
  }

  /** A unit takes a cell's coordinates and becomes its tile's occupant; the units' destroyed flags stay. */
  method Relocate(gm: GridManager, u: Character, x: int, z: int, ghost units: set<Character>)
    requires gm.Valid() && gm.IsValidPosition(x, z) && u in units
    modifies gm.tiles`occupant, u`gridX, u`gridZ
    ensures gm.Occupants() == old(gm.Occupants())[(x, z) := u]
    ensures PositionsOf(units) == old(PositionsOf(units))[u := (x, z)]
    ensures PresentOf(units) == old(PresentOf(units))
  {
    MoveUnit(u, x, z, units);
    SetOccupant(gm, gm.grid[x, z], u);
  }

  /** MoveTo seen on the whole battle: one unit's coordinates change. */
  method MoveUnit(u: Character, x: int, z: int, ghost units: set<Character>)
    requires u in units
    modifies u`gridX, u`gridZ
    ensures PositionsOf(units) == old(PositionsOf(units))[u := (x, z)]
    ensures PresentOf(units) == old(PresentOf(units))
  {
    u.MoveTo(x, z);
  }

  /**
    MoveCommand.Undo, unconditionally: the target tile (if on the grid) is cleared, the
    previous tile (if on the grid) names the owner, and the owner's coordinates become the
    previous ones recorded at construction.
  */
  method UndoMove(cmd: Command, gm: GridManager)
    requires cmd.Move? && gm.Valid()
    modifies gm.tiles`occupant, cmd.owner`gridX, cmd.owner`gridZ
    ensures gm.Occupants() == UndoOccupancy(old(gm.Occupants()), cmd.owner,
                                            (cmd.targetX, cmd.targetZ), (cmd.previousX, cmd.previousZ))
    ensures cmd.owner.gridX == cmd.previousX && cmd.owner.gridZ == cmd.previousZ
  {
    var targetTile := gm.GetTile(cmd.targetX, cmd.targetZ);
    var previousTile := gm.GetTile(cmd.previousX, cmd.previousZ);
    if targetTile != null {
      SetOccupant(gm, targetTile, null);
    }
    if previousTile != null {
      SetOccupant(gm, previousTile, cmd.owner);
    }
    cmd.owner.MoveTo(cmd.previousX, cmd.previousZ);
  }

  /**
    AttackCommand.Execute.  Fails without damage when the target is missing (or destroyed),
    dead, or more than one step away (Manhattan distance 0 and 1 pass); otherwise the target
    takes the damage once.  Nothing but the target's health changes.
  */
  method ExecuteAttack(cmd: Command) returns (success: bool)
    requires cmd.Attack?
    modifies Opt(cmd.target)`health, Opt(cmd.target)`destroyed
    ensures success <==> cmd.target != null && !old(cmd.target.IsDead()) &&
                         Manhattan((cmd.owner.gridX, cmd.owner.gridZ), (cmd.target.gridX, cmd.target.gridZ)) <= 1
    ensures success ==> cmd.target.health == AfterDamage(old(cmd.target.health), cmd.damage, cmd.target.maxHealth) &&
                        cmd.target.destroyed == (cmd.target.health <= 0)
    ensures !success && cmd.target != null ==>
              cmd.target.health == old(cmd.target.health) && cmd.target.destroyed == old(cmd.target.destroyed)
  {
    var target := cmd.target;
    if target == null || target.destroyed || target.IsDead() {
      return false;
    }
    var distance := Abs(cmd.owner.gridX - target.gridX) + Abs(cmd.owner.gridZ - target.gridZ);
    if distance > 1 {
      return false;
    }
    target.TakeDamage(cmd.damage);
    success := true;
  }

  /** AttackCommand.Undo: heals the target by the damage whenever it is still there, even if Execute had failed. */
  method UndoAttack(cmd: Command)
    requires cmd.Attack?
    modifies Opt(cmd.target)`health
    ensures cmd.target != null && cmd.target.hasHealth && !cmd.target.destroyed ==>
              cmd.target.health == AfterHeal(old(cmd.target.health), cmd.damage, cmd.target.maxHealth)
    ensures cmd.target != null && !(cmd.target.hasHealth && !cmd.target.destroyed) ==>
              cmd.target.health == old(cmd.target.health)
  {
    var target := cmd.target;
    if target != null && !target.destroyed {
      target.Heal(cmd.damage);
    }
  }

  /** HealCommand.Execute: always succeeds and heals only the owner. */
  method ExecuteHeal(cmd: Command) returns (success: bool)
    requires cmd.Heal?
    modifies cmd.owner`health
    ensures success
    ensures cmd.owner.hasHealth && !cmd.owner.destroyed ==>
              cmd.owner.health == AfterHeal(old(cmd.owner.health), cmd.healAmount, cmd.owner.maxHealth)
    ensures !(cmd.owner.hasHealth && !cmd.owner.destroyed) ==> cmd.owner.health == old(cmd.owner.health)
  {
    cmd.owner.Heal(cmd.healAmount);
    success := true;
  }

  /** HealCommand.Undo: the owner takes the heal amount as damage. */
  method UndoHeal(cmd: Command)
    requires cmd.Heal?
    modifies cmd.owner`health, cmd.owner`destroyed
    ensures cmd.owner.hasHealth && !old(cmd.owner.destroyed) ==>
              cmd.owner.health == AfterDamage(old(cmd.owner.health), cmd.healAmount, cmd.owner.maxHealth) &&
              cmd.owner.destroyed == (cmd.owner.health <= 0)
    ensures !(cmd.owner.hasHealth && !old(cmd.owner.destroyed)) ==>
              cmd.owner.health == old(cmd.owner.health) && cmd.owner.destroyed == old(cmd.owner.destroyed)
  {
    cmd.owner.TakeDamage(cmd.healAmount);
  }

  /**
    The shape of command a unit's queue holds in a battle: owned by that unit, attacking
    another unit of the battle (or nobody), with non-negative damage and healing.
  */
  predicate WellFormedCommand(cmd: Command, holder: Character, units: set<Character>)
  {
    && cmd.owner == holder
    && match cmd
       case Move(_, _, _, _, _) => true
       case Attack(_, target, damage) => damage >= 0 && (target == null || (target in units && target != holder))
       case Heal(_, amount) => amount >= 0
  }

  /** Every command of `q` is well-formed for `holder`. */
  predicate WellFormedQueue(q: seq<Command>, holder: Character, units: set<Character>)
  {
    forall i :: 0 <= i < |q| ==> WellFormedCommand(q[i], holder, units)
  }

  /** `holder`'s own queue is well-formed. */
  ghost predicate QueueWellFormed(holder: Character, units: set<Character>)
    reads holder`commandQueue
  {
    WellFormedQueue(holder.commandQueue, holder, units)
  }

  /** The health invariant of every unit. */
  ghost predicate AllHealthy(units: set<Character>)
    reads units`health, units`destroyed
  {
    forall u :: u in units ==> u.HealthInvariant()
  }

  /**
    ICommand.Execute, dispatched on the variant.  It succeeds exactly when CanExecute held,
    and the new battle is the Outcome of the command on the old one: its Effect when it
    succeeded, nothing otherwise.  While every tile names a unit of the battle, success is
    Effects.Succeeds, so the new battle is Effects.Step of the old.
  */
  method Execute(cmd: Command, gm: GridManager, ghost units: set<Character>) returns (success: bool)
    requires gm.Valid() && WellFormedCommand(cmd, cmd.owner, units) && cmd.owner in units
    modifies gm.tiles`occupant, units`gridX, units`gridZ, units`health, units`destroyed
    ensures success == old(CanExecute(cmd, gm))
    ensures WorldOf(gm, units) == Outcome(cmd, old(WorldOf(gm, units)), success)
    ensures old(OccupantsAreUnits(WorldOf(gm, units))) ==> success == Succeeds(cmd, old(WorldOf(gm, units)))
  {
    match cmd
    case Move(_, _, _, _, _) => success := MoveWithin(cmd, gm, units);
    case Attack(_, _, _) => success := AttackWithin(cmd, gm, units);
    case Heal(_, _) => success := HealWithin(cmd, gm, units);
  }

  /** BoardConsistent is WorldConsistent of the world, which implies that every tile names a unit of the battle. */
  lemma ConsistentWorld(gm: GridManager, units: set<Character>)
    requires gm.Valid()
    ensures BoardConsistent(gm, units) <==> WorldConsistent(WorldOf(gm, units))
    ensures WorldConsistent(WorldOf(gm, units)) ==> OccupantsAreUnits(WorldOf(gm, units))
  {
    assert PresentOf(units) == units - DestroyedOf(units);
  }

  /** AllHealthy is Effects.Healthy of the world. */
  lemma HealthyWorld(gm: GridManager, units: set<Character>)
    requires gm.Valid()
    ensures AllHealthy(units) <==> Healthy(WorldOf(gm, units))
  {
  }

  /** ExecuteMove seen on the whole battle. */
  method MoveWithin(cmd: Command, gm: GridManager, ghost units: set<Character>) returns (success: bool)
    requires cmd.Move? && gm.Valid() && cmd.owner in units
    modifies gm.tiles`occupant, cmd.owner`gridX, cmd.owner`gridZ
    ensures success == old(CanExecute(cmd, gm))
    ensures WorldOf(gm, units) == Outcome(cmd, old(WorldOf(gm, units)), success)
    ensures old(OccupantsAreUnits(WorldOf(gm, units))) ==> success == Succeeds(cmd, old(WorldOf(gm, units)))
  {
    ghost var w0 := WorldOf(gm, units);
    ghost var to := (cmd.targetX, cmd.targetZ);
    if OccupantsAreUnits(w0) && gm.IsValidPosition(to.0, to.1) {
      OccupiedInWorld(gm, units, to.0, to.1);
    }
    success := ExecuteMove(cmd, gm);
    MovedWorld(gm, units, cmd, w0, success);
  }

  /** The world after a Move, assembled from the parts ExecuteMove changed. */
  lemma MovedWorld(gm: GridManager, units: set<Character>, cmd: Command, w0: World, success: bool)
    requires gm.Valid() && cmd.Move? && cmd.owner in units
    requires w0.at.Keys == units && w0.health.Keys == units && w0.destroyed <= units
    requires forall u | u in units :: u.health == w0.health[u] && (u.destroyed <==> u in w0.destroyed)
    requires forall u | u in units && u != cmd.owner :: (u.gridX, u.gridZ) == w0.at[u]
    requires success ==> (cmd.targetX, cmd.targetZ) in w0.occ
    requires success ==> gm.Occupants() == MoveOccupancy(w0.occ, cmd.owner, w0.at[cmd.owner], (cmd.targetX, cmd.targetZ)) &&
                         (cmd.owner.gridX, cmd.owner.gridZ) == (cmd.targetX, cmd.targetZ)
    requires !success ==> gm.Occupants() == w0.occ && (cmd.owner.gridX, cmd.owner.gridZ) == w0.at[cmd.owner]
    ensures WorldOf(gm, units) == Outcome(cmd, w0, success)
  {
    assert HealthOf(units) == w0.health;
    assert DestroyedOf(units) == w0.destroyed;
    assert PositionsOf(units) == if success then w0.at[cmd.owner := (cmd.targetX, cmd.targetZ)] else w0.at;
  }

  /** ExecuteAttack seen on the whole battle; its success is Succeeds whoever stands on the tiles. */
  method AttackWithin(cmd: Command, gm: GridManager, ghost units: set<Character>) returns (success: bool)
    requires cmd.Attack? && gm.Valid() && WellFormedCommand(cmd, cmd.owner, units) && cmd.owner in units
    modifies Opt(cmd.target)`health, Opt(cmd.target)`destroyed
    ensures success == old(CanExecute(cmd, gm))
    ensures WorldOf(gm, units) == Outcome(cmd, old(WorldOf(gm, units)), success)
    ensures success == Succeeds(cmd, old(WorldOf(gm, units)))
  {
    ghost var w0 := WorldOf(gm, units);
    success := ExecuteAttack(cmd);
    HurtWorld(gm, units, cmd, w0, success);
  }

  /** The world after an Attack, assembled from the target's new health and flag. */
  lemma HurtWorld(gm: GridManager, units: set<Character>, cmd: Command, w0: World, success: bool)
    requires gm.Valid() && cmd.Attack? && cmd.owner in units && (cmd.target != null ==> cmd.target in units)
    requires w0.occ == gm.Occupants() && w0.at.Keys == units && w0.health.Keys == units && w0.destroyed <= units
    requires forall u | u in units :: w0.at[u] == (u.gridX, u.gridZ)
    requires forall u | u in units && u != cmd.target :: u.health == w0.health[u] && (u.destroyed <==> u in w0.destroyed)
    requires cmd.target == null ==> !success
    requires cmd.target != null ==>
               success == (!DeadIn(w0, cmd.target) && Manhattan(w0.at[cmd.owner], w0.at[cmd.target]) <= 1)
    requires success ==> cmd.target.health == AfterDamage(w0.health[cmd.target], cmd.damage, cmd.target.maxHealth) &&
                         cmd.target.destroyed == (cmd.target.health <= 0)
    requires !success && cmd.target != null ==>
               cmd.target.health == w0.health[cmd.target] && (cmd.target.destroyed <==> cmd.target in w0.destroyed)
    ensures success == Succeeds(cmd, w0) && WorldOf(gm, units) == Outcome(cmd, w0, success)
  {
    var t := cmd.target;
    assert PositionsOf(units) == w0.at;
    if success {
      assert HealthOf(units) == w0.health[t := t.health];
      assert DestroyedOf(units) == if t.health <= 0 then w0.destroyed + {t} else w0.destroyed;
    } else {
      assert HealthOf(units) == w0.health;
      assert DestroyedOf(units) == w0.destroyed;
    }
  }

  /** ExecuteHeal seen on the whole battle; it always succeeds. */
  method HealWithin(cmd: Command, gm: GridManager, ghost units: set<Character>) returns (success: bool)
    requires cmd.Heal? && gm.Valid() && cmd.owner in units
    modifies cmd.owner`health
    ensures success == old(CanExecute(cmd, gm))
    ensures WorldOf(gm, units) == Outcome(cmd, old(WorldOf(gm, units)), success)
    ensures success == Succeeds(cmd, old(WorldOf(gm, units)))
  {
    ghost var w0 := WorldOf(gm, units);
    success := ExecuteHeal(cmd);
    HealedWorld(gm, units, cmd, w0);
  }

  /** The world after a Heal, assembled from the owner's new health. */
  lemma HealedWorld(gm: GridManager, units: set<Character>, cmd: Command, w0: World)
    requires gm.Valid() && cmd.Heal? && cmd.owner in units
    requires w0.occ == gm.Occupants() && w0.at.Keys == units && w0.health.Keys == units && w0.destroyed <= units
    requires forall u | u in units :: w0.at[u] == (u.gridX, u.gridZ) && (u.destroyed <==> u in w0.destroyed)
    requires forall u | u in units && u != cmd.owner :: u.health == w0.health[u]
    requires cmd.owner.hasHealth && !cmd.owner.destroyed ==>
               cmd.owner.health == AfterHeal(w0.health[cmd.owner], cmd.healAmount, cmd.owner.maxHealth)
    requires !(cmd.owner.hasHealth && !cmd.owner.destroyed) ==> cmd.owner.health == w0.health[cmd.owner]
    ensures Succeeds(cmd, w0) && WorldOf(gm, units) == Outcome(cmd, w0, true)
  {
    var o := cmd.owner;
    assert PositionsOf(units) == w0.at;
    assert DestroyedOf(units) == w0.destroyed;
    assert HealthOf(units) == if o.hasHealth && !o.destroyed then w0.health[o := o.health] else w0.health;
  }

  /**
    Character.ExecuteCommands: every queued command is executed once, in FIFO order, on the
    battle the previous ones left, and a failure does not stop the rest; then the queue is
    emptied (without a notice) and the action points refilled.  While every tile names a
    unit of the battle, the battle ends as Effects.RunAll of the old queue on the old battle.
  */
  method ExecuteCommands(unit: Character, gm: GridManager, ghost units: set<Character>)
    requires gm.Valid() && unit in units && QueueWellFormed(unit, units)
    modifies gm.tiles`occupant, units`gridX, units`gridZ, units`health, units`destroyed
    modifies unit`commandQueue, unit`currentActionPoints
    ensures old(OccupantsAreUnits(WorldOf(gm, units))) ==>
              WorldOf(gm, units) == RunAll(old(unit.commandQueue), old(WorldOf(gm, units)))
    ensures unit.commandQueue == [] && unit.currentActionPoints == unit.maxActionPoints
  {
    ghost var w0 := WorldOf(gm, units);
    ghost var known := OccupantsAreUnits(w0);
    var queue := unit.commandQueue;
    for i := 0 to |queue|
      invariant known ==> WorldOf(gm, units) == RunAll(queue[..i], w0)
    {
      var success := Execute(queue[i], gm, units);
      if known {
        assert queue[..i + 1][..i] == queue[..i];
      }
    }
    assert queue[..|queue|] == queue;
    Refill(unit, gm, units);
  }

  /** The end of ExecuteCommands: the queue is emptied and the action points refilled; the battle is untouched. */
  method Refill(unit: Character, gm: GridManager, ghost units: set<Character>)
    requires gm.Valid()
    modifies unit`commandQueue, unit`currentActionPoints
    ensures unit.commandQueue == [] && unit.currentActionPoints == unit.maxActionPoints
    ensures WorldOf(gm, units) == old(WorldOf(gm, units))
  {
    unit.commandQueue := [];
    unit.currentActionPoints := unit.maxActionPoints;
  }
}
