/**
  What commands do, on values.  A `World` is the part of the battle commands act on: the
  tiles' occupants, each unit's coordinates and health, and the units destroyed so far
  (`at` and `health` are keyed by the units of the battle).  `Step` is the effect of one
  Execute, `RunAll` of executing a queue in order, `Revert` of one Undo.  The methods of
  Commands are proved to have exactly these effects on the heap.
*/
module Effects {
  import opened Units
  import opened Grid
  import opened Board

  datatype World = World(occ: Occupancy, at: Positions, health: map<Character, int>, destroyed: set<Character>)

  /** Every tile names a unit of the battle or nobody. */
  predicate OccupantsAreUnits(w: World)
  {
    forall c | c in w.occ && w.occ[c] != null :: w.occ[c] in w.at
  }

  /** GridTile.IsOccupied on values: a destroyed occupant reads as none. */
  predicate Occupied(w: World, c: Cell)
    requires c in w.occ
  {
    w.occ[c] != null && w.occ[c] !in w.destroyed
  }

  /** Character.IsDead on values; a unit outside the battle counts as dead. */
  predicate DeadIn(w: World, u: Character)
  {
    !u.hasHealth || u in w.destroyed || u !in w.health || w.health[u] <= 0
  }

  /** The health invariant of every unit: a positive maximum, and health run out means destroyed. */
  predicate Healthy(w: World)
  {
    forall u | u in w.health :: u.maxHealth > 0 && (u.hasHealth && w.health[u] <= 0 ==> u in w.destroyed)
  }

  /** Character.TakeDamage: ignored without health or once destroyed; health run out destroys the unit. */
  function Hurt(w: World, u: Character, amount: int): World
    requires u in w.health
  {
    if !u.hasHealth || u in w.destroyed then w
    else
      var h := AfterDamage(w.health[u], amount, u.maxHealth);
      w.(health := w.health[u := h], destroyed := if h <= 0 then w.destroyed + {u} else w.destroyed)
  }

  /** Character.Heal: ignored without health or once destroyed. */
  function Healed(w: World, u: Character, amount: int): World
    requires u in w.health
  {
    if !u.hasHealth || u in w.destroyed then w
    else w.(health := w.health[u := AfterHeal(w.health[u], amount, u.maxHealth)])
  }

  /**
    When each command's Execute succeeds: a Move needs a target cell on the grid whose tile
    is not occupied; an Attack needs a living target at Manhattan distance at most 1; a Heal
    always succeeds.
  */
  predicate Succeeds(cmd: Command, w: World)
  {
    match cmd
    case Move(owner, tx, tz, _, _) => owner in w.at && (tx, tz) in w.occ && !Occupied(w, (tx, tz))
    case Attack(owner, target, _) =>
      owner in w.at && target != null && target in w.at && !DeadIn(w, target) &&
      Manhattan(w.at[owner], w.at[target]) <= 1
    case Heal(owner, _) => owner in w.health
  }

  /** What a command does when its Execute succeeds. */
  function Effect(cmd: Command, w: World): (r: World)
    ensures r.occ.Keys == w.occ.Keys && r.at.Keys == w.at.Keys && r.health.Keys == w.health.Keys
    ensures OccupantsAreUnits(w) ==> OccupantsAreUnits(r)
  {
    match cmd
    case Move(owner, tx, tz, _, _) =>
      if owner in w.at && (tx, tz) in w.occ then
        w.(occ := MoveOccupancy(w.occ, owner, w.at[owner], (tx, tz)), at := w.at[owner := (tx, tz)])
      else w
    case Attack(_, target, damage) => if target != null && target in w.health then Hurt(w, target, damage) else w
    case Heal(owner, amount) => if owner in w.health then Healed(w, owner, amount) else w
  }

  /** One Execute whose success is `ok`: a failed command changes nothing. */
  function Outcome(cmd: Command, w: World, ok: bool): World
  {
    if ok then Effect(cmd, w) else w
  }

  /** One Execute, succeeding exactly when Succeeds holds. */
  function Step(cmd: Command, w: World): (r: World)
    ensures r.occ.Keys == w.occ.Keys && r.at.Keys == w.at.Keys && r.health.Keys == w.health.Keys
    ensures OccupantsAreUnits(w) ==> OccupantsAreUnits(r)
  {
    Outcome(cmd, w, Succeeds(cmd, w))
  }

  /**
    Whether or not it succeeds, a command never brings a destroyed unit back and destroys no
    unit but the target of an attack.
  */
  lemma OutcomeKeepsDestroyed(cmd: Command, w: World, ok: bool, u: Character)
    ensures w.destroyed <= Outcome(cmd, w, ok).destroyed
    ensures u !in w.destroyed && !(cmd.Attack? && cmd.target == u) ==> u !in Outcome(cmd, w, ok).destroyed
  {
  }

  /**
    Whether or not it succeeds, a command with a non-negative heal amount keeps the health
    invariant and leaves every dead unit dead.
  */
  lemma OutcomeKeepsHealthy(cmd: Command, w: World, ok: bool, u: Character)
    requires Healthy(w) && (cmd.Heal? ==> cmd.healAmount >= 0)
    ensures Healthy(Outcome(cmd, w, ok))
    ensures DeadIn(w, u) ==> DeadIn(Outcome(cmd, w, ok), u)
  {
  }

  /** The tile<->unit invariant of a world: Board.Consistent, with every unit not destroyed present. */
  predicate WorldConsistent(w: World)
  {
    Consistent(w.occ, w.at, w.at.Keys - w.destroyed)
  }

  /**
    Every command keeps the tile<->unit invariant, as long as its owner is still on the
    battlefield: a Move lands only on a cell no present unit holds, and an Attack can only
    take a unit off the battlefield.
  */
  lemma StepKeepsConsistent(cmd: Command, w: World)
    requires WorldConsistent(w) && cmd.owner !in w.destroyed
    ensures WorldConsistent(Step(cmd, w))
  {
    var present := w.at.Keys - w.destroyed;
    if Succeeds(cmd, w) {
      match cmd
      case Move(owner, tx, tz, _, _) =>
        MovePreservesConsistency(w.occ, w.at, present, owner, (tx, tz));
      case Attack(_, target, damage) =>
        RemovalPreservesConsistency(w.occ, w.at, present, Step(cmd, w).at.Keys - Step(cmd, w).destroyed);
      case Heal(_, _) =>
    }
  }

  /** A queue executed front to back, each command on the world the previous ones left. */
  function RunAll(q: seq<Command>, w: World): (r: World)
    ensures r.occ.Keys == w.occ.Keys && r.at.Keys == w.at.Keys && r.health.Keys == w.health.Keys
    ensures OccupantsAreUnits(w) ==> OccupantsAreUnits(r)
    decreases |q|
  {
    if q == [] then w else Step(q[|q| - 1], RunAll(q[..|q| - 1], w))
  }

  /** Running two queues one after the other is running their concatenation. */
  lemma {:induction false} RunAllAppend(a: seq<Command>, b: seq<Command>, w: World)
    ensures RunAll(a + b, w) == RunAll(b, RunAll(a, w))
    decreases |b|
  {
    if b == [] {
      assert a + b == a;
    } else {
      assert (a + b)[..|a + b| - 1] == a + b[..|b| - 1];
      RunAllAppend(a, b[..|b| - 1], w);
    }
  }

  /**
    One Undo, unconditional: a Move clears its target and puts the owner back on the cell
    recorded at construction; an Attack heals its target by the damage; a Heal deals the
    heal amount to its owner as damage.
  */
  function Revert(cmd: Command, w: World): World
  {
    match cmd
    case Move(owner, tx, tz, px, pz) =>
      if owner in w.at then w.(occ := UndoOccupancy(w.occ, owner, (tx, tz), (px, pz)), at := w.at[owner := (px, pz)])
      else w
    case Attack(_, target, damage) => if target != null && target in w.health then Healed(w, target, damage) else w
    case Heal(owner, amount) => if owner in w.health then Hurt(w, owner, amount) else w
  }

  /**
    Execute then Undo restores the world when the Execute succeeded and nothing was
    clipped: a Move built where its owner stands, onto an empty tile; an Attack that leaves
    its target alive; a Heal that stays within the maximum.
  */
  lemma StepRevertRoundTrip(cmd: Command, w: World)
    requires Succeeds(cmd, w) && Healthy(w)
    requires cmd.Move? ==>
               && w.at[cmd.owner] == (cmd.previousX, cmd.previousZ)
               && w.occ[(cmd.targetX, cmd.targetZ)] == null
               && ((cmd.previousX, cmd.previousZ) in w.occ ==> w.occ[(cmd.previousX, cmd.previousZ)] == cmd.owner)
    requires cmd.Attack? ==> 0 <= cmd.damage < w.health[cmd.target] <= cmd.target.maxHealth
    requires cmd.Heal? ==> 0 <= cmd.healAmount && w.health[cmd.owner] + cmd.healAmount <= cmd.owner.maxHealth
    ensures Revert(cmd, Step(cmd, w)) == w
  {
    match cmd
    case Move(owner, tx, tz, px, pz) =>
      MoveUndoRoundTrip(w.occ, w.at, owner, (px, pz), (tx, tz));
    case Attack(_, target, damage) =>
      var h := w.health[target];
      assert w.health[target := h - damage][target := h] == w.health;
    case Heal(owner, amount) =>
      if owner.hasHealth && owner !in w.destroyed {
        var h := w.health[owner];
        assert w.health[owner := h + amount][owner := h] == w.health;
      }
  }

  /** A whole queue brings no dead unit back and, with non-negative heal amounts, keeps the health invariant. */
  lemma {:induction false} RunAllKeepsDead(q: seq<Command>, w: World, u: Character)
    requires Healthy(w) && forall i :: 0 <= i < |q| && q[i].Heal? ==> q[i].healAmount >= 0
    ensures Healthy(RunAll(q, w))
    ensures DeadIn(w, u) ==> DeadIn(RunAll(q, w), u)
    decreases |q|
  {
    if q != [] {
      var last, before := q[|q| - 1], RunAll(q[..|q| - 1], w);
      RunAllKeepsDead(q[..|q| - 1], w, u);
      OutcomeKeepsHealthy(last, before, Succeeds(last, before), u);
    }
  }

  /**
    A queue of one unit's commands, none of them attacking that unit, keeps the tile<->unit
    invariant as long as the unit starts on the battlefield, and it stays there.
  */
  lemma {:induction false} RunAllKeepsConsistent(q: seq<Command>, w: World, unit: Character)
    requires WorldConsistent(w) && unit !in w.destroyed
    requires forall i :: 0 <= i < |q| ==> q[i].owner == unit && !(q[i].Attack? && q[i].target == unit)
    ensures WorldConsistent(RunAll(q, w)) && unit !in RunAll(q, w).destroyed
    decreases |q|
  {
    if q != [] {
      var last, before := q[|q| - 1], RunAll(q[..|q| - 1], w);
      RunAllKeepsConsistent(q[..|q| - 1], w, unit);
      StepKeepsConsistent(last, before);
      OutcomeKeepsDestroyed(last, before, Succeeds(last, before), unit);
    }
  }

  /** A whole queue never brings a destroyed unit back. */
  lemma {:induction false} RunAllKeepsDestroyed(q: seq<Command>, w: World)
    ensures w.destroyed <= RunAll(q, w).destroyed
    decreases |q|
  {
    if q != [] {
      var last, before := q[|q| - 1], RunAll(q[..|q| - 1], w);
      RunAllKeepsDestroyed(q[..|q| - 1], w);
      OutcomeKeepsDestroyed(last, before, Succeeds(last, before), last.owner);
    }
  }
}
