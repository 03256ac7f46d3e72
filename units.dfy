/** A minimal Option type, used for "no value" results. */
module Wrappers {
  datatype Option<T> = None | Some(value: T)
}

/**
  Units and the commands they queue.

  `Character` is a unit on the battlefield: its team, its grid coordinates, its
  action-point budget, its FIFO queue of not-yet-executed commands and an
  abstract health value.  `Command` is the shared command contract (`ICommand`)
  written as a closed variant over the three implementations.  The two live in
  one module because a unit's queue holds commands and every command names the
  unit that owns it.
*/
module Units {

  /** The notifications a unit raises when its queue changes (OnCommandAdded, OnCommandRemoved). */
  datatype QueueEvent = CommandAdded | CommandRemoved

  /** Damage an enemy's planned attack deals, and the attack constructor's default. */
  const DefaultAttackDamage: int := 10

  /**
    The three commands.  Every variant has an `owner` (the `Character` property of
    the interface); a Move remembers the owner's coordinates at the time it was
    constructed; an Attack names its target (possibly none) and its damage.
  */
  datatype Command =
    | Move(owner: Character, targetX: int, targetZ: int, previousX: int, previousZ: int)
    | Attack(owner: Character, target: Character?, damage: int)
    | Heal(owner: Character, healAmount: int)
  {
    /** The fixed cost each implementation declares. */
    function ActionPointCost(): int {
      match this
      case Move(_, _, _, _, _) => 1
      case Attack(_, _, _) => 1
      case Heal(_, _) => 1
    }

    /** The name each implementation reports. */
    function CommandName(): string {
      match this
      case Move(_, _, _, _, _) => "Move"
      case Attack(_, _, _) => "Attack"
      case Heal(_, _) => "Heal"
    }
  }

  /** `new MoveCommand(character, targetX, targetZ, grid)`: the previous position is read now. */
  function NewMove(character: Character, targetX: int, targetZ: int): (cmd: Command)
    reads character`gridX, character`gridZ
  {
    Move(character, targetX, targetZ, character.gridX, character.gridZ)
  }

  /** `new AttackCommand(attacker, target, damage = 10)`. */
  function NewAttack(attacker: Character, target: Character?, damage: int := DefaultAttackDamage): Command {
    Attack(attacker, target, damage)
  }

  /** `new HealCommand(character, healAmount)`. */
  function NewHeal(character: Character, healAmount: int): Command {
    Heal(character, healAmount)
  }

  lemma CommandNamesIdentifyVariants(a: Command, b: Command)
    ensures a.CommandName() == b.CommandName() <==>
            (a.Move? && b.Move?) || (a.Attack? && b.Attack?) || (a.Heal? && b.Heal?)
  {
  }

  lemma EveryCommandCostsOne(c: Command)
    ensures c.ActionPointCost() == 1
    ensures NewAttack(c.owner, null).damage == DefaultAttackDamage == 10
  {
  }

  /** The sum of the action-point costs of a queue (the foreach in GetQueuedActionPointCost). */
  function SumCosts(q: seq<Command>): int
  {
    if q == [] then 0 else SumCosts(q[..|q| - 1]) + q[|q| - 1].ActionPointCost()
  }

  lemma {:induction false} SumCostsIsLength(q: seq<Command>)
    ensures SumCosts(q) == |q|
  {
    if q != [] {
      SumCostsIsLength(q[..|q| - 1]);
    }
  }

  lemma SumCostsAppend(q: seq<Command>, c: Command)
    ensures SumCosts(q + [c]) == SumCosts(q) + c.ActionPointCost()
  {
    assert (q + [c])[..|q|] == q;
  }

  /** Removing the command at position i takes exactly its cost off the total. */
  lemma SumCostsRemoveAt(q: seq<Command>, i: int)
    requires 0 <= i < |q|
    ensures SumCosts(q[..i] + q[i + 1..]) == SumCosts(q) - q[i].ActionPointCost()
  {
    SumCostsIsLength(q);
    SumCostsIsLength(q[..i] + q[i + 1..]);
  }

  /** Health is kept in [0, maxHealth]. */
  function Clamp(v: int, hi: int): int {
    if v < 0 then 0 else if v > hi then hi else v
  }

  /**
    Health after `ApplyDamage(damage)` (the health component clamps to [0, max]): a lethal
    hit leaves exactly zero, so the damage cannot be undone by a heal.
  */
  function AfterDamage(health: int, damage: int, maxHealth: int): (h: int)
    ensures 0 <= maxHealth ==> 0 <= h <= maxHealth
    ensures 0 <= maxHealth && health <= damage ==> h == 0
    ensures 0 < health - damage <= maxHealth ==> h == health - damage
  {
    Clamp(health - damage, maxHealth)
  }

  /** Health after `AddHealth(amount)`. */
  function AfterHeal(health: int, amount: int, maxHealth: int): int {
    Clamp(health + amount, maxHealth)
  }

  /** Damage followed by the same amount of healing restores health unless a bound clipped it. */
  lemma DamageThenHealRestores(health: int, amount: int, maxHealth: int)
    requires 0 <= amount < health <= maxHealth
    ensures AfterHeal(AfterDamage(health, amount, maxHealth), amount, maxHealth) == health
  {
  }

  class Character {
    const maxActionPoints: nat
    const isPlayerControlled: bool
    /** Whether a health component is attached (IsDead is true without one). */
    const hasHealth: bool
    const maxHealth: int
    /** Whether an enemy-AI component is attached (the turn loop plans only for those). */
    const hasAI: bool

    var gridX: int
    var gridZ: int
    var currentActionPoints: int
    var commandQueue: seq<Command>
    var health: int
    /** The game object was destroyed; an engine null check then reads it as null. */
    var destroyed: bool
    var notifications: seq<QueueEvent>

    /** Awake + Start: full health, full action points, empty queue. */
    constructor (maxActionPoints: nat, isPlayerControlled: bool, hasHealth: bool, maxHealth: int, hasAI: bool)
      requires maxHealth > 0
      ensures this.maxActionPoints == maxActionPoints && this.isPlayerControlled == isPlayerControlled
      ensures this.hasHealth == hasHealth && this.maxHealth == maxHealth && this.hasAI == hasAI
      ensures gridX == 0 && gridZ == 0 && health == maxHealth && !destroyed
      ensures commandQueue == [] && notifications == [] && currentActionPoints == maxActionPoints
      ensures HealthInvariant() && WithinBudget()
    {
      this.maxActionPoints := maxActionPoints;
      this.isPlayerControlled := isPlayerControlled;
      this.hasHealth := hasHealth;
      this.maxHealth := maxHealth;
      this.hasAI := hasAI;
      gridX, gridZ := 0, 0;
      currentActionPoints := maxActionPoints;
      commandQueue := [];
      health := maxHealth;
      destroyed := false;
      notifications := [];
    }

    /** A positive maximum, and a unit whose health has run out has been destroyed. */
    ghost predicate HealthInvariant()
      reads `health, `destroyed
    {
      maxHealth > 0 && (hasHealth && health <= 0 ==> destroyed)
    }

    /** The budget invariant: the queued costs never exceed the maximum. */
    predicate WithinBudget()
      reads `commandQueue
    {
      SumCosts(commandQueue) <= maxActionPoints
    }

    predicate IsAlive()
      reads `health
    {
      health > 0
    }

    predicate IsDead()
      reads `health, `destroyed
    {
      !hasHealth || destroyed || !IsAlive()
    }

    /** Whether `command` fits into the remaining budget. */
    predicate Affordable(command: Command)
      reads `commandQueue
    {
      SumCosts(commandQueue) + command.ActionPointCost() <= maxActionPoints
    }

    /** InitializePosition and MoveTo: set the coordinates, no validation. */
    method MoveTo(x: int, z: int)
      modifies `gridX, `gridZ
      ensures gridX == x && gridZ == z
    {
      gridX, gridZ := x, z;
    }

    /** Forwarded to the health component; a unit left without health is destroyed. */
    method TakeDamage(damage: int)
      modifies `health, `destroyed
      ensures hasHealth && !old(destroyed) ==>
                health == AfterDamage(old(health), damage, maxHealth) && destroyed == (health <= 0)
      ensures !(hasHealth && !old(destroyed)) ==> health == old(health) && destroyed == old(destroyed)
      ensures old(HealthInvariant()) ==> HealthInvariant()
    {
      if hasHealth && !destroyed {
        health := AfterDamage(health, damage, maxHealth);
        if !IsAlive() {
          destroyed := true;
        }
      }
    }

    /** Forwarded to the health component, which an engine null check finds absent once destroyed. */
    method Heal(amount: int)
      modifies `health
      ensures hasHealth && !destroyed ==> health == AfterHeal(old(health), amount, maxHealth)
      ensures !(hasHealth && !destroyed) ==> health == old(health)
      ensures old(HealthInvariant()) && amount >= 0 ==> HealthInvariant()
    {
      if hasHealth && !destroyed {
        health := AfterHeal(health, amount, maxHealth);
      }
    }

    /** The foreach over the queue summing the costs. */
    method GetQueuedActionPointCost() returns (total: int)
      ensures total == SumCosts(commandQueue)
      ensures total == |commandQueue|
    {
      total := 0;
      for i := 0 to |commandQueue|
        invariant total == SumCosts(commandQueue[..i])
      {
        assert commandQueue[..i + 1][..i] == commandQueue[..i];
        total := total + commandQueue[i].ActionPointCost();
      }
      assert commandQueue[..|commandQueue|] == commandQueue;
      SumCostsIsLength(commandQueue);
    }

    method CanAddCommand(command: Command) returns (ok: bool)
      ensures ok <==> Affordable(command)
      ensures ok <==> |commandQueue| + 1 <= maxActionPoints
    {
      var queued := GetQueuedActionPointCost();
      ok := queued + command.ActionPointCost() <= maxActionPoints;
    }

    /** Appends and notifies only when the command fits the budget; otherwise nothing happens. */
    method AddCommand(command: Command)
      modifies `commandQueue, `notifications
      ensures old(Affordable(command)) ==>
                commandQueue == old(commandQueue) + [command] && notifications == old(notifications) + [CommandAdded]
      ensures !old(Affordable(command)) ==>
                commandQueue == old(commandQueue) && notifications == old(notifications)
      ensures old(WithinBudget()) ==> WithinBudget()
    {
      var ok := CanAddCommand(command);
      if ok {
        SumCostsAppend(commandQueue, command);
        commandQueue := commandQueue + [command];
        notifications := notifications + [CommandAdded];
      }
    }

    /** Removes exactly the element at index, keeping the order of the others; other indices are ignored. */
    method RemoveCommand(index: int)
      modifies `commandQueue, `notifications
      ensures 0 <= index < |old(commandQueue)| ==>
                commandQueue == old(commandQueue[..index] + commandQueue[index + 1..]) &&
                notifications == old(notifications) + [CommandRemoved]
      ensures !(0 <= index < |old(commandQueue)|) ==>
                commandQueue == old(commandQueue) && notifications == old(notifications)
      ensures old(WithinBudget()) ==> WithinBudget()
    {
      if 0 <= index < |commandQueue| {
        SumCostsRemoveAt(commandQueue, index);
        commandQueue := commandQueue[..index] + commandQueue[index + 1..];
        notifications := notifications + [CommandRemoved];
      }
    }

    /** Empties the queue and notifies, even when it was already empty. */
    method ClearCommands()
      modifies `commandQueue, `notifications
      ensures commandQueue == [] && notifications == old(notifications) + [CommandRemoved]
      ensures WithinBudget()
    {
      commandQueue := [];
      notifications := notifications + [CommandRemoved];
    }

    method GetRemainingActionPoints() returns (remaining: int)
      ensures remaining == maxActionPoints - SumCosts(commandQueue)
      ensures remaining == maxActionPoints - |commandQueue|
      ensures WithinBudget() ==> remaining >= 0
    {
      var queued := GetQueuedActionPointCost();
      remaining := maxActionPoints - queued;
    }

    /** A fresh list holding the queue: changing it cannot change the queue. */
    method GetCommands() returns (copy: array<Command>)
      ensures fresh(copy) && copy[..] == commandQueue
    {
      var q := commandQueue;
      copy := new Command[|q|](i requires 0 <= i < |q| => q[i]);
    }
  }
}
