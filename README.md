# Turn-based tactics core, modelled in Dafny

This project models the simulation core of a small Unity turn-based tactics game:

- **The battlefield.** A square grid of tiles. Each tile has coordinates, an optional occupying unit and a highlight colour.
- **Units.** Each unit (`Character`) has grid coordinates, an action-point budget, a FIFO queue of commands and a health value.
- **Commands.** There are three single-shot commands: Move, Attack and Heal. Each can be executed, which reports success, and undone.
- **The enemy planner** (`AIEnemyController`). It queues at most one command for an enemy: an attack on the closest living player when that player is adjacent, otherwise one step towards it.
- **The turn loop** (`TurnManager`). It places both rosters at the start of a battle. Each `EndTurn` then runs one pass of the side to move, and a pass that hands the turn to the enemy chains an enemy pass.

## Modules and how the game's code is represented

- **Units** (`units.dfy`):
  - `Character` is a class whose fields the operations update in place.
  - `ICommand` and its three implementations are one datatype, `Command`.
  - A command's `owner` is the interface's `Character` property.
- **Grid** (`grid.dfy`): `GridTile` and `GridManager` are classes. The tile array is an `array2`. `CreateGrid`, `ResetAllTileColors`, `HighlightValidMoves` and the retry loop of `GetRandomPositionOnSide` are loops with invariants.
- **Board** (`board.dfy`): the tile↔unit invariant, on values.
  - `Consistent(occ, at, present)`: every unit still on the battlefield stands on the tile that names it, and every tile naming such a unit is at that unit's coordinates.
  - Also here: the effect of Move and Undo on occupancy, and of the start-of-battle placements.
- **Effects** (`effects.dfy`): what commands do, on values.
  - `World` holds the tiles' occupants and each unit's coordinates, health and destroyed flag.
  - `Step` is one Execute, `RunAll` a queue executed in order, `Revert` one Undo.
  - The heap methods of Commands and Turns are proved to have exactly these effects.
- **Commands** (`commands.dfy`):
  - `Execute`/`Undo` of each command, against the live tiles and units;
  - `Character.ExecuteCommands`;
  - `BoardConsistent`, which reads `Consistent` off the heap.
- **AI** (`ai.dfy`):
  - The planner is written as operations that take its unit, the grid and the player roster as parameters. These are the references the component fixes at `Awake`.
  - `Closest` is the reference definition that `FindClosestPlayer`'s loop is proved against.
- **Turns** (`turns.dfy`):
  - `TurnState` is the state machine of the two flags plus the number of chained passes scheduled and not yet started.
  - `TurnManager` is a class whose methods are proved against that machine.
  - `TeamPass` is the execution loop of a pass on values. `View()` reads the units' queues, action points and the battle off the heap, and each method states its new view in terms of `TeamPass`, `AfterPlanning` (the enemies' planning step) and `InboxesAfter` (their queue notices).
  - Lemmas about `TeamPass` show that a pass keeps the board and health invariants.
  - `SetUpBattle` and `OpeningTurn` are a small client: build the manager, place the units, press end turn.

Engine behaviour is modelled as follows:

- **Destroyed units.** Unity compares a destroyed object equal to `null`. A unit therefore has a `destroyed` flag. A tile whose occupant was destroyed reads as free, and an attack on a destroyed target fails as on a null one.
- **Health.** The health component is an external library. Health is an integer kept in `[0, maxHealth]`. A unit whose health reaches zero is destroyed.
- **Randomness.** `Random.Range` is a supplied oracle `rng: nat -> nat` read at a cursor.
- **Distances.** Euclidean distance is replaced by squared distance, which orders cells the same way.
- **Events.** `OnCommandAdded`/`OnCommandRemoved` are a per-unit log, `notifications`. `OnTurnChanged` is the log `turnChanges`.

## Model

| member | source | states |
|---|---|---|
| Units.EveryCommandCostsOne | Assets/_Scripts/CommandPattern/AttackCommand.cs:6-18 | every command costs exactly one action point, and an attack built without a damage argument deals 10 |
| Units.CommandNamesIdentifyVariants | Assets/_Scripts/CommandPattern/MoveCommand.cs:53-56 | two commands report the same name exactly when they are the same kind of command, so the names "Move", "Attack" and "Heal" are distinct |
| Units.SumCostsIsLength | Assets/_Scripts/Character/Character.cs:113-121 | the summed cost of a queue equals its length, because every command costs one |
| Units.SumCostsAppend | Assets/_Scripts/Character/Character.cs:89-96 | appending a command adds exactly its cost to the queued total |
| Units.SumCostsRemoveAt | Assets/_Scripts/Character/Character.cs:98-105 | removing the command at index i takes exactly its cost off the queued total |
| Units.AfterDamage | Assets/_Scripts/Character/Character.cs:48-66 | the health left by a hit stays within [0, maxHealth]; it is exactly zero when the damage is at least the current health, and otherwise the health minus the damage |
| Units.DamageThenHealRestores | Assets/_Scripts/CommandPattern/AttackCommand.cs:45-49 | damage that leaves the unit alive, followed by healing of the same amount, restores the original health |
| Units.Character.constructor | Assets/_Scripts/Character/Character.cs:23-33 | a new unit has full health and full action points, an empty queue, and satisfies the health and budget invariants |
| Units.Character.MoveTo | Assets/_Scripts/Character/Character.cs:35-45 | the coordinates become the given ones for any input, with no validation, and nothing else changes |
| Units.Character.TakeDamage | Assets/_Scripts/Character/Character.cs:48-66 | a unit with health and not destroyed loses the damage, clamped at zero, and is destroyed exactly when its health reaches zero; otherwise nothing changes; the health invariant is kept |
| Units.Character.Heal | Assets/_Scripts/Character/Character.cs:69-75 | a unit that still has its health component gains the amount, clamped at its maximum; otherwise nothing changes; a non-negative heal keeps the health invariant |
| Units.Character.GetQueuedActionPointCost | Assets/_Scripts/Character/Character.cs:113-121 | the loop returns the sum of the queued costs, which is the queue length |
| Units.Character.CanAddCommand | Assets/_Scripts/Character/Character.cs:83-87 | true exactly when the queued costs plus the command's cost fit into the maximum action points |
| Units.Character.AddCommand | Assets/_Scripts/Character/Character.cs:89-96 | when the command is affordable, it is appended at the end and one "added" notice is raised; otherwise neither the queue nor the notices change; the budget invariant is kept |
| Units.Character.RemoveCommand | Assets/_Scripts/Character/Character.cs:98-105 | an index inside the queue removes exactly that element, keeps the others in order and raises one "removed" notice; any other index changes nothing; the budget invariant is kept |
| Units.Character.ClearCommands | Assets/_Scripts/Character/Character.cs:107-111 | the queue becomes empty and one "removed" notice is raised even if it was already empty |
| Units.Character.GetRemainingActionPoints | Assets/_Scripts/Character/Character.cs:123-126 | the maximum minus the queued costs, which is never negative while the budget invariant holds |
| Units.Character.GetCommands | Assets/_Scripts/Character/Character.cs:133-136 | a freshly allocated copy holding the queue's commands in order, so writing to it cannot change the queue |
| Grid.SideColumn | Assets/_Scripts/Grid/GridManager.cs:92 | the drawn column is 0 or 1 on the left side and 3 or 4 on the right, each reachable from the random sample |
| Grid.GridTile.Initialize | Assets/_Scripts/Grid/GridTile.cs:17-24 | the tile gets the given coordinates and default colour, which are constants and never change afterwards, and it starts unoccupied |
| Grid.GridTile.Highlight | Assets/_Scripts/Grid/GridTile.cs:26-29 | the tile shows the given colour; only the colour field may change |
| Grid.GridTile.ResetHighlight | Assets/_Scripts/Grid/GridTile.cs:31-34 | the tile shows the default recorded by Initialize, whatever was highlighted before; occupancy is not in its frame |
| Grid.GridManager.constructor | Assets/_Scripts/Grid/GridManager.cs:19-22 | a new manager holds a well-formed grid of fresh, unoccupied tiles in the default colour |
| Grid.GridManager.CreateGrid | Assets/_Scripts/Grid/GridManager.cs:24-43 | the array is gridSize by gridSize; entry (x, z) is a fresh tile with coordinates (x, z), unoccupied and in the default colour |
| Grid.GridManager.ValidPositionsAreTiles | Assets/_Scripts/Grid/GridManager.cs:52-55 | IsValidPosition(x, z) holds exactly when some tile of the grid has coordinates (x, z) |
| Grid.GridManager.GetTile | Assets/_Scripts/Grid/GridManager.cs:45-50 | returns a tile exactly when IsValidPosition(x, z) holds, and that tile has coordinates (x, z); otherwise returns null; it has no precondition on x and z |
| Grid.GridManager.FreeOccupants | Assets/_Scripts/Grid/GridManager.cs:24-43 | on a grid with no tile occupied, every on-grid cell refers to nobody |
| Grid.GridManager.ResetAllTileColors | Assets/_Scripts/Grid/GridManager.cs:79-88 | every tile shows its default colour; only colours may change |
| Grid.GridManager.HighlightValidMoves | Assets/_Scripts/Grid/GridManager.cs:57-77 | free tiles get the valid-move colour; tiles held by a non-player unit other than the given one get the attack colour; all other tiles keep the default; occupancy is not in its frame |
| Grid.GridManager.GetRandomPositionOnSide | Assets/_Scripts/Grid/GridManager.cs:90-104 | the column is drawn once on the requested side and only the row is redrawn, at most 10 times and only while the tile is occupied; a result kept after fewer than 10 redraws is free; the result is on the grid whenever gridSize is at least 5, and a column off a narrower grid yields no position |
| Board.ConsistentPositionsDistinct | Assets/_Scripts/Grid/GridTile.cs:7 | under the tile↔unit invariant, no two units on the battlefield share a cell, so a tile has at most one occupant |
| Board.MovePreservesConsistency | Assets/_Scripts/CommandPattern/MoveCommand.cs:23-37 | a successful move of a present unit to a free on-grid cell keeps the tile↔unit invariant |
| Board.RemovalPreservesConsistency | Assets/_Scripts/Character/Character.cs:56-60 | units leaving the battlefield, whose tiles still name them, keep the invariant for the rest |
| Board.MoveUndoRoundTrip | Assets/_Scripts/CommandPattern/MoveCommand.cs:19-51 | if the owner is still where the command was built and the target is empty, Execute followed by Undo restores both tiles and the coordinates exactly |
| Board.UndoReturnsToConstructionPosition | Assets/_Scripts/CommandPattern/MoveCommand.cs:12-21 | after the owner has moved elsewhere since construction, Execute then Undo puts it on its construction-time cell and leaves the cell it left empty |
| Board.UndoAfterFailedMoveBreaksConsistency | Assets/_Scripts/CommandPattern/MoveCommand.cs:39-51 | Undo does not check whether Execute succeeded: undoing a move whose target holds another present unit breaks the tile↔unit invariant |
| Board.Place | Assets/_Scripts/Managers/TurnManager.cs:36 | the tiles after the start placements cover the grid plus exactly the cells the placements used |
| Board.PlaceNamesUnits | Assets/_Scripts/Managers/TurnManager.cs:30-49 | the placements put only units of the battle on tiles, so every tile still names a unit of the battle or nobody |
| Board.LastPlacement | Assets/_Scripts/Managers/TurnManager.cs:30-49 | after placements on an empty grid, a cell is empty exactly when no placement used it, and otherwise names the unit of the last placement on it |
| Board.PlaceStep | Assets/_Scripts/Managers/TurnManager.cs:34-36 | one more placement of a unit not yet placed sets exactly that cell's tile and that unit's coordinates, and it lands free exactly when the cell holds no present unit |
| Board.PlacedAtOf | Assets/_Scripts/Managers/TurnManager.cs:35 | a unit placed once stands on the cell of that placement |
| Board.PlacementsStep | Assets/_Scripts/Managers/TurnManager.cs:34-36 | placing one more unit (coordinates set, tile occupant set) extends the placement record; the tiles and coordinates remain its effect |
| Board.PlacementsComplete | Assets/_Scripts/Managers/TurnManager.cs:25-50 | when every unit was placed and every placement was kept after fewer than ten redraws, the tile↔unit invariant holds |
| Board.PlacementsConsistent | Assets/_Scripts/Managers/TurnManager.cs:25-50 | placing distinct units on an empty grid gives the tile↔unit invariant exactly when no placement lands on a cell still holding a present unit (both directions) |
| Board.FreeLandingsConsistent | Assets/_Scripts/Managers/TurnManager.cs:25-50 | the "if" half of PlacementsConsistent: placements that all land free leave the tile↔unit invariant |
| Effects.Effect | Assets/_Scripts/CommandPattern/MoveCommand.cs:23-37 | a successful command changes no key of the battle and never puts a unit outside the battle on a tile |
| Effects.Step | Assets/_Scripts/CommandPattern/ICommand.cs:3 | one Execute on the battle keeps its keys and keeps every tile naming a unit of the battle |
| Effects.OutcomeKeepsDestroyed | Assets/_Scripts/CommandPattern/AttackCommand.cs:23-43 | no command, successful or not, brings a destroyed unit back, and only an attack's target can be destroyed |
| Effects.OutcomeKeepsHealthy | Assets/_Scripts/CommandPattern/HealCommand.cs:17-29 | every command with a non-negative heal amount keeps the health invariant and leaves dead units dead |
| Effects.StepKeepsConsistent | Assets/_Scripts/CommandPattern/ICommand.cs:3 | every command keeps the tile↔unit invariant while its owner is on the battlefield |
| Effects.RunAll | Assets/_Scripts/Character/Character.cs:146-156 | running a queue keeps the battle's keys and keeps every tile naming a unit of the battle |
| Effects.RunAllAppend | Assets/_Scripts/Character/Character.cs:146-156 | running two queues one after the other is running their concatenation |
| Effects.StepRevertRoundTrip | Assets/_Scripts/CommandPattern/ICommand.cs:3-4 | Execute then Undo restores the battle when the Execute succeeded and nothing was clipped: a move from where it was built onto an empty tile, an attack its target survives, a heal within the maximum |
| Effects.RunAllKeepsDead | Assets/_Scripts/Character/Character.cs:146-156 | a whole queue with non-negative heals keeps the health invariant and brings no dead unit back |
| Effects.RunAllKeepsConsistent | Assets/_Scripts/Character/Character.cs:146-156 | a queue of one unit's commands that never attack it keeps the tile↔unit invariant and that unit on the battlefield |
| Effects.RunAllKeepsDestroyed | Assets/_Scripts/Character/Character.cs:146-156 | a whole queue never brings a destroyed unit back |
| Commands.WorldOf | Assets/_Scripts/Character/Character.cs:7-18 | the battle read off the heap has the tiles' occupants and each unit's coordinates, health and destroyed flag |
| Commands.OccupiedInWorld | Assets/_Scripts/Grid/GridTile.cs:36-39 | while every tile names a unit of the battle, IsOccupied holds exactly when the cell holds a unit not destroyed |
| Commands.DeadInWorld | Assets/_Scripts/Character/Character.cs:77-80 | IsDead of a unit of the battle is DeadIn on the battle read off the heap: no health component, destroyed, or health used up |
| Commands.OccupiedIsNotFree | Assets/_Scripts/Grid/GridTile.cs:36-39 | under the invariant, a tile reads occupied exactly when its cell holds a unit still on the battlefield |
| Commands.NewMoveUndone | Assets/_Scripts/CommandPattern/MoveCommand.cs:12-21 | a move built where its owner stands, onto an empty on-grid tile, succeeds, and its Undo restores the battle exactly |
| Commands.NewAttackUndone | Assets/_Scripts/CommandPattern/AttackCommand.cs:14-21 | an attack built on a living neighbour that survives the hit succeeds, and its Undo restores the battle exactly |
| Commands.NewHealUndone | Assets/_Scripts/CommandPattern/HealCommand.cs:10-15 | a heal built with a non-negative amount within the maximum succeeds, and its Undo restores the battle exactly |
| Commands.ExecuteMove | Assets/_Scripts/CommandPattern/MoveCommand.cs:23-37 | succeeds exactly when the target is on the grid and not occupied (by the owner too); there is no distance limit; on failure nothing changes; on success the old tile is cleared, the target names the owner and the owner's coordinates become the target |
| Commands.Relocate | Assets/_Scripts/Managers/TurnManager.cs:35-36 | the unit's coordinates become the cell and that cell's tile names it; no other coordinates or tiles change |
| Commands.UndoMove | Assets/_Scripts/CommandPattern/MoveCommand.cs:39-51 | unconditionally clears the target tile, puts the owner on its construction-time tile and sets its coordinates back to those |
| Commands.ExecuteAttack | Assets/_Scripts/CommandPattern/AttackCommand.cs:23-43 | succeeds exactly when the target exists, is not dead and is at Manhattan distance 0 or 1; on success the target takes the damage once; on failure its health is untouched; nothing but the target's health may change |
| Commands.UndoAttack | Assets/_Scripts/CommandPattern/AttackCommand.cs:45-49 | heals the target by the damage whenever it is still there, whether or not Execute succeeded |
| Commands.ExecuteHeal | Assets/_Scripts/CommandPattern/HealCommand.cs:17-29 | always succeeds and heals only the owner by the heal amount |
| Commands.UndoHeal | Assets/_Scripts/CommandPattern/HealCommand.cs:31-34 | the owner takes the heal amount as damage |
| Commands.Execute | Assets/_Scripts/CommandPattern/ICommand.cs:3 | each command succeeds exactly when its own condition held beforehand, and the new battle is Effects.Outcome of the old one; while every tile names a unit of the battle, that is Effects.Step |
| Commands.ConsistentWorld | Assets/_Scripts/Grid/GridTile.cs:7 | the heap form of the tile↔unit invariant is WorldConsistent of the battle read off the heap |
| Commands.HealthyWorld | Assets/_Scripts/Character/Character.cs:48-75 | the health invariant of every unit is Effects.Healthy of the battle read off the heap |
| Commands.MoveWithin | Assets/_Scripts/CommandPattern/MoveCommand.cs:23-37 | a move on the heap has the effect Effects gives it: success is CanExecute, the battle is the Outcome, and Succeeds while every tile names a unit |
| Commands.AttackWithin | Assets/_Scripts/CommandPattern/AttackCommand.cs:23-43 | an attack on the heap has the effect Effects gives it, and its success is Succeeds whoever stands on the tiles |
| Commands.HealWithin | Assets/_Scripts/CommandPattern/HealCommand.cs:17-29 | a heal on the heap always succeeds and has the effect Effects gives it |
| Commands.ExecuteCommands | Assets/_Scripts/Character/Character.cs:146-160 | every queued command runs once, in FIFO order, whether or not earlier ones failed: the battle ends as RunAll of the old queue on the old battle; then the queue is empty and the action points are at the maximum |
| AI.Dist2 | Assets/_Scripts/Managers/AIEnemyController.cs:54-57 | the squared distance is zero only on the same cell and one exactly on adjacent cells (IsAdjacent, lines 69-74) |
| AI.NextStep | Assets/_Scripts/Managers/AIEnemyController.cs:76-88 | the step moves along x while the columns differ, else along z, else stays; a step is a neighbour one cell closer (in Manhattan distance) to the target, and it reaches the target exactly when the target is adjacent |
| AI.Closest | Assets/_Scripts/Managers/AIEnemyController.cs:44-67 | the reference choice is a member of the roster or null |
| AI.ClosestNullIffAllDead | Assets/_Scripts/Managers/AIEnemyController.cs:44-67 | there is no target exactly when every player is dead, and a target is never dead |
| AI.ClosestIsMinimal | Assets/_Scripts/Managers/AIEnemyController.cs:44-67 | the target is at least as close as every living player |
| AI.ClosestIsFirst | Assets/_Scripts/Managers/AIEnemyController.cs:59-63 | the strict comparison makes ties go to the earliest: the target occurs no later in the roster than any living player equally close |
| AI.FindClosestPlayer | Assets/_Scripts/Managers/AIEnemyController.cs:44-67 | the accumulator loop returns the reference choice Closest, for which the three lemmas above hold |
| AI.PlannedCommandShape | Assets/_Scripts/Managers/AIEnemyController.cs:18-42 | no living player means no plan; an adjacent closest player always draws an attack on that player for 10 damage; any move is to a free on-grid tile one step closer to that player, recorded from where the unit stands; a closest player not yet adjacent draws exactly the move to NextStep when that cell is on the grid and free, and nothing otherwise; a plan exists only for a living target |
| AI.ClosestIn | Assets/_Scripts/Managers/AIEnemyController.cs:44-67 | the choice on a battle value is a living member of the roster or null |
| AI.ClosestInWorld | Assets/_Scripts/Managers/AIEnemyController.cs:44-67 | on the battle read off the heap, Closest and ClosestIn pick the same player |
| AI.PlanInWorld | Assets/_Scripts/Managers/AIEnemyController.cs:18-42 | while every tile names a unit of the battle, the planner on the heap and on the battle read off it plan the same command |
| AI.PlanTurn | Assets/_Scripts/Managers/AIEnemyController.cs:18-42 | a dead unit is left completely alone; otherwise the queue is cleared (one removal notice) and then holds exactly the planned command if there is one and the budget allows it, else nothing |
| Turns.PassHandsOver | Assets/_Scripts/Managers/TurnManager.cs:59-101 | a pass gives the turn to the other side with the guard down, and schedules a chained pass exactly when it handed the turn to the enemy; EndTurn during a pass changes nothing |
| Turns.EndTurnRoundTrip | Assets/_Scripts/Managers/TurnManager.cs:94-100 | one EndTurn from an idle player turn leaves the enemy to move with a chained pass scheduled; when that pass runs, the game is back at an idle player turn |
| Turns.SecondEndTurnInWindow | Assets/_Scripts/Managers/TurnManager.cs:86-99 | in the model where each pass runs whole: the guard is already down before the chained pass starts, so a second EndTurn there is not refused and runs the enemy pass at once; the chained pass then runs the players' side without any EndTurn |
| Turns.GatedPlayAlternates | Assets/_Scripts/Managers/TurnManager.cs:52-57 | when EndTurn is only offered while IsPlayerTurn() holds, passes strictly alternate player, enemy, player, and so on; between passes the game is an idle player turn or an enemy turn with one chained pass scheduled |
| Turns.TeamPassRanIn | Assets/_Scripts/Managers/TurnManager.cs:77-83 | only members of the roster run in a pass |
| Turns.TeamPassRunsExecuted | Assets/_Scripts/Managers/TurnManager.cs:77-83 | the battle a pass leaves is the one its executed commands, run in order, leave |
| Turns.TeamPassKeepsDestroyed | Assets/_Scripts/Managers/TurnManager.cs:77-83 | a pass never brings a destroyed unit back |
| Turns.TeamPassKeepsHealthy | Assets/_Scripts/Managers/TurnManager.cs:77-83 | with well-formed queues a pass keeps the health invariant and dead units dead; exactly members alive at the start can have run, and every member that did not run is dead at the end |
| Turns.TeamPassKeepsConsistent | Assets/_Scripts/Managers/TurnManager.cs:77-83 | a pass of well-formed queues keeps the tile↔unit invariant |
| Turns.TallyStart | Assets/_Scripts/Managers/TurnManager.cs:77-83 | before the first member's slot nothing has run and nothing has changed |
| Turns.SlotKeepsTally | Assets/_Scripts/Managers/TurnManager.cs:79-82 | one member's slot (run its queue if alive, else skip) extends the pass by that slot: the battle is TeamPass of the longer roster prefix, and exactly the members that ran have an empty queue and full action points |
| Turns.PassLeavesTeamDone | Assets/_Scripts/Managers/TurnManager.cs:77-83 | after a whole pass with the health invariant, every member of the roster is dead or has an empty queue and full action points |
| Turns.SidePlacementsStep | Assets/_Scripts/Managers/TurnManager.cs:30-38 | one more member placed on a column of its side extends the record of one placement loop |
| Turns.NextNotPlaced | Assets/_Scripts/Managers/TurnManager.cs:30-38 | in a roster of distinct units the next member has not been placed yet |
| Turns.EnemiesNotYetPlaced | Assets/_Scripts/Managers/TurnManager.cs:40-49 | no enemy is among the players' placements, so the second loop places only new units |
| Turns.PlayersPlaced | Assets/_Scripts/Managers/TurnManager.cs:30-38 | after the first loop the placements are the players in roster order on the left columns |
| Turns.RostersPlaced | Assets/_Scripts/Managers/TurnManager.cs:29-49 | the placements follow the rosters, players on the left columns and then enemies on the right; once both loops finish, exactly the units of the two rosters are placed |
| Turns.TurnManager.constructor | Assets/_Scripts/Managers/TurnManager.cs:7-15 | a new manager holds the given rosters and grid, its units are exactly the members of the two rosters, and it is at an idle player turn with no turn notices |
| Turns.TurnManager.ReadyFrom | Assets/_Scripts/Managers/TurnManager.cs:17-23 | a manager over an empty well-formed grid, with distinct disjoint rosters and well-formed queues, is set up and every tile names a unit of the battle or nobody |
| Turns.TurnManager.Occupy | Assets/_Scripts/Managers/TurnManager.cs:35-36 | one placement on the heap: exactly that cell's tile and that unit's coordinates change |
| Turns.TurnManager.PlaceOne | Assets/_Scripts/Managers/TurnManager.cs:34-36 | one placement: the unit takes the drawn cell's coordinates and becomes that tile's occupant, extending the placement record |
| Turns.TurnManager.PlaceTeam | Assets/_Scripts/Managers/TurnManager.cs:30-38 | each roster member in order draws a cell on its side and is placed there; the loop completes whenever gridSize is at least 5 |
| Turns.TurnManager.PlaceMember | Assets/_Scripts/Managers/TurnManager.cs:32-37 | one iteration places the next member on its side, or stops with nothing placed when the column is off the grid |
| Turns.TurnManager.PlaceDrawn | Assets/_Scripts/Managers/TurnManager.cs:34-36 | the drawn on-grid cell on the member's side gets the member, extending both placement records |
| Turns.TurnManager.PlaceRosters | Assets/_Scripts/Managers/TurnManager.cs:29-49 | the players' loop then the enemies' loop; all placed exactly when done, in roster order, and when done the placed units are the battle's units |
| Turns.TurnManager.InitializeCharacterPositions | Assets/_Scripts/Managers/TurnManager.cs:25-50 | players are placed in roster order on columns 0-1, then enemies on columns 3-4; all are placed whenever gridSize is at least 5; each unit's coordinates equal the tile that names it last; every tile names a unit of the battle or nobody; the tile↔unit invariant holds when no placement needed all ten redraws |
| Turns.TurnManager.Placed | Assets/_Scripts/Managers/TurnManager.cs:25-50 | after the placements every tile names a unit of the battle or nobody, and once all units are placed on free cells the tile↔unit invariant holds |
| Turns.TurnManager.PlannedWellFormed | Assets/_Scripts/Managers/AIEnemyController.cs:28-40 | a planned command belongs to the enemy that planned it, deals non-negative damage and targets a unit of the battle other than that enemy, so every queue stays well-formed |
| Turns.TurnManager.PlanningInWorld | Assets/_Scripts/Managers/TurnManager.cs:69-73 | on the heap and on the battle read off it, the planning step decides alike for each enemy |
| Turns.TurnManager.AfterPlanning | Assets/_Scripts/Managers/TurnManager.cs:66-74 | planning changes only queues: action points and the battle are untouched |
| Turns.TurnManager.InboxesAfter | Assets/_Scripts/Managers/TurnManager.cs:69-73 | planning gives notices to the enemies and nobody else |
| Turns.TurnManager.PlanningIdle | Assets/_Scripts/Managers/TurnManager.cs:67 | on the player's turn the planning step changes no queue and sends no notice |
| Turns.TurnManager.PlanningWellFormed | Assets/_Scripts/Managers/TurnManager.cs:66-74 | every queue the planning step leaves is well-formed |
| Turns.TurnManager.PlanningOnHeap | Assets/_Scripts/Managers/TurnManager.cs:66-74 | the planning step told on the heap agrees with AfterPlanning and InboxesAfter on the view |
| Turns.TurnManager.BeginTurn | Assets/_Scripts/Managers/TurnManager.cs:61-74 | the guard goes up and every highlight is reset; the units are then as AfterPlanning of the old view says (on the enemy's turn each living enemy with a planner holds its plan) and each enemy got its planning notices; the battle stays set up |
| Turns.TurnManager.RaiseGuard | Assets/_Scripts/Managers/TurnManager.cs:61 | the guard goes up and nothing else changes |
| Turns.TurnManager.ResetColors | Assets/_Scripts/Managers/TurnManager.cs:62 | every tile is back to its default colour; units, tiles' occupants and flags are unchanged |
| Turns.TurnManager.PlanEnemies | Assets/_Scripts/Managers/TurnManager.cs:66-74 | the units become AfterPlanning of the old view and the notices InboxesAfter: each living enemy with a planner gets exactly its planned queue and notices; players' queues, colours and flags are unchanged |
| Turns.TurnManager.ApplyPlans | Assets/_Scripts/Managers/TurnManager.cs:69-73 | the queues become the given plans and the notices the given inboxes; everything else in the view stays |
| Turns.TurnManager.PlanEach | Assets/_Scripts/Managers/TurnManager.cs:69-73 | the loop gives each enemy in roster order the queue and notices its own planning step produces |
| Turns.TurnManager.PlanOne | Assets/_Scripts/Managers/TurnManager.cs:71-72 | a dead enemy is skipped; a living one with a planner replaces its queue by its plan; one without a planner is untouched |
| Turns.TurnManager.ExecuteTeam | Assets/_Scripts/Managers/TurnManager.cs:76-83 | the units end as TeamPass of the side to move describes (PassEffect): the members that ran are those alive when their slot came, their queues ran in roster order and they end with empty queues and full action points; every other unit keeps its queue and points |
| Turns.TurnManager.RunTeam | Assets/_Scripts/Managers/TurnManager.cs:77-83 | the roster loop's whole effect, PassEffect between the views before and after |
| Turns.TurnManager.ProgressStart | Assets/_Scripts/Managers/TurnManager.cs:77 | before the first iteration of the roster loop, nothing has run |
| Turns.TurnManager.ProgressDone | Assets/_Scripts/Managers/TurnManager.cs:83 | after the last iteration the pass is the whole roster's |
| Turns.TurnManager.ExecuteSlot | Assets/_Scripts/Managers/TurnManager.cs:78-82 | one iteration of the roster loop extends the pass by that member's slot |
| Turns.TurnManager.TakeTurnOf | Assets/_Scripts/Managers/TurnManager.cs:79-82 | a member's slot has SlotEffect: a living member runs its whole queue and ends with it empty and its action points full; a dead member changes nothing |
| Turns.TurnManager.RunLiving | Assets/_Scripts/Managers/TurnManager.cs:81 | the view after a living member's ExecuteCommands: its queue empty, its points full, and the battle RunAll of its old queue |
| Turns.TurnManager.FinishTurn | Assets/_Scripts/Managers/TurnManager.cs:85-99 | the side flips, the guard comes down, OnTurnChanged reports the new side, and handing over to the enemy schedules a chained pass; units and tiles are unchanged |
| Turns.TurnManager.Flip | Assets/_Scripts/Managers/TurnManager.cs:86-90 | the turn flags flip, the guard comes down and the new side is reported |
| Turns.TurnManager.ExecuteTurn | Assets/_Scripts/Managers/TurnManager.cs:59-101 | the state moves by one Pass; one turn notice reports the new side; highlights are reset; the units end as TeamPass of the side that was to move, run on the queues AfterPlanning left (on the enemy's turn the plans); each enemy got its planning notices |
| Turns.TurnManager.RunPass | Assets/_Scripts/Managers/TurnManager.cs:61-83 | ExecuteTurn up to the hand-over: the guard is up, the planning step and then the roster pass have run |
| Turns.TurnManager.PassKeepsInvariants | Assets/_Scripts/Managers/TurnManager.cs:77-83 | a pass keeps the destroyed units destroyed, the tile↔unit invariant and the health invariant, and leaves every member of the side that moved dead or with an empty queue and full action points |
| Turns.TurnManager.EndTurn | Assets/_Scripts/Managers/TurnManager.cs:52-57 | while a pass is running nothing at all changes; otherwise one pass runs with the effect ExecuteTurn states: every highlight reset, one turn notice, the units as TeamPass on the planned queues, and the planning notices |
| Turns.TurnManager.ResumeChained | Assets/_Scripts/Managers/TurnManager.cs:94-100 | a scheduled chained pass starts without consulting the guard and runs one pass, with the same effect on highlights, units, notices and OnTurnChanged as ExecuteTurn |
| Turns.TurnManager.IsPlayerTurn | Assets/_Scripts/Managers/TurnManager.cs:103-106 | true exactly when it is the player's turn and no pass is running |
| Turns.TurnManager.IsExecutingTurn | Assets/_Scripts/Managers/TurnManager.cs:108-111 | reports the re-entrancy guard of the turn state machine |
| Turns.SetUpBattle | Assets/_Scripts/Managers/TurnManager.cs:17-50 | building the manager and placing the units leaves the battle set up at an idle player turn over the rosters' members; when every unit landed on a free cell the tile↔unit invariant holds |
| Turns.OpeningTurn | Assets/_Scripts/Managers/TurnManager.cs:17-57 | a battle from Start to the first EndTurn: the players' queues run as TeamPass on the placed board, the enemy is then to move with one chained pass scheduled and one turn notice, and free landings keep the tile↔unit invariant through that pass |

## Left out

- **Coroutine timing.** `WaitForSeconds` delays are not modelled; each coroutine is a sequence of steps. The one delay that matters is the window before a chained enemy pass. It is kept as the `pendingChains` counter and `ResumeChained`, which fires a scheduled pass. The `chained` ghost parameter of `ExecuteTurn` says whether the pass is such a scheduled one.
- **Concurrency.** Each pass runs whole, as one atomic step; two passes never interleave in the model. In the game they can. `ExecuteCommands` waits half a second after every command and enumerates the live queue (Character.cs:146-156). A second `EndTurn` in the window before a chained pass therefore starts an enemy pass whose waits give the chained `ExecuteTurn` room to fire in the middle of it. That chained pass re-runs the enemy side and re-plans, and `PlanTurn`'s `ClearCommands` then changes a queue that the first pass is still enumerating. Enemies can act twice. `Turns.SecondEndTurnInWindow` states the window only for whole passes.
- **Health component.** The health library is not visible. Health is an integer clamped to `[0, maxHealth]`, and `TakeDamage`'s float parameter is an integer. A unit without a health component is dead and ignores damage and healing.
- **Random numbers.** `Random.Range` is the oracle `rng`. A draw from an empty range gives its lower bound.
- **Float distance.** `Vector2Int.Distance` is replaced by squared distance. On integer cells this compares pairs of cells the same way.
- **Engine plumbing.** None of these are modelled:
  - `Debug.Log`;
  - effect prefabs and card sprites;
  - `transform.position`;
  - the tile's game-object name and renderer material;
  - `Awake`/`Start` lookups (`FindObjectOfType`, `GetComponent`).
  `Destroy` is the `destroyed` flag.
- **The command set is closed.** `ICommand` is open to further implementations; here it is the three-variant datatype `Command`. `Execute` and the two undo methods are dispatched per variant.
- **The move command's grid reference.** It is not stored in the command. The manager of the battle is passed to `Execute`/`Undo`.
- **Null roster slots.** Rosters hold no null entries, so the `character != null` checks of the placement loops and the `enemy == null` check of the planning loop are not modelled.
- **Missing AI component.** An enemy without an AI component is a unit whose `hasAI` is false.
- **User interface.**
  - `OnTurnChanged` listeners are not modelled; the notifications are recorded in `turnChanges`.
  - `cardHandManager.ClearAllCards()` is not modelled; the card hand manager is not part of this model.
  - The UI, input and card files are not part of this model.
- **Trivial getters.** `GetMaxActionPoints`, `GetPlayerTeam`, `GetEnemyTeam` and `GridSize` are plain getters and are not modelled separately; the model reads the fields.
- `ExecuteCommandCoroutine` is not modelled. It runs one command and waits, and no code of the core calls it.
- **Predicates without their own contract.** `GridManager.IsValidPosition`, `GridTile.IsOccupied`, `Character.IsDead` and the planner's `IsAdjacent` are one-line predicates; their meaning is stated by `Grid.GridManager.ValidPositionsAreTiles`, `Commands.OccupiedInWorld`, `Commands.DeadInWorld` and `AI.Dist2`. The constructors of the three commands are the functions `NewMove`, `NewAttack` and `NewHeal`, stated by the three `Commands.New…Undone` lemmas.
- `Commands.ExecuteCommands`: the model enumerates the queue as it was when the loop started, while the source enumerates the live list. No command changes its own owner's queue, so within one pass the result is the same; the difference only shows under the interleaving described under Concurrency.
- `Commands.ExecuteCommands`: the equation with `Effects.RunAll` is stated only while every tile names a unit of the battle (or nobody). On a board where a tile names an outside unit, `IsOccupied` and `Effects.Occupied` can disagree. Every battle the turn loop runs keeps that condition (`Turns.TurnManager.Populated`).
- `Commands.Execute`: its success equals `Effects.Succeeds` only under the same condition; without it, success is still stated exactly, as `CanExecute` on the heap.
- `Turns.TurnManager.Ready`: the turn manager requires the two rosters to list distinct units and to share none. The source does not check this. A unit listed twice would be placed twice and run its queue twice in one pass. A unit in both rosters would run on both sides. The model does not capture either case.
- `Turns.TurnManager.InitializeCharacterPositions`: requires a freshly built grid with every tile unoccupied, which is what `Start` provides.
- `Turns.TurnManager.InitializeCharacterPositions`: an out-of-range column on a grid narrower than five ends the coroutine with an exception. This is modelled as `done` being false, with the placements made so far.
- `Turns.TurnManager.InitializeCharacterPositions`: the tile↔unit invariant is guaranteed only when every unit was placed with fewer than ten redraws. After ten failed redraws the source keeps an occupied cell. `Board.PlacementsConsistent` states exactly when the invariant holds.
