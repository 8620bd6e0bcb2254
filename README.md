# GameEngine model

A Dafny model of the simulation core of a small arcade game. The player moves a
20×20 square around a rectangular field. Enemies are 15×15 squares that bounce
off the field's walls. The player places up to five 20×20 traps, and an enemy that
runs into a trap is removed together with that trap for one point. At 25 points
the game is over. An enemy that overlaps the player resets the game.

The model has four modules:

- `Geometry` holds rectangles and the strict overlap test that every collision uses
  (`GameObject.CollidesWith`).
- `Entities` holds the `Player` and `Enemy` classes with their in-place `Move`
  methods. It also has the value-level functions these methods are proved
  against: `Clamp` (Math.Clamp) and `Moved` (one bounce step).
- `Simulation` describes the engine's state as a value, `World`. It says what
  each engine operation does to that value:
  - `Tick` is one `Update`.
  - `TrapPhase` is its loop over the snapshot of the enemies, one `Step` per enemy.
  - `ResetWorld` is `Reset`.
  - `PlaceTrapWorld` is `PlaceTrap`.
  - `Spawns` is a run of `SpawnEnemy` calls.

  The module also states what the game promises as lemmas about these functions.
  The engine's invariant `Inv` says:
  - the trap counter equals the number of traps;
  - the trap counter never exceeds the cap;
  - the score is never negative;
  - a running game is below the winning score.
- `Engine` holds the `GameEngine` class. It keeps the enemies as objects in a
  sequence and the traps as a sequence of rectangles, and changes both in place.
  The constructor, `SpawnEnemy`, `MoveEnemies`, `Update`, `PlaceTrap` and
  `Reset` are proved to keep the invariant (`Valid`), and each of them states its
  new `State()` exactly:
  - the constructor's is an explicit start `World` whose enemies are `Spawns` of
    the draws;
  - `SpawnEnemy`'s is the old state with `Spawned` of the draw appended;
  - `MoveEnemies`, `Update`, `PlaceTrap` and `Reset` leave `AfterTraps`, `Tick`,
    `PlaceTrapWorld` and `ResetWorld` of the old state.

  Two of the helpers of `Update`'s loop, `RunTrapPhase` and `MoveAndTrap`, are
  proved against `TrapPhase` and `Step` under the weaker condition they need.
  `MoveAndFindTrap` is proved against `Moved` and `FirstHit`. `CatchEnemy`
  states its new state field by field. The two queries (`PlayerHit`,
  `FindTrapHit`) are proved against `OverlapsPlayer` and `FirstHit`.
  The ghost set `Repr` holds the engine, its player and its enemies. The
  constructor's `Repr` is fresh, and each mutator adds only fresh objects to it.
  So a caller that may modify `Repr` can construct an engine and keep driving it,
  as the window's timer does with one `Update` per tick.

Randomness comes in as parameters. A `Draw` holds the four values one
`SpawnEnemy` call draws. `ValidDraw` restricts them to the ranges the code can
produce:
- `Random.Next(0, n)` gives a value in `[0, n)`, or 0 when `n == 0`;
- `NextDouble() * 4 - 2` gives a value in `[-2, 2)`.

`Update` takes one draw for a possible spawn and five draws for a possible reset.

Some of what the code does is not what its callers evidently expect. The model
follows the code:
- `Reset` (Game/MainWindow.axaml.cs:143-152) does not clear the game-over flag.
  The start button's handler (Game/MainWindow.axaml.cs:162-166) calls `Reset`
  and hides the win message, evidently to start a new game. But with the flag
  still set, `Update` returns at once (:96-97) and the key handler ignores
  every key (:239-240), so the field stays frozen. `ResetKeepsGameOver` states
  this: after a won game is reset, every tick changes nothing.

Some further facts about the code, which the model follows:
- After the winning point, the trap phase goes on through the rest of the
  snapshot. The score can therefore pass 25 in that tick
  (`ScoringContinuesAfterWin`). The window shows any score (:231).
- The player check still runs in the tick where the game is won. If an enemy
  overlaps the player then, the reset leaves the game-over flag set with the
  score at 0 (`TickOnContact`). The win message needs a score of at least 25
  (:234), so it stays hidden while the field is frozen.
- The spawn check also runs in the tick where the game is won.

## Model

| member | source | states |
|---|---|---|
| Geometry.Collides | Game/MainWindow.axaml.cs:23-27 | GameObject.CollidesWith: the strict overlap test, four strict comparisons of the two rectangles' edges; its properties are the three lemmas below |
| Geometry.CollidesSymmetric | Game/MainWindow.axaml.cs:23-27 | which rectangle is "this" does not change the outcome of the overlap test |
| Geometry.TouchingDoesNotCollide | Game/MainWindow.axaml.cs:23-27 | rectangles that only share an edge or a corner do not collide, because every comparison is strict |
| Geometry.CollidesIffCommonInterior | Game/MainWindow.axaml.cs:23-27 | for rectangles of positive size, the test holds exactly when the two rectangles share an interior point |
| Entities.Clamp | Game/MainWindow.axaml.cs:37-38 | Math.Clamp: the result lies in [lo, hi], equals v when v is already inside, and is the point of [lo, hi] nearest to v |
| Entities.Player.Move | Game/MainWindow.axaml.cs:35-39 | X and Y become the clamped sums, so afterwards 0 <= X <= fieldWidth - Width and 0 <= Y <= fieldHeight - Height |
| Entities.CornerIsSticky | Game/MainWindow.axaml.cs:35-39 | a player built at (0, 0) and moved by (-10, -10) with Player.Move stays at (0, 0) |
| Entities.Moved | Game/MainWindow.axaml.cs:47-54 | the box shifts by exactly the old velocity and keeps its size; each velocity component is kept or negated, so its magnitude stays the same; a nonzero component is negated exactly when its axis is out of the field after the shift |
| Entities.Enemy.Move | Game/MainWindow.axaml.cs:47-54 | the enemy's new state is Moved of its old state |
| Simulation.Spawns | Game/MainWindow.axaml.cs:78 | a run of SpawnEnemy calls appends one enemy per draw, in draw order |
| Simulation.Spawned | Game/MainWindow.axaml.cs:83-91 | the enemy one SpawnEnemy call builds from a draw: a 15×15 box at the drawn position with the drawn velocity; SpawnedFits states its bounds |
| Simulation.SpawnedFits | Game/MainWindow.axaml.cs:81-92 | a spawned enemy is a 15×15 square inside the field whose velocity components have magnitude at most 2 |
| Simulation.FirstHit | Game/MainWindow.axaml.cs:103-117 | the index of the first trap the moved enemy overlaps: it overlaps that trap and none before it; the index is the trap count when no trap is overlapped |
| Engine.FindTrapHit | Game/MainWindow.axaml.cs:103-117 | the inner loop over the traps finds the first overlapped trap, or reports that none is overlapped; its result is FirstHit |
| Engine.RemoveFirst | Game/MainWindow.axaml.cs:107-108 | List.Remove leaves the list unchanged when the element is absent and otherwise removes exactly one element |
| Engine.RemoveFirstAfterPrefix | Game/MainWindow.axaml.cs:107 | removing an object that does not occur before position k removes exactly the occurrence at k |
| Simulation.Step | Game/MainWindow.axaml.cs:101-117 | one pass of the trap loop on the value state: move the enemy, then either remove it with its first hit trap and score, or keep it; StepOutcome states what it does |
| Simulation.StepOutcome | Game/MainWindow.axaml.cs:101-117 | an enemy that overlaps a trap after its move is removed together with the first such trap, with one trap-counter decrement and one point, and the game ends when the score reaches 25; an enemy that overlaps no trap is kept, moved, and nothing else changes |
| Simulation.TrapPhase | Game/MainWindow.axaml.cs:99-118 | the loop over the snapshot: one Step per snapshot enemy, in order; the three Phase lemmas below state what it does |
| Simulation.PhaseAccounting | Game/MainWindow.axaml.cs:99-118 | over the whole snapshot, each point scored removes exactly one enemy and one trap and decrements the counter once; the score never falls; the game is over afterwards exactly when it was before or a point reached 25 |
| Simulation.PhaseKeepsMovedEnemies | Game/MainWindow.axaml.cs:99-118 | the enemies left after the trap phase are the earlier ones followed by moved enemies of the snapshot |
| Simulation.PhasePreservesInv | Game/MainWindow.axaml.cs:99-118 | the trap phase keeps the trap-counter invariant and the game-over invariant |
| Engine.GameEngine.MoveAndFindTrap | Game/MainWindow.axaml.cs:101-104 | the enemy makes one Move, and the index found is FirstHit of its new box; no other enemy's state changes |
| Engine.GameEngine.CatchEnemy | Game/MainWindow.axaml.cs:105-115 | the caught enemy and trap j are removed, the counter drops by one, the score rises by one, and the game-over flag is set once the score reaches 25 |
| Engine.GameEngine.MoveAndTrap | Game/MainWindow.axaml.cs:99-118 | one pass of the outer loop changes the state as one Step of the trap phase does |
| Engine.GameEngine.RunTrapPhase | Game/MainWindow.axaml.cs:99-118 | the loop over the snapshot changes the state as TrapPhase does, with every enemy moved exactly once in snapshot order |
| Engine.GameEngine.MoveEnemies | Game/MainWindow.axaml.cs:98-118 | the trap phase keeps the engine's invariant and yields AfterTraps of the old state |
| Engine.GameEngine.PlayerHit | Game/MainWindow.axaml.cs:121-128 | reports true exactly when some remaining enemy overlaps the player |
| Simulation.Tick | Game/MainWindow.axaml.cs:94-132 | one Update on the value state: nothing when the game is over; otherwise the trap phase, then a reset on contact with the player, else a possible spawn; the Tick lemmas below and Engine.GameEngine.Update state what it does |
| Simulation.TickWhenOver | Game/MainWindow.axaml.cs:96-97 | a tick of a finished game changes nothing |
| Simulation.TickOnContact | Game/MainWindow.axaml.cs:121-128 | contact after the trap phase ends the tick in the reset state: player at (50, 50), no traps, counter 0, score 0, exactly the five drawn enemies, game-over flag as the trap phase left it, and no spawn |
| Simulation.TickWithoutContact | Game/MainWindow.axaml.cs:130-131 | without contact the player stays, and traps, trap counter, score and game-over flag are those the trap phase left; at most one enemy is appended, it is Spawned of the spawn draw, and one is appended exactly when score > 0, score % 5 == 0 and fewer than score / 5 + 5 enemies remain |
| Simulation.ResetKeepsGameOver | Game/MainWindow.axaml.cs:143-152 | Reset leaves a won game over, and a tick after such a reset changes nothing |
| Simulation.TickPreservesInv | Game/MainWindow.axaml.cs:94-132 | a whole tick keeps the engine's invariant |
| Engine.GameEngine.Update | Game/MainWindow.axaml.cs:94-132 | Update keeps the invariant and leaves the state equal to Tick of the old state; it adds only fresh objects to Repr |
| Simulation.PlaceTrapWorld | Game/MainWindow.axaml.cs:134-141 | PlaceTrap on the value state: below the cap, one trap at the player's position is appended and counted; PlaceTrapBehaviour states what it does |
| Simulation.PlaceTrapBehaviour | Game/MainWindow.axaml.cs:134-141 | below the cap, exactly one 20×20 trap at the player's position is appended and counted, and nothing else changes; at the cap, nothing changes; the invariant is kept |
| Engine.GameEngine.PlaceTrap | Game/MainWindow.axaml.cs:134-141 | PlaceTrap keeps the invariant and leaves the state equal to PlaceTrapWorld of the old state; the enemy list and Repr stay the same |
| Simulation.ResetWorld | Game/MainWindow.axaml.cs:143-152 | Reset on the value state: player back at (50, 50), traps, counter and score cleared, enemies replaced by the five drawn ones, game-over flag untouched; ResetIsCanonical and ResetKeepsGameOver state what it does |
| Simulation.ResetIsCanonical | Game/MainWindow.axaml.cs:143-152 | Reset yields a state that satisfies the invariant and is the same from every starting state with the same game-over flag and the same player size, except for the drawn enemies; resetting twice equals resetting once |
| Engine.GameEngine.Reset | Game/MainWindow.axaml.cs:143-152 | Reset keeps the invariant and leaves the state equal to ResetWorld of the old state: player at (50, 50), no traps, counter 0, score 0, five drawn enemies, game-over flag unchanged; only fresh objects join Repr |
| Engine.GameEngine.SpawnEnemy | Game/MainWindow.axaml.cs:81-92 | appends exactly one 15×15 enemy built from the draws and changes nothing else; the old enemy objects keep their places, the appended one is fresh and is the only object added to Repr |
| Engine.GameEngine.constructor | Game/MainWindow.axaml.cs:73-79 | a new engine has the player at (50, 50) with size 20×20, no traps, counter 0, score 0, a running game and the five drawn enemies; its Repr is fresh |
| Simulation.EnemyOnTrapScores | Game/MainWindow.axaml.cs:99-118 | an enemy at rest on a trap is removed with the trap in one tick for one point |
| Simulation.ScoringContinuesAfterWin | Game/MainWindow.axaml.cs:103-117 | with 24 points and two enemies resting on two traps, one tick ends the game at 26 points: scoring goes on after the winning point |

## Left out

- The window, the timer, drawing and key handling (Game/MainWindow.axaml.cs:155-250) are not part of this model. They call the engine and suppress input after a win, but hold no engine logic.
- Game/Reporter.cs and Game/TelegramReporter/ReporterProgram.cs are not part of this model. They do file, environment and network I/O only.
- System.Random is not modelled. Its draws are parameters, limited to the ranges the code's calls can return.
- Coordinates are exact reals, not IEEE-754 doubles. Rounding and negative zero are not modelled.
- Score and the trap counter are unbounded integers, so 32-bit overflow is not modelled. The invariant keeps the trap counter between 0 and 5. A tick starts below 25 points and adds at most one point per enemy.
- Engine.GameEngine.constructor: the field must be at least 15×15. Random.Next(0, n) throws for a negative n, and that exception is not modelled.
- Entities.Player.Move: the field must be at least as large as the player. Math.Clamp throws when its bounds cross, and that exception is not modelled.
- Nothing is claimed about enemies staying inside the field. Move reflects the velocity but never clamps the position.
- Traps are values, not objects. No trap is ever mutated after it is placed, so removing the trap at the index of the first hit is what Traps.Remove(trap) does. Enemies are objects, and their removal is by reference.
- Player.MaxTraps is a constant 5 in the model. The engine never assigns it.
