# Pac-Man game logic in Dafny

A model of the logic layer of a tile-based Pac-Man game, with proofs about it. The model covers:

- the world: loading a level from a text map, the per-frame update, the death/restart cycle and the
  level change;
- the entities: the axis-aligned boxes all game objects share, Pacman, the ghosts and their four
  steering "brains";
- the score: coin timing bonus, ghost combo, fruit, level clear and the top-five high-score table;
- the observer list every entity carries;
- the camera that maps the world square [-1, 1] x [-1, 1] onto the window.

The project has two layers.

- **Rules on values.** Datatypes (`GhostValue`, `PacmanValue`, `ScoreValue`, `WorldValue`, `Motion`,
  `Layout`) hold each object's state. Functions state what each operation does to that state.
  Lemmas prove what the game promises about the rules.
- **Objects.** Classes (`Game.World`, `Ghosts.Ghost`, `Player.Pacman`, `Scoring.Score`,
  `Scoring.ScoreManager`, `Observers.Subject`, `Entities.Entity`, `Render.Camera`) have the fields of
  the game's own classes. Their methods update those fields step by step, as the game does, including
  its loops over the ghost, coin and fruit lists. Each method is proved to leave the object in the
  state the matching rule computes (`Value() == Rule(old(Value()))`).

Modules:

| module | file | models |
|---|---|---|
| `Grid` | grid.dfy | directions, tiles, truncating float-to-int conversion, tile index and tile centre |
| `Randomness` | random.dfy | the random number source, as a stream of draws |
| `Entities` | entities.dfy | `Entity`: position, size, the two overlap tests, the default animation queries |
| `Observers` | observers.dfy | `Subject`: attach without duplicates, detach, notify non-null observers |
| `GhostAI` | ghost_ai.dfy | wait times and sprite ids per ghost kind; the Manhattan helper; the red, pink, blue and orange brains |
| `Ghosts` | ghost.dfy | `Ghost`: states, timers, return to spawn, grid-locked movement |
| `Player` | pacman.dfy | `Pacman`: direction, buffered direction, lives, death animation |
| `Scoring` | score.dfy | `Score` and `ScoreManager` |
| `TileMotion` | tile_motion.dfy | Pacman's tile-based movement: input buffering, instant reversal, turning and stopping at tile centres, interpolated drawing position |
| `LevelMap` | level_map.dfy | what each map character places, in reading order |
| `WorldRules` | world_rules.dfy | level loading, reset, next level, the ghost pass, pickups, the whole frame |
| `Game` | world.dfy | `World`, the class that runs all of the above |
| `Render` | camera.dfy | `Camera` |

Where a comment in the source and the code disagree, the model follows the code:

- The ghost combo grows arithmetically (200, 400, 600, 800 points for four ghosts in a row), because
  `onGhostEaten` multiplies the base score by the combo count. The comment above it describes doubling.
  `Scoring.GhostRun` and `Scoring.FourGhostsEarn2000` state the arithmetic growth. Four ghosts
  therefore earn 2000 points, not the 3000 maximum the class comment names.
- In a frame in which Pacman collects a coin, the time since the last coin grows by the frame's length
  twice: once in `Score::update` and once more in `onCoinCollected`. `Scoring.CoinRatedOnTwiceTheFrame`
  states this.
- `nextLevel` clears coins, fruits and ghosts but not the walls. Loading the map again therefore
  appends a second copy of every wall (`WorldRules.NextLevelEffects` counts them). Wall tests are
  membership tests, so the duplicates change no movement.
- A map with a 'P' builds a new Pacman, with three lives, every time a level is loaded, so reaching
  the next level restores the lives (`WorldRules.NextLevelEffects`).

Modelling choices:

- **Randomness.** `Random::nextInt` and `Random::nextBool` draw from an explicit stream of numbers
  (`Randomness.Rng`). Every operation that draws takes a stream and returns what is left of it. An
  exhausted stream yields the lowest value.
- **Frame length and square root.** The frame length comes from the stopwatch in the game; here it is
  a parameter `dt`. `std::sqrt` is a parameter `root` of the ghost update.
- **Walls.** Walls are stored as the tiles they stand on, and the wall tests are tile membership. The
  game's tests compare tile centres within 0.3 (`isTileWall`) or 0.25 (`checkGhostWallCollision`) tile
  widths, on the vertical axis too. That is the same as membership exactly when a tile is at least
  that many widths high (`Grid.ToleranceIsSameTile`), that is when the map has at most 10/3 times as
  many lines as columns (4 times for the ghost test, `Grid.MapToleranceIsSameTile`). On a taller map
  a wall one line away would also count (`Grid.ToleranceTooWide`); the model covers maps within
  that bound.
- **Numbers.** `float` is `real`. `static_cast<int>` is written out as truncation toward zero
  (`Grid.Trunc`).

## Model

| member | source | states |
|---|---|---|
| Grid.Opposite | Logic/Entities/Ghost.cpp:15-23 | the opposite of a direction is a different direction; anything that is not a direction has opposite ' ' |
| Grid.OppositeInvolution | Logic/Entities/Ghost.cpp:15-23 | reversing a direction twice gives it back |
| Grid.StepTile | Logic/World.cpp:459-464 | a step in a direction moves exactly one tile along one axis (up and left decrease the index); a non-direction does not move |
| Grid.StepThenBack | Logic/World.cpp:442-476 | stepping one tile and then one tile in the opposite direction returns to the start tile, which is why a reversal can move Pacman to the next tile |
| Grid.Moved | Logic/Entities/Pacman.cpp:76-82 | moving by a distance in a direction changes exactly one coordinate, by exactly that distance, in that direction's sense |
| Grid.Abs | Logic/Entities/GhostsTypes.cpp:30 | the absolute value is non-negative and equals the value or its negation |
| Grid.Trunc | Logic/World.cpp:404-405 | float-to-int conversion truncates toward zero: for a non-negative value it is the floor, for a negative one the ceiling |
| Grid.TileIndex | Logic/World.cpp:399-406 | a position inside the world lies in the tile whose index the conversion returns: between that tile's left edge and the next tile's |
| Grid.GridCenter | Logic/Entities/Ghost.cpp:62-66 | the grid centre of a position inside the world is less than half a tile away from it |
| Grid.CentreRoundTrip | Logic/World.cpp:408-412 | the tile of a tile's centre is that tile again |
| Grid.ToleranceIsSameTile | Logic/World.cpp:420-423 | when a tile is at least `tol` widths high, the tolerance test on two tile centres holds exactly when they are the same tile |
| Grid.ToleranceTooWide | Logic/World.cpp:224-227 | when a tile is less than `tol` widths high, the test also matches the tile one row down |
| Grid.MapToleranceIsSameTile | Logic/World.cpp:66-67 | with tiles 2/columns wide and 2/lines high, that height condition holds exactly when lines times `tol` is at most the number of columns |
| Randomness.ConsumedTransitive | Logic/Random.h:30-33 | drawing twice consumes a suffix of a suffix, which is a suffix of the stream |
| Randomness.NextInt | Logic/Random.h:30-33 | a draw is below the bound and consumes exactly one number when one is left |
| Randomness.NextBool | Logic/Random.h:25-28 | a coin flip consumes exactly one number when one is left |
| Entities.Intersects | Logic/Entities/Entity.cpp:22-37 | boxes that only touch do not intersect; for boxes larger than the tolerance, they intersect exactly when they overlap by more than 0.008 on both axes |
| Entities.IntersectsSymmetric | Logic/Entities/Entity.cpp:22-37 | intersection does not depend on the order of the two boxes |
| Entities.IntersectsItself | Logic/Entities/Entity.cpp:22-37 | a box larger than the tolerance intersects itself |
| Entities.Shrunk | Logic/World.cpp:235-238 | the pickup test uses the entity's box at half its width and height, at the same centre |
| Entities.IntersectsPickup | Logic/World.cpp:234-252 | an entity reaches a pickup exactly when its half-size box overlaps the pickup's box by a positive amount on both axes |
| Entities.PickupOnlyOnSameTile | Logic/World.cpp:234-252 | for two boxes of one tile's size on the grid, the pickup test holds exactly when they are on the same tile |
| Entities.ApartOnAxis | Logic/World.cpp:240-251 | on one axis, a half-size box overlaps a tile-size box k tiles away exactly when k is 0 |
| Entities.Entity.constructor | Logic/Entities/Entity.cpp:9-10 | a new entity has the given position and size |
| Entities.Entity.SetPosition | Logic/Entities/Entity.cpp:12-15 | moves the entity and keeps its size |
| Entities.Entity.SetSize | Logic/Entities/Entity.cpp:17-20 | resizes the entity and keeps its position |
| Entities.Entity.Ask | Logic/Entities/Entity.h:28-41 | a plain entity reports no direction, not moving, state -1, timer 0, sprite -1, not dying and 0 lives |
| Observers.Attached | Logic/Observer.cpp:9-14 | attaching keeps the list as a prefix, adds the observer at most once, and keeps a list without duplicates free of them |
| Observers.AttachIdempotent | Logic/Observer.cpp:9-14 | attaching the same observer twice is the same as attaching it once |
| Observers.Detached | Logic/Observer.cpp:16-19 | detaching removes every occurrence of the observer and nothing else; it changes nothing when the observer is absent |
| Observers.DetachedAppend | Logic/Observer.cpp:16-19 | removing from a joined list is removing from each part |
| Observers.Notified | Logic/Observer.cpp:21-28 | notification calls exactly the non-null observers on the list; a one-entry list calls its observer when it is not null and nothing otherwise |
| Observers.NotifiedAppend | Logic/Observer.cpp:21-28 | the calls for a concatenated list are those for its first part followed by those for its second, so each non-null observer is called once, in list order |
| Observers.Subject.constructor | Logic/Observer.cpp:9-28 | a new subject has no observers |
| Observers.Subject.Attach | Logic/Observer.cpp:9-14 | the scan over the list leaves it as `Attached` computes and keeps it free of duplicates |
| Observers.Subject.Detach | Logic/Observer.cpp:16-19 | the erase loop leaves the list as `Detached` computes |
| Observers.Subject.Notify | Logic/Observer.cpp:21-28 | the loop calls, in order, the observers `Notified` lists |
| GhostAI.WaitTime | Logic/Entities/GhostsTypes.h:9-39 | red and pink wait 0 seconds, blue 5, orange 10; only red and pink start at once |
| GhostAI.SpriteId | Logic/Entities/GhostsTypes.h:9-39 | red has sprite id 0, pink 1, blue 2, orange 3 |
| GhostAI.SpriteIdsDistinct | Logic/Entities/GhostsTypes.h:9-39 | each ghost kind has its own sprite id |
| GhostAI.PickIndex | Logic/Entities/Ghost.cpp:183 | a random pick from a non-empty list is one of its elements |
| GhostAI.PickRandom | Logic/Entities/Ghost.cpp:181-184 | a random pick returns ' ' without drawing for an empty list, and otherwise one of the valid moves |
| GhostAI.StepDistance | Logic/Entities/GhostsTypes.cpp:17-30 | the Manhattan distance to the target after one simulated step is non-negative |
| GhostAI.StepIsOneWorldUnit | Logic/Entities/GhostsTypes.cpp:21-27 | the simulated step is 1.0 world units in every direction, half the world's width rather than one tile; a non-direction does not move |
| GhostAI.Scan | Logic/Entities/GhostsTypes.cpp:14-39 | the scan over a non-empty move list finds a non-empty set of best moves, all taken from the list |
| GhostAI.ScanBounds | Logic/Entities/GhostsTypes.cpp:32-38 | no move is closer than the kept minimum minus the tolerance, and every kept move is within the tolerance of that minimum |
| GhostAI.ManhattanChoice | Logic/Entities/GhostsTypes.cpp:41-43 | the Manhattan helper returns one of the best moves of the scan, and so a valid move |
| GhostAI.ManhattanNearlyOptimal | Logic/Entities/GhostsTypes.cpp:13-44 | the chosen move is less than two tolerances farther from the target than any other valid move |
| GhostAI.TieSetCanExceedOneTolerance | Logic/Entities/GhostsTypes.cpp:32-38 | for a concrete position the scan keeps two moves whose distances differ by more than one tolerance |
| GhostAI.NearTieCanBeDropped | Logic/Entities/GhostsTypes.cpp:32-38 | for a concrete position the scan drops a move that is within the tolerance of the minimum |
| GhostAI.GetBestManhattanDirection | Logic/Entities/GhostsTypes.cpp:13-44 | the loop with its running minimum and list of best moves returns what `ManhattanChoice` specifies |
| GhostAI.RedDecide | Logic/Entities/GhostsTypes.cpp:47-76 | the red ghost returns ' ' when no move is valid, otherwise a valid move, and keeps going in a corridor with a single open direction |
| GhostAI.RedBlockedTurns | Logic/Entities/GhostsTypes.cpp:56-69 | a red ghost whose way ahead is blocked always turns |
| GhostAI.AheadTarget | Logic/Entities/GhostsTypes.cpp:82-95 | the pink and blue ghosts aim one unit ahead of Pacman along his direction (up is y - 1, down y + 1, left x - 1, right x + 1), or at Pacman when he stands still |
| GhostAI.AheadDecide | Logic/Entities/GhostsTypes.cpp:79-120 | the pink and blue brains return ' ' for no valid move, otherwise the Manhattan choice toward the point ahead of Pacman |
| GhostAI.OrangeDecide | Logic/Entities/GhostsTypes.cpp:123-129 | the orange brain returns ' ' for no valid move, otherwise the Manhattan choice toward Pacman himself |
| GhostAI.Decide | Logic/Entities/GhostsTypes.cpp:47-129 | every brain returns ' ' for no valid move and otherwise a valid move |
| GhostAI.DecideDirection | Logic/Entities/GhostsTypes.cpp:47-129 | dispatch on the ghost's kind returns what `Decide` specifies |
| Ghosts.StateInt | Logic/Entities/Ghost.h:15-21 | WAITING reports 0, CHASING 1, FEARED 2, DEAD 3, DESPAWNED 4 |
| Ghosts.StateIntInjective | Logic/Entities/Ghost.h:53 | different states report different numbers |
| Ghosts.NewGhost | Logic/Entities/Ghost.cpp:11-13 | a new ghost waits, facing nowhere, at its start point, with the speed 0.30, its kind's wait time and no fear |
| Ghosts.Frightened | Logic/Entities/Ghost.cpp:25-35 | a dead or waiting ghost is not affected; any other becomes feared for the duration at half its base speed and reverses, and no other field changes |
| Ghosts.Killed | Logic/Entities/Ghost.cpp:37-41 | a dying ghost is dead and moves at 2.5 times its base speed; nothing else changes |
| Ghosts.Hidden | Logic/Entities/Ghost.cpp:43-47 | despawning hides the ghost and clears its direction; nothing else changes |
| Ghosts.ResetForDeath | Logic/Entities/Ghost.cpp:49-58 | after Pacman's death a ghost waits again at its start point with its original wait time, base speed, no fear and no direction; no other field changes |
| Ghosts.WithBaseSpeed | Logic/Entities/Ghost.h:69 | setting the base speed sets the current speed too and nothing else |
| Ghosts.Choice | Logic/Entities/Ghost.cpp:110-114 | a feared ghost picks at random and any other asks its brain; either way a valid move, or ' ' when none is valid |
| Ghosts.AxisLock | Logic/Entities/Ghost.cpp:174-176 | moving vertically snaps the ghost to its column's centre, horizontally to its row's centre |
| Ghosts.Travel | Logic/Entities/Ghost.cpp:109-176 | movement changes only position and direction; the new direction is the old one or a valid one; the ghost stays on the centre line of its column or row |
| Ghosts.Advance | Logic/Entities/Ghost.cpp:116-176 | the same guarantees for the move after the first choice of direction |
| Ghosts.AdvanceBlocked | Logic/Entities/Ghost.cpp:136-145 | a blocked ghost that is not approaching the centre snaps to it and chooses again |
| Ghosts.AdvanceTurns | Logic/Entities/Ghost.cpp:147-160 | a ghost that reaches the centre this frame snaps to it, chooses again and carries the overshoot in the new direction |
| Ghosts.AdvanceAhead | Logic/Entities/Ghost.cpp:161-172 | a ghost that does not reach the centre moves its full distance and consumes no random draw |
| Ghosts.Stepped | Logic/Entities/Ghost.cpp:69-179 | an update never changes a ghost's kind, size, base speed, start point or original wait time |
| Ghosts.SpeedInvariant | Logic/Entities/Ghost.cpp:25-104 | every operation keeps the speed equal to the base speed scaled for the state (half when feared, 2.5 times when dead) |
| Ghosts.DespawnedIsFrozen | Logic/Entities/Ghost.cpp:73-77 | a despawned ghost does not change and consumes no random draw |
| Ghosts.WaitingCountsDown | Logic/Entities/Ghost.cpp:79-82 | a waiting ghost counts its timer down and starts chasing once it reaches zero |
| Ghosts.FearExpires | Logic/Entities/Ghost.cpp:83-88 | fear counts down and, once it runs out, the ghost chases again at base speed |
| Ghosts.DeadSnapsToChasing | Logic/Entities/Ghost.cpp:94-100 | a dead ghost within 0.1 of its spawn point lands on it and chases at once, with no wait |
| Ghosts.DeadMovesTowardSpawn | Logic/Entities/Ghost.cpp:101-104 | a dead ghost farther away moves straight toward its spawn point at 2.5 times its speed |
| Ghosts.MovementStaysOnGrid | Logic/Entities/Ghost.cpp:109-176 | a chasing or feared ghost ends each update on the centre line of its column or row, heading the old way or a valid way |
| Ghosts.Ghost.constructor | Logic/Entities/Ghost.cpp:11-13 | the fields hold `NewGhost` |
| Ghosts.Ghost.SetFeared | Logic/Entities/Ghost.cpp:25-35 | the fields change as `Frightened` states |
| Ghosts.Ghost.Die | Logic/Entities/Ghost.cpp:37-41 | the fields change as `Killed` states |
| Ghosts.Ghost.Despawn | Logic/Entities/Ghost.cpp:43-47 | the fields change as `Hidden` states |
| Ghosts.Ghost.ResetForPacmanDeath | Logic/Entities/Ghost.cpp:49-58 | the fields change as `ResetForDeath` states |
| Ghosts.Ghost.SetBaseSpeed | Logic/Entities/Ghost.h:69 | the fields change as `WithBaseSpeed` states |
| Ghosts.Ghost.ChooseDirection | Logic/Entities/Ghost.cpp:112-113 | returns the choice `Choice` specifies |
| Ghosts.Ghost.Update | Logic/Entities/Ghost.cpp:69-179 | the fields change as `Stepped` states, including the DEAD branch's position update |
| Ghosts.Ghost.RunTimers | Logic/Entities/Ghost.cpp:79-88 | the waiting and fear timers change as the update's first phase states |
| Ghosts.Ghost.ReturnToSpawn | Logic/Entities/Ghost.cpp:89-107 | a dead ghost's fields change as the return to spawn states |
| Ghosts.Ghost.Move | Logic/Entities/Ghost.cpp:109-176 | the fields change as `Travel` states |
| Ghosts.Ghost.Step | Logic/Entities/Ghost.cpp:116-176 | the fields change as `Advance` states, case by case |
| Ghosts.Ghost.ChooseAgain | Logic/Entities/Ghost.cpp:140-141 | the direction becomes the brain's or the random choice |
| Ghosts.Ghost.MoveBy | Logic/Entities/Ghost.cpp:155-170 | the ghost moves by the distance along its direction |
| Ghosts.Ghost.LockAxis | Logic/Entities/Ghost.cpp:174-176 | the ghost snaps to the centre line as `AxisLock` states |
| Ghosts.Ghost.Ask | Logic/Entities/Ghost.h:51-55 | a ghost reports its direction, that it moves whenever it has one, its state number, fear timer and sprite id |
| Player.NewPacman | Logic/Entities/Pacman.h:10-26 | a new Pacman has three lives, stands still with no direction and an empty buffer, is not dying, has a zero death timer, keeps the given size, and spawns where he is created |
| Player.Directed | Logic/Entities/Pacman.cpp:7-12 | when Pacman is alive and the value is a direction or ' ', the direction becomes that value and nothing else changes; otherwise nothing changes |
| Player.Queued | Logic/Entities/Pacman.cpp:14-19 | when Pacman is alive and the value is a direction, the buffered direction becomes that value and nothing else changes; otherwise nothing changes |
| Player.Died | Logic/Entities/Pacman.cpp:21-31 | dying once costs a life, stops Pacman and starts the death timer, keeping position, size and spawn point; a dying Pacman is unaffected |
| Player.DeathAdvanced | Logic/Entities/Pacman.cpp:33-40 | the death timer grows by dt while dying, nothing else changes, and a live Pacman is unaffected |
| Player.Respawned | Logic/Entities/Pacman.cpp:46-57 | respawning puts Pacman back on his spawn point, standing, alive, with his lives and size kept and his inputs cleared |
| Player.WithMoving | Logic/Entities/Pacman.h:30 | only the moving flag changes |
| Player.Updated | Logic/Entities/Pacman.cpp:59-88 | while dying only the death timer runs; without a direction nothing changes; an update never changes lives, direction or buffer |
| Player.UpdateMovesAlongDirection | Logic/Entities/Pacman.cpp:70-86 | a live Pacman with a direction moves exactly speed times dt along one axis, in the sense of his direction, and is moving |
| Player.InputIgnoredWhileDying | Logic/Entities/Pacman.cpp:7-19 | a dying Pacman ignores both direction changes and buffered input |
| Player.DieTwiceCostsOneLife | Logic/Entities/Pacman.cpp:21-31 | dying again during the animation costs no second life |
| Player.DeathTimerAccumulates | Logic/Entities/Pacman.cpp:33-40 | over any series of frames the death timer grows by their total length and the lives stay |
| Player.DeathCompletesAfterDuration | Logic/Entities/Pacman.cpp:42-44 | once frames totalling the animation length have passed since death, the animation is complete |
| Player.Pacman.constructor | Logic/Entities/Pacman.h:25-26 | the fields hold `NewPacman` |
| Player.Pacman.SetDirection | Logic/Entities/Pacman.cpp:7-12 | the fields change as `Directed` states |
| Player.Pacman.QueueDirection | Logic/Entities/Pacman.cpp:14-19 | the fields change as `Queued` states |
| Player.Pacman.Die | Logic/Entities/Pacman.cpp:21-31 | the fields change as `Died` states |
| Player.Pacman.UpdateDeath | Logic/Entities/Pacman.cpp:33-40 | the fields change as `DeathAdvanced` states |
| Player.Pacman.Respawn | Logic/Entities/Pacman.cpp:46-57 | the fields change as `Respawned` states |
| Player.Pacman.SetPosition | Logic/Entities/Entity.cpp:12-15 | only the position changes |
| Player.Pacman.SetMoving | Logic/Entities/Pacman.h:30 | the fields change as `WithMoving` states |
| Player.Pacman.Update | Logic/Entities/Pacman.cpp:59-88 | the fields change as `Updated` states |
| Player.Pacman.Ask | Logic/Entities/Pacman.h:28-36 | Pacman reports his direction, moving flag, dying flag and lives, and the defaults for the state number, state timer and sprite id |
| Scoring.CoinPoints | Logic/Score.h:309-316 | a coin is worth 30 within a second of the last, 20 within three seconds, 10 after that |
| Scoring.CoinPointsMonotone | Logic/Score.h:309-316 | a later coin is never worth more |
| Scoring.Apply | Logic/Score.h:305-420 | a tick only adds the frame to the timer; a coin adds 30, 20 or 10 points rated on the timer plus the frame, from any timer, and zeroes the timer; a fruit adds 50 and zeroes the combo; a ghost raises the combo by one and adds 200 times the new combo; a death keeps the total and zeroes combo and timer; a level clear adds 500 and zeroes combo and timer; reset restores the initial score; no event but reset lowers the total |
| Scoring.ComboResetOnlyByFruitDeathClearOrReset | Logic/Score.h:336-420 | only fruit, death, level clear and reset lower the ghost combo |
| Scoring.ComboZeroedByFruitDeathClearOrReset | Logic/Score.h:336-420 | fruit, death, level clear and reset each set the ghost combo to zero |
| Scoring.ScoreNeverDecreases | Logic/Score.h:305-402 | over any series of events without a reset the total never falls |
| Scoring.Repeat | Logic/Score.h:356-361 | the list of k copies of an event has length k and holds only that event |
| Scoring.GhostRun | Logic/Score.h:356-361 | k ghosts in a row raise the combo by k and add 200 times the combo's successive values: an arithmetic, not doubling, series |
| Scoring.FourGhostsEarn2000 | Logic/Score.h:356-361 | four ghosts in one fear period earn 2000 points |
| Scoring.CoinRatedOnTwiceTheFrame | Logic/Score.h:305-402 | in a frame that collects a coin, the coin is rated on the timer plus twice the frame's length, and the timer ends at zero |
| Scoring.Score.constructor | Logic/Score.h:275 | score, coin timer and combo start at zero |
| Scoring.Score.OnCoinCollected | Logic/Score.h:305-326 | the fields change as `Apply` of a coin states |
| Scoring.Score.OnFruitCollected | Logic/Score.h:336-340 | the fields change as `Apply` of a fruit states |
| Scoring.Score.OnGhostEaten | Logic/Score.h:356-361 | the fields change as `Apply` of a ghost states |
| Scoring.Score.OnPacmanDied | Logic/Score.h:372-376 | the fields change as `Apply` of a death states |
| Scoring.Score.OnLevelCleared | Logic/Score.h:386-391 | the fields change as `Apply` of a level clear states |
| Scoring.Score.Update | Logic/Score.h:400-402 | the coin timer grows by the frame's length |
| Scoring.Score.ResetScore | Logic/Score.h:416-420 | all three fields return to zero |
| Scoring.Insert | Logic/Score.h:155-158 | inserting an entry adds exactly that entry |
| Scoring.InsertSorted | Logic/Score.h:155-158 | inserting into a list sorted highest first keeps it sorted |
| Scoring.InsertBounded | Logic/Score.h:155-158 | insertion adds no score above a bound all entries respect |
| Scoring.SortedCons | Logic/Score.h:155-158 | an entry at least as high as all of a sorted list can lead it |
| Scoring.SortDesc | Logic/Score.h:155-158 | sorting yields a permutation sorted highest first (equal scores in a fixed order, see Left out) |
| Scoring.TopFive | Logic/Score.h:159-161 | trimming keeps the first five entries, or all of them when there are fewer |
| Scoring.TopFiveOfSorted | Logic/Score.h:159-161 | trimming a sorted list keeps it sorted and drops only entries no higher than any kept one |
| Scoring.SuffixBelowPrefix | Logic/Score.h:155-161 | in a sorted list every entry after a prefix is no higher than any entry in it |
| Scoring.AddedIsTopFive | Logic/Score.h:153-163 | after adding a score the table is sorted, has at most five entries, holds only old entries and the new one, and every dropped entry is no higher than any kept one |
| Scoring.InsertLowest | Logic/Score.h:155-158 | an entry no higher than all others goes last |
| Scoring.SortDescOfSorted | Logic/Score.h:155-158 | sorting a sorted list leaves it unchanged |
| Scoring.InsertAboveLast | Logic/Score.h:155-158 | an entry above the last one is inserted before it |
| Scoring.AddedToSorted | Logic/Score.h:153-163 | for a sorted table, adding a score is inserting it after the entries that score at least as much and trimming to five |
| Scoring.HighScoreAdmitted | Logic/Score.h:188-191 | a score that qualifies is kept; it joins a short table or replaces the last entry of a full one |
| Scoring.LowScoreRejected | Logic/Score.h:188-191 | adding a score that does not qualify leaves a full table unchanged when the new entry sorts after those it ties with |
| Scoring.ScoreColumn | Logic/Score.h:155-158 | the column holds each entry's score in the table's order |
| Scoring.NonIncreasingUnique | Logic/Score.h:155-158 | two lists of scores, both highest first, with the same values are equal |
| Scoring.SortedPermutationsAgree | Logic/Score.h:155-158 | every order std::sort may give a table has the same score column; ties only exchange entries of equal score |
| Scoring.AnySortIsTopFive | Logic/Score.h:153-163 | whatever order std::sort gives equal scores, the table is sorted, has min(5, n + 1) entries from the old table and the new one, and drops nothing above an entry it keeps |
| Scoring.AnySortSameScores | Logic/Score.h:153-163 | whatever order std::sort gives equal scores, the table's score column is the one `Added` gives |
| Scoring.HighScoreAdmittedAnySort | Logic/Score.h:188-191 | whatever order std::sort gives equal scores, a qualifying score is kept; a full table drops one old entry that scores as its fifth place, the fifth place itself when it scored below the fourth |
| Scoring.FullTableAdmitted | Logic/Score.h:153-163 | on a full table the dropped entry is an old one scoring as the fifth place, and the table is the old one with it exchanged for the new entry |
| Scoring.LowScoreRejectedAnySort | Logic/Score.h:188-191 | whatever order std::sort gives equal scores, a score that does not qualify leaves a full table's score column unchanged, and its entries too when it scores below the fifth place |
| Scoring.ScoreManager.constructor | Logic/Score.h:135-137 | the table is what the scores file holds |
| Scoring.ScoreManager.AddScore | Logic/Score.h:153-163 | the table becomes the sorted top five with the new entry, and the file is overwritten with it |
| Scoring.ScoreManager.GetTopScores | Logic/Score.h:173-177 | the table is reloaded from the file, and the first `count` entries are returned, or all of them when there are fewer |
| TileMotion.StandingAt | Logic/World.cpp:80-83 | Pacman stands on the tile with no progress, direction or buffered input |
| TileMotion.TileStep | Logic/World.cpp:430-572 | after the movement step Pacman is moving exactly when he has a direction, and his drawing position is the interpolated one |
| TileMotion.StandingStartIsValid | Logic/World.cpp:80-83 | standing on a free tile satisfies the movement invariant: progress below one, not in a wall, never heading into one |
| TileMotion.TileStepKeepsInv | Logic/World.cpp:430-572 | every movement step keeps that invariant: Pacman never enters a wall |
| TileMotion.CentreSteering | Logic/World.cpp:479-521 | at a tile centre a buffered turn is taken exactly when it leads to a free tile; Pacman keeps going while his way is free and stops at a wall |
| TileMotion.ReversalKeepsPosition | Logic/World.cpp:442-476 | a reversal between tiles moves to the next tile, flips the direction and the progress, and leaves the drawing position unchanged |
| TileMotion.FreeRunning | Logic/World.cpp:525-543 | between centres progress grows by five tiles per second and rolls over to the next tile at one |
| TileMotion.RenderBetweenCentres | Logic/World.cpp:546-567 | the drawing position is the tile's centre when standing or at a centre, and otherwise on the segment to the next tile's centre |
| TileMotion.DirectionStaysInSync | Logic/World.cpp:430-572 | Pacman's own direction stays equal to the movement direction the world keeps |
| LevelMap.ItemOf | Logic/World.cpp:74-91 | only the characters #, 0, f, P, R, I, B and O place something; R, I, B and O place ghosts |
| LevelMap.KindCharRoundTrip | Logic/World.cpp:86-87 | each ghost kind has exactly one map character |
| LevelMap.RowStep | Logic/World.cpp:72-93 | reading a line one character further places that character on the next tile |
| LevelMap.RowsStep | Logic/World.cpp:71-95 | reading one more line reads it on the next row |
| LevelMap.PlaceHas | Logic/World.cpp:74-91 | one character adds its item on its tile and nothing else |
| LevelMap.RowHas | Logic/World.cpp:72-93 | a line adds an item exactly on the tiles whose character places it |
| LevelMap.RowsHas | Logic/World.cpp:71-95 | a map adds an item exactly on the tiles whose character places it |
| LevelMap.LoadedExactly | Logic/World.cpp:74-88 | a wall, coin, fruit or ghost of a kind is on a tile exactly when the map's character there is #, 0, f or the kind's letter |
| LevelMap.LastPlayer | Logic/World.cpp:77-84 | finds the column of the last P in a line, if any |
| LevelMap.RowPlayer | Logic/World.cpp:77-84 | within a line the last P decides the start tile |
| LevelMap.PlacePlayer | Logic/World.cpp:77-84 | only a P moves the start tile |
| LevelMap.RowsPlayer | Logic/World.cpp:71-95 | across a map the start tile is the last P in reading order; a map without one changes nothing |
| LevelMap.HoldsLast | Logic/World.cpp:71-95 | a map's characters are those of its lines but the last, plus the last line's |
| WorldRules.StockedPlace | Logic/World.cpp:74-91 | turning a layout into world objects agrees with placing each character's object directly |
| WorldRules.StockedWall | Logic/World.cpp:75 | the same for a wall |
| WorldRules.StockedCoin | Logic/World.cpp:76 | the same for a coin |
| WorldRules.StockedFruit | Logic/World.cpp:85 | the same for a fruit |
| WorldRules.StockedSpawn | Logic/World.cpp:86-88 | the same for a ghost |
| WorldRules.StockedPlayer | Logic/World.cpp:77-84 | the same for Pacman |
| WorldRules.TileWidth | Logic/World.cpp:64-66 | the tile width is positive |
| WorldRules.TileHeight | Logic/World.cpp:65-67 | the tile height is positive |
| WorldRules.TilesSpanScreen | Logic/World.cpp:64-67 | the map's columns and rows exactly span the world's width and height of 2 |
| WorldRules.Loaded | Logic/World.cpp:55-104 | loading sizes the tiles, adds ghosts, stops the game, and leaves a Pacman exactly when there was one or the map has a P |
| WorldRules.LoadedGhosts | Logic/World.cpp:86-88 | loading keeps existing ghosts and appends only waiting ghosts with consistent speed |
| WorldRules.TileBoxInjective | Logic/World.cpp:408-412 | different tiles have different boxes |
| WorldRules.TileBoxesHas | Logic/World.cpp:75-85 | a tile's box is among the boxes of a tile list exactly when the tile is |
| WorldRules.TileBoxesAppend | Logic/World.cpp:75-85 | boxes of an appended tile list are the boxes appended |
| WorldRules.SpawnedAppend | Logic/World.cpp:86-88 | each spawn creates a ghost of its kind at its tile's centre |
| WorldRules.LoadedContents | Logic/World.cpp:74-91 | after loading, a tile holds a wall, coin or fruit exactly when it did before or the map places one there |
| WorldRules.LoadedPlayer | Logic/World.cpp:77-84 | a map with a P yields a new Pacman with three lives at the centre of the last P, standing on a free tile |
| WorldRules.ResetAll | Logic/World.cpp:119-122 | every ghost is reset and none is added or lost |
| WorldRules.ResetPositions | Logic/World.cpp:106-127 | a reset keeps Pacman |
| WorldRules.ResetEffects | Logic/World.cpp:106-127 | after a reset Pacman stands alive on his spawn point with his lives, every ghost waits at its start with its original timer, the game waits for a key, and coins, fruits, score and level are kept |
| WorldRules.LevelSpeedIncreases | Logic/World.cpp:145-146 | ghost speed is 0.30 on level one and grows with every level |
| WorldRules.Rebased | Logic/World.cpp:161-163 | every ghost gets the new speed and none is added or lost |
| WorldRules.Restocked | Logic/World.cpp:155-167 | reloading keeps a Pacman |
| WorldRules.NextLevel | Logic/World.cpp:137-170 | the next level keeps a Pacman |
| WorldRules.NextLevelEffects | Logic/World.cpp:137-170 | the next level adds 500 points and resets the combo; the level number grows by one; all ghosts wait at the level's speed; coins and fruits are exactly the map's; walls are appended once more; the game waits for a key |
| WorldRules.NextLevelCompleteIffNoCoins | Logic/World.cpp:150-155 | the new level is complete at once exactly when the map has no coin |
| WorldRules.Unblocked | Logic/World.cpp:336-339 | the directions kept are exactly those whose next tile has no wall |
| WorldRules.Without | Logic/World.cpp:341-344 | removing the reverse direction removes only it, and at most one element from a list without duplicates |
| WorldRules.UnblockedDistinct | Logic/World.cpp:336-339 | filtering keeps a list free of duplicates |
| WorldRules.ValidMovesExact | Logic/World.cpp:336-344 | a direction is offered to a ghost exactly when it is not walled off and, if there is more than one open way, is not a reversal; a ghost with an open way is always offered one |
| WorldRules.HideAll | Logic/World.cpp:327-329 | every ghost is despawned and none is added or lost |
| WorldRules.GhostTurn | Logic/World.cpp:319-347 | one ghost's turn keeps the number of ghosts and their invariants and never lowers the score; when Pacman is caught, all ghosts are despawned |
| WorldRules.ChaseFrom | Logic/World.cpp:318-348 | the same for the rest of the ghost pass |
| WorldRules.ChaseCaughtAt | Logic/World.cpp:324-333 | touching a chasing ghost ends the pass at once with all ghosts despawned |
| WorldRules.Chase | Logic/World.cpp:318-348 | the whole ghost pass keeps the ghosts and never lowers the score; a catch despawns every ghost |
| WorldRules.Kept | Logic/World.cpp:351-358 | collection never adds a pickup; a single pickup is removed exactly when Pacman's box touches it |
| WorldRules.KeptAppend | Logic/World.cpp:351-372 | removal is stable: the pickups left from a concatenated list are those left from its first part followed by those left from its second |
| WorldRules.KeptExact | Logic/World.cpp:351-372 | exactly the pickups Pacman does not reach are kept, and at least one goes when he reaches one |
| WorldRules.TimesNeverDecreases | Logic/World.cpp:351-372 | repeating a scoring event never lowers the total |
| WorldRules.FrightenAll | Logic/World.cpp:368 | every ghost is frightened and none is added or lost |
| WorldRules.FrightenedTimes | Logic/World.cpp:361-372 | frightening once per fruit keeps the ghosts |
| WorldRules.FrightenedTimesEffect | Logic/World.cpp:361-372 | after at least one fruit every chasing or feared ghost is feared for five seconds; dead and waiting ghosts are unchanged |
| WorldRules.Steered | Logic/World.cpp:315 | the movement step keeps Pacman |
| WorldRules.Play | Logic/World.cpp:315-386 | a played frame consumes random draws and keeps Pacman |
| WorldRules.DeathStep | Logic/World.cpp:262-281 | the death animation keeps Pacman |
| WorldRules.Frame | Logic/World.cpp:254-393 | a frame consumes random draws and keeps Pacman |
| WorldRules.PickupsKeepValid | Logic/World.cpp:351-386 | collection keeps the world invariant and never lowers the score |
| WorldRules.PlayKeepsValid | Logic/World.cpp:315-386 | a played frame keeps the world invariant and never lowers the score |
| WorldRules.FrameKeepsValid | Logic/World.cpp:254-393 | every frame keeps the world invariant (positive tile size, combo not negative, ghosts with consistent speed) and never lowers the score |
| WorldRules.GameOverIsFinal | Logic/World.cpp:133-281 | once the game is over every later frame keeps it over and keeps the lives, ghosts, coins, fruits, total and Pacman's movement, and consumes no random draw |
| WorldRules.IdleUntilKeyPress | Logic/World.cpp:284-312 | before a key is pressed a frame only advances the coin timer and consumes no random draw |
| WorldRules.DeathCostsOneLife | Logic/World.cpp:324-333 | if Pacman dies in a frame he loses exactly one life, fruit mode ends, all ghosts despawn and no coin or fruit is taken; otherwise his lives are unchanged |
| WorldRules.PickupsExact | Logic/World.cpp:351-386 | exactly the coins and fruits Pacman does not reach remain, in their order; fruit mode holds only while some ghost is feared, and holds after a fruit while one is |
| WorldRules.FruitFrightens | Logic/World.cpp:361-372 | reaching a fruit frightens every chasing or feared ghost for five seconds and starts fruit mode |
| WorldRules.EatingFearedGhost | Logic/World.cpp:321-323 | touching a feared ghost earns 200 times the new combo, kills that ghost and leaves the others alone |
| Game.EatCoins | Logic/World.cpp:351-358 | the erase loop keeps exactly the coins Pacman does not reach and scores one coin event per coin taken |
| Game.World.constructor | Logic/World.cpp:42-53 | a new world is the map loaded into an empty world, satisfies the world invariant, and has a Pacman when the map has a P |
| Game.World.InitializeLevel | Logic/World.cpp:55-104 | the fields change as `Loaded` states |
| Game.World.SizeTiles | Logic/World.cpp:64-67 | only the tile size changes |
| Game.World.ReadMap | Logic/World.cpp:69-95 | reading every line adds the objects of the whole map |
| Game.World.ReadLine | Logic/World.cpp:72-93 | reading a line adds that line's objects |
| Game.World.ReadChar | Logic/World.cpp:74-92 | reading a character adds its object |
| Game.World.PlaceChar | Logic/World.cpp:74-91 | the switch adds the object the character names |
| Game.World.AddPacman | Logic/World.cpp:77-84 | a new Pacman stands at the tile's centre |
| Game.World.StandAt | Logic/World.cpp:80-83 | Pacman's movement state restarts on the tile |
| Game.World.AddGhost | Logic/World.cpp:86-88 | a new waiting ghost of the kind is appended |
| Game.World.ResetGhosts | Logic/World.cpp:119-122 | the loop resets every ghost |
| Game.World.DespawnGhosts | Logic/World.cpp:327-329 | the loop despawns every ghost |
| Game.World.FrightenGhosts | Logic/World.cpp:368 | the loop frightens every ghost |
| Game.World.RebaseGhosts | Logic/World.cpp:161-163 | the loop sets every ghost's speed |
| Game.World.ResetPositions | Logic/World.cpp:106-127 | the fields change as `ResetPositions` states |
| Game.World.RespawnPacman | Logic/World.cpp:110-116 | Pacman respawns and his movement restarts on his tile |
| Game.World.NextLevel | Logic/World.cpp:137-170 | the fields change as `NextLevel` states |
| Game.World.Restock | Logic/World.cpp:150-155 | the fields change as `Restocked` states |
| Game.World.RebaseAll | Logic/World.cpp:161-163 | every ghost gets the new speed and nothing else changes |
| Game.World.Reawaken | Logic/World.cpp:165-167 | Pacman respawns and the game waits for a key |
| Game.World.ClearLevel | Logic/World.cpp:141-152 | the level clear is scored, the level number grows, and coins, fruits and ghosts are cleared while walls stay |
| Game.World.GetLives | Logic/World.cpp:129-131 | Pacman's lives, or 0 without a Pacman |
| Game.World.IsGameOver | Logic/World.cpp:133-135 | the game is over exactly when there is a Pacman, he has no lives left, he is dying and his death animation is complete |
| Game.World.IsLevelComplete | Logic/World.h:128 | the level is complete exactly when no coin is left |
| Game.World.GetScore | Logic/World.h:125 | the score's running total |
| Game.World.GetCurrentLevel | Logic/World.h:127 | the level number |
| Game.World.LatchInput | Logic/World.cpp:432-434 | a key other than '\0' and ' ' is buffered |
| Game.World.SteerPacman | Logic/World.cpp:440-521 | the fields change as the reversal and centre steering states |
| Game.World.ReversePacman | Logic/World.cpp:442-476 | the fields change as the instant reversal states |
| Game.World.SetMotion | Logic/World.cpp:459-473 | only the movement state changes |
| Game.World.TurnPacman | Logic/World.cpp:481-500 | the fields change as the buffered turn states |
| Game.World.StopPacman | Logic/World.cpp:503-521 | the fields change as stopping at a wall states |
| Game.World.AdvancePacman | Logic/World.cpp:525-543 | the fields change as the advance along the direction states |
| Game.World.PlacePacman | Logic/World.cpp:546-570 | Pacman is drawn at the interpolated position |
| Game.World.UpdatePacmanTileBased | Logic/World.cpp:430-572 | the fields change as `Steered` states |
| Game.World.RunGhosts | Logic/World.cpp:318-348 | the ghost loop computes `Chase`; on a catch the world takes the caught state, otherwise the ghosts and score of the pass |
| Game.World.PassGhosts | Logic/World.cpp:319-347 | the loop over the ghosts agrees with `Chase` up to the ghost that catches Pacman, if any |
| Game.World.MeetGhost | Logic/World.cpp:320-346 | one ghost's contact check and move agree with the rest of the pass |
| Game.World.TurnGhost | Logic/World.cpp:320-346 | a ghost's turn without a catch changes the ghost and score as `GhostTurn` states |
| Game.World.CatchPacman | Logic/World.cpp:324-333 | Pacman dies, every ghost despawns and fruit mode ends |
| Game.World.KillPacman | Logic/World.cpp:325 | Pacman dies |
| Game.World.CollectCoins | Logic/World.cpp:351-358 | the fields change as coin collection states |
| Game.World.CollectFruits | Logic/World.cpp:361-372 | the fields change as fruit collection states |
| Game.World.EatFruits | Logic/World.cpp:361-372 | the erase loop keeps exactly the fruits Pacman does not reach, scores one fruit and frightens every ghost once per fruit taken, and reports whether one was taken |
| Game.World.CheckFruitMode | Logic/World.cpp:375-386 | fruit mode ends when no ghost is feared |
| Game.World.Update | Logic/World.cpp:254-393 | the fields change as `Frame` states, and the world stays ready |
| Game.World.TickScore | Logic/World.cpp:259 | the coin timer runs |
| Game.World.AnimateDeath | Logic/World.cpp:262-281 | the fields change as `DeathStep` states |
| Game.World.PlayDeath | Logic/World.cpp:263 | Pacman's death animation runs |
| Game.World.ScoreDeath | Logic/World.cpp:267 | the death is scored |
| Game.World.PassGates | Logic/World.cpp:284-312 | play goes on exactly when a key is pressed or the game runs, and a key press starts the game |
| Game.World.PlayFrame | Logic/World.cpp:315-386 | the fields change as `Play` states |
| Game.World.CollectPickups | Logic/World.cpp:351-386 | the fields change as coin and fruit collection and the fruit mode check state |
| Render.Camera.constructor | Representation/Camera.cpp:10-11 | the camera has the given window size |
| Render.Camera.Scale | Representation/Camera.cpp:15 | the scale is the smaller window dimension |
| Render.Camera.WorldToScreenSize | Representation/Camera.cpp:29-34 | a non-negative size maps to a non-negative length, which is zero exactly when the size or the scale is |
| Render.Camera.WorldToScreen | Representation/Camera.cpp:13-27 | a point maps to the centring offset plus the screen length of its distance from the world's left or top edge |
| Render.Camera.SetWindowSize | Representation/Camera.cpp:36-39 | the window size changes |
| Render.CornersMapToSquare | Representation/Camera.cpp:13-27 | the world's corners map to the corners of the centred square of the scale's size |
| Render.OriginMapsToCentre | Representation/Camera.cpp:13-27 | the world's origin maps to the window's centre |
| Render.WorldToScreenIncreasing | Representation/Camera.cpp:13-27 | in a non-empty window the mapping is strictly increasing on both axes |
| Render.WorldInsideWindow | Representation/Camera.cpp:13-27 | every point of the world maps inside the window |
| Render.SizeWithinScale | Representation/Camera.cpp:29-34 | sizes up to the world's width map to at most the scale |
| Render.DifferenceIsScreenSize | Representation/Camera.cpp:13-34 | the screen distance between two points is the screen size of their world distance |

## Left out

- Reading files: the map file (`../assets/Map1`) is given as its lines, and the scores file is the
  `saved` field of `ScoreManager`. The exceptions for a file that does not open, and all console
  output and logging, are not modelled.
- The observer callbacks the entities and the world trigger (`notify` on every entity, every frame)
  are not modelled inside the world. `Observers.Subject` models the list and which observers a
  notification reaches; what a view does when notified belongs to the views, which are not part of
  this model.
- The stopwatch: the frame length `dt` is a parameter.
- The random generator's distribution: it is modelled as a stream of draws, so the model says which
  values can come out, not how likely they are.
- `std::sqrt`: the distance to the spawn point uses a function parameter `root`. Nothing is assumed
  about it, and the lemmas about a dead ghost are stated in terms of it.
- The tolerance in the wall tests (`isTileWall`, `checkGhostWallCollision`): the tests are tile
  membership, which agrees with the game only on maps with at most 10/3 times as many lines as
  columns (4 times for the ghost test). Taller maps, where a wall one line away also matches, are not
  modelled.
- `Scoring.SortDesc`: sorts stably, placing the new entry after every entry with an equal score.
  std::sort leaves the order of equal scores unspecified. The order-independent statements are
  `Scoring.AnySortIsTopFive`, `Scoring.AnySortSameScores`, `Scoring.HighScoreAdmittedAnySort` and
  `Scoring.LowScoreRejectedAnySort`, which hold for every order std::sort may produce.
- `Scoring.SortDescOfSorted`: holds for the stable order only; std::sort may reorder equal scores
  of an already sorted table.
- `Scoring.AddedToSorted`: holds for the stable order only; under std::sort the new entry may land
  anywhere among the entries it ties with.
- `Scoring.HighScoreAdmitted`: its full-table clause (the old first four survive) holds for the
  stable order only; `Scoring.HighScoreAdmittedAnySort` states what holds for every order.
- `Scoring.LowScoreRejected`: holds for the stable order only; under std::sort a new entry that ties
  the fifth place may displace it, and `Scoring.LowScoreRejectedAnySort` states what holds then.
- `Scoring.ScoreManager.AddScore`: the new table is `Added`, that is the stable order among equal
  scores.
- `Scoring.Apply`: the total is unbounded here, but `currentScore` in `Scoring.Score` is a 32-bit
  `int` in the game, so overflow past 2147483647 is not modelled.
- `World::wouldCollide` is not modelled because nothing in the game calls it.
- Floating-point rounding: `float` is modelled as exact `real` arithmetic.
- The factory and the views, which create and draw the entities; `difficulty` and `levelCleared`,
  which the world never reads.
- `countLines`, `getWidth` and the reading loop's `\r` handling are modelled by the map's line list:
  the width is the first line's length and the height the number of lines.
- `GhostAI.ManhattanNearlyOptimal`: the chosen move is proved within two tolerances (0.002) of the
  best, not within one. The scan compares each move with a running minimum that can itself move by
  up to one tolerance. `GhostAI.TieSetCanExceedOneTolerance` shows two kept moves more than one
  tolerance apart, and `GhostAI.NearTieCanBeDropped` shows a move within one tolerance of the
  minimum that is not kept.
- `GhostAI.GetBestManhattanDirection`: the fallback `return valid[0]` for an empty set of best moves,
  and the red ghost's final `return valid[0]`, can never be reached, so the model has no such branch.
