# Flappy-bird simulation core, modelled in Dafny

This project models the simulation core of a browser game, a single file called `script.js`. In the game, a bird falls under gravity and the player flaps it with the space key. It has to pass through a stream of gapped obstacles while clouds, mountains and trees scroll by. The model covers the following:

- the game state: bird, obstacles, clouds, mountains, trees, frame counter, score, and the game-over and game-started flags;
- the procedures that change that state each frame: `updateClouds`, `updateBackground`, `updateBird`, `updateObstacles` and `checkCollision`;
- the update block of `gameLoop`, which runs those procedures in order and then advances the frame counter;
- `resetGame`, `restartGame` and `startGame`;
- the branches of `handleKeyDown`.

The project has two layers.

- `simulation.dfy` (module `Simulation`) describes the game as values. A `State` datatype holds the state, and there is one function per procedure. `Tick` is one frame. `Run` is any number of frames. `HandleKeyDown` handles a key press. The invariants are stated here too:
  - obstacles come in top/bottom pairs that fill the field height apart from a 150-unit gap;
  - every item still reaches into the field;
  - items are in screen order, no further right than the canvas width;
  - the score equals the number of obstacle spawns, that is `(frameCount + 89) / 90`.

  Lemmas in this layer prove that every frame and every key press preserves these invariants.
- `game.dfy` (module `GameState`) is the game as the program keeps it. It is a class `Game` whose fields are the program's module-level variables. Each method changes those fields in place the way the corresponding procedure does:
  - it pushes new items;
  - it moves every item in a loop;
  - it replaces each list with its filtered copy;
  - it scans the obstacles in a loop to detect a collision.

  Each method is proved to leave exactly the state that the matching `Simulation` function computes from the old state.

`entities.dfy` (module `Entities`) holds the constants, the item records, the strict bounding-box overlap test and the obstacle-pair spawn. `sequences.dfy` (module `Sequences`) holds the generic map, filter and scroll operations and their facts about order. It also has the two loops, `MoveEach` (a `forEach` that moves items in place) and `KeepWhere` (an array `filter`), each proved against its specification function.

The environment becomes parameters:

- **Canvas size.** `W` and `H` are integer parameters. `ValidField` requires `W >= 0` and `H > 150`, so that the gap fits.
- **Random values.** Every value a frame draws with `Math.random` arrives in a `Draws` record, with the range the code draws it from:
  - obstacle top height: an integer in `[0, H - 150)`, because of `Math.floor`;
  - cloud `y`: in `[0, H/2)`;
  - cloud radius: in `[20, 50)`;
  - mountain height: in `[50, 150)`;
  - tree height: in `[20, 60)`.

The bird's coordinates are modelled as reals, because they change in steps of 0.5. Obstacle and scenery x positions start at the integer canvas width and move by 3 or 2 per frame, so they are integers.

Consequences of the code's ordering:

- **Update order.** The update block runs clouds, then mountains and trees, then the bird, then obstacles, then the collision check (script.js:247-251).
- **Restart.** `restartGame` and `startGame` call `gameLoop` synchronously right after `resetGame` (script.js:232-233, 35-36), so one frame runs at once. Right after a restart of a started game:
  - the score is 1;
  - the frame counter is 1;
  - there is one pair of obstacles and one of each scenery item.

  `Simulation.RestartBeginsFresh` states this.
- **Score.** The first obstacle pair spawns on frame 0 (script.js:174-179). So the score after `n` frames of a running game is `(n + 89) / 90`: 1 after 90 frames and 2 after 91 frames.
- **Game over.** Game over does not stop the frame loop. `gameLoop` reschedules itself after the updates (script.js:258), even on the frame that cancelled the pending handle. Every later frame skips the update block, so the state is frozen, which is what `Tick` and `Simulation.RunFrozen` state.

## Model

| member | source | states |
|---|---|---|
| Simulation.Initial | script.js:12-22 | no contract of its own; the page-load state, stated by GameState.Game.constructor |
| Simulation.Reset | script.js:47-55 | no contract of its own; stated by Simulation.ResetEstablishesInv, Simulation.ResetForgetsHistory and GameState.Game.ResetGame |
| Simulation.UpdateClouds | script.js:118-129 | no contract of its own; stated by Simulation.UpdateCloudsSpawnsAndScrolls and Simulation.UpdateCloudsKeepsLayout |
| Simulation.UpdateBackground | script.js:95-116 | no contract of its own; stated by Simulation.UpdateBackgroundSpawnsAndScrolls and Simulation.UpdateBackgroundKeepsLayout |
| Simulation.UpdateObstacles | script.js:173-187 | no contract of its own; stated by Simulation.UpdateObstaclesSpawnsAndScrolls and Simulation.UpdateObstaclesKeepsLayout |
| Simulation.Restart | script.js:229-234 | no contract of its own; stated by Simulation.RestartBeginsFresh |
| Sequences.Map | script.js:106-112 | no contract of its own; the forEach moves (also script.js:124-126 and 182-184), stated by Sequences.MoveEach and Simulation.PairedMove |
| Sequences.Filter | script.js:114-115 | every survivor passes the test and there are no more survivors than inputs; the culls (also script.js:128 and 186), further stated by the Filter lemmas and Sequences.KeepWhere |
| Entities.OutOfField | script.js:167 | no contract of its own; the bound test, used by Simulation.UpdateBird |
| Entities.Overlaps | script.js:191-194 | no contract of its own; the four strict box inequalities, used by Simulation.AnyOverlap and Simulation.CheckCollision |
| Entities.SpawnPair | script.js:174-179 | the two pieces pushed when an obstacle is due: a top piece at the right edge hanging from y 0 with the drawn height, and a bottom piece starting 150 below it; top height + 150 + bottom height equals the canvas height, and the bottom piece is at least 1 high |
| Simulation.UpdateCloudsSpawnsAndScrolls | script.js:118-129 | a cloud update changes only the clouds; the result is the old clouds moved left by 2 with those whose x + radius is no longer positive dropped, in order, followed, on frames divisible by 100, by the new cloud from the right edge already moved once |
| Simulation.UpdateBackgroundSpawnsAndScrolls | script.js:95-116 | a background update changes only mountains and trees; each is the old list moved left by 2 and culled (x + 100 > 0 for mountains, x + 40 > 0 for trees), in order, followed by the new item on frames divisible by 200 (mountains) or 150 (trees) |
| Simulation.UpdateObstaclesSpawnsAndScrolls | script.js:173-187 | an obstacle update changes only the obstacles and the score; the score goes up by exactly one on frames divisible by 90 and stays otherwise; the obstacles are the old ones moved left by 3 and culled at x + width > 0, in order, followed on those frames by the new pair |
| Simulation.UpdateBird | script.js:163-171 | gravity 0.5 is added to the vertical speed and then the new speed to y; x and radius stay; game over is set exactly when it was already set or the bird now sticks out above or below the field, and it is never cleared; nothing else changes |
| Simulation.AnyOverlap | script.js:189-199 | true exactly when the bird's box strictly overlaps some obstacle in the list |
| Simulation.CheckCollision | script.js:189-199 | only the game-over flag changes; it ends up set exactly when it was set before or some obstacle strictly overlaps the bird's box |
| Simulation.CheckCollisionIdempotent | script.js:189-199 | checking collisions twice in a frame has the same effect as once |
| Simulation.Updates | script.js:246-251 | the update block (clouds, background, bird, obstacles, collision, in that order) keeps the frame counter and started flag, adds one point exactly on frames divisible by 90, and never clears game over |
| Simulation.Tick | script.js:236-259 | a frame of a finished game changes nothing; otherwise the frame counter of a started game advances by one, even when this very frame ended the game, and the score rises by one exactly on frames divisible by 90 |
| Simulation.Run | script.js:236-259 | any number of frames keeps the started flag and never lowers the score or the frame counter |
| Simulation.Start | script.js:29-37 | starting a game marks it started and leaves, after the synchronous first frame, score 1, frame counter 1 and the invariant |
| Simulation.HandleKeyDown | script.js:39-45 | any key but space does nothing; space in a running game sets only the vertical speed to -10; space after game over restarts the game |
| Simulation.SpawnsBeforeClosedForm | script.js:173-180 | the number of spawns on frames 0 .. n-1 is (n + 89) / 90 |
| Simulation.PairedAppend | script.js:174-179 | appending a list of whole obstacle pairs to another keeps the obstacles in whole pairs |
| Simulation.PairedMove | script.js:182-184 | moving every obstacle left keeps the pairs intact |
| Simulation.PairedCull | script.js:186 | culling at x + width > 0 removes both pieces of a pair or neither, so the obstacles stay in whole pairs |
| Simulation.UpdateCloudsKeepsLayout | script.js:118-129 | a cloud update keeps every cloud on screen and the clouds in screen order, no further right than the canvas width |
| Simulation.UpdateBackgroundKeepsLayout | script.js:95-116 | a background update keeps mountains and trees on screen and in screen order |
| Simulation.UpdateObstaclesKeepsLayout | script.js:173-187 | an obstacle update keeps the obstacles in geometric top/bottom pairs, on screen and in screen order |
| Simulation.UpdatesKeepLayout | script.js:246-251 | the whole update block keeps the layout: bird column and size, obstacle pairs, every item on screen and in order |
| Simulation.TickPreservesInv | script.js:236-259 | every frame keeps the layout and, once the game is started, score == spawns so far |
| Simulation.RestartBeginsFresh | script.js:229-234 | reset followed by the synchronous first frame leaves the started flag unchanged, score 1, frame counter 1 when started, the bird 0.5 lower falling at 0.5, one obstacle pair and one cloud, mountain and tree, and the invariant |
| Simulation.ResetEstablishesInv | script.js:47-55 | a reset state satisfies the invariant |
| Simulation.ResetForgetsHistory | script.js:47-55 | a reset keeps nothing of the previous game except whether a game was started |
| Simulation.StartForgetsEarlierKeys | script.js:29-37 | starting a game gives the same state whether or not a key was pressed before it, since the reset replaces everything the key handler can change |
| Simulation.HandleKeyDownPreservesInv | script.js:39-45 | every key press, including a restart, keeps the invariant |
| Simulation.RunPreservesInv | script.js:236-259 | any number of frames keeps the invariant |
| Simulation.RunFrozen | script.js:246 | after game over no number of frames changes anything |
| Simulation.RunCountsFrames | script.js:252-255 | in a started game still running after n frames, the frame counter grew by exactly n |
| Simulation.ScoreAfterFrames | script.js:173-180 | a started game still running n frames after a reset has frame counter n and score (n + 89) / 90 |
| Sequences.FilterFrom | script.js:128 | every survivor of a filter comes from the filtered list |
| Sequences.FilterKeepsPassing | script.js:128 | every element that passes the test survives the filter |
| Sequences.FilterSubsequence | script.js:128 | a filter keeps the survivors in their original order |
| Sequences.FilterConcat | script.js:128 | filtering a concatenation is the concatenation of the filtered parts |
| Sequences.FilterAllKept | script.js:128 | a list whose every element passes is left unchanged |
| Sequences.FilterNoneKept | script.js:128 | a list none of whose elements pass is emptied |
| Sequences.FilterAscending | script.js:128 | a filter keeps a list in ascending order |
| Sequences.Scroll | script.js:118-129 | every item left after a push, move and cull step passes the cull test |
| Sequences.ScrollSplit | script.js:118-129 | when the pushed items survive their first move, a step gives the old survivors followed by the moved new items |
| Sequences.ScrollKeepsOrder | script.js:118-129 | a step keeps the relative order of the items it does not drop |
| Sequences.ScrollOrdered | script.js:118-129 | pushing at the right edge, moving left by a fixed step and culling keeps the items in screen order and no further right than the edge |
| Sequences.MoveEach | script.js:124-126 | the in-place loop over the items moves every item and leaves the list otherwise as it was |
| Sequences.KeepWhere | script.js:128 | the loop that builds the filtered list yields exactly the filter of the input |
| GameState.Game.constructor | script.js:12-22 | the page's initial state: the fresh bird, empty lists, zero counters, no game started or over, and the invariant |
| GameState.Game.ResetGame | script.js:47-55 | every variable back to its start value except the started flag |
| GameState.Game.UpdateClouds | script.js:118-129 | pushing, moving in place and filtering the clouds leaves exactly the cloud update of the old state |
| GameState.Game.UpdateBackground | script.js:95-116 | the same for mountains and trees |
| GameState.Game.UpdateBird | script.js:163-171 | the two in-place updates and the bound check leave exactly the bird update of the old state |
| GameState.Game.UpdateObstacles | script.js:173-187 | the two pushes, score increment, in-place move and filter leave exactly the obstacle update of the old state |
| GameState.Game.CheckCollision | script.js:189-199 | the loop over the obstacles sets game over exactly as the collision check of the old state does |
| GameState.Game.GameLoop | script.js:236-259 | one frame leaves exactly the state Tick computes, and keeps the invariant |
| GameState.Game.RestartGame | script.js:229-234 | reset and then one frame, as Restart computes |
| GameState.Game.StartGame | script.js:29-37 | set started, reset and then one frame, as Start computes |
| GameState.Game.HandleKeyDown | script.js:39-45 | a key press leaves exactly the state the key handler computes |

## Left out

- Drawing is not modelled. This covers `drawSky`, `drawMountains`, `drawTrees`, `drawClouds`, `drawBird`, `drawObstacles`, `drawScore` and `drawInitialBackground`, which only paint the canvas and change no state.
- The DOM is not modelled. This covers showing and hiding screens, button wiring, and writing the final score in `showGameOverScreen`. None of these affects the simulated state.
- Simulation.HandleKeyDown: the keydown listener is attached only by `startGame` (script.js:34), so before the first game a key press does nothing. The model does not track whether the listener is attached and lets Space set the bird's speed even then. `startGame` resets the bird before the first frame, so that effect never survives into a game; `Simulation.StartForgetsEarlierKeys` states this. `GameState.Game.HandleKeyDown` follows the same branches.
- Frame scheduling is not modelled. `requestAnimationFrame` and `cancelAnimationFrame` are out of the model, so the handle `animationFrameId` is not kept. A frame is one call of `Tick`, and a sequence of frames is `Run`.
- `backToMainMenu` is not modelled because it only switches screens.
- `Math.random` is not modelled. Its results arrive as the `Draws` parameter, restricted to the ranges the code draws them from.
- JavaScript numbers are IEEE doubles, but the model uses exact reals and unbounded integers. Rounding of the bird's position, which only ever changes by multiples of 0.5, and overflow of the frame counter are not modelled.
- The frame loop never ends, but `Run` covers only finitely many frames. The unbounded loop is represented by its finite prefixes.
