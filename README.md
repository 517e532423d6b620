# Flappy Bird simulation core in Dafny

This project models the simulation half of a pygame Flappy Bird clone and proves
properties of it. It covers:

- **The bird** (`src/player/player.py`): gravity, the jump impulse, the drawn
  tilt and the square hitbox.
- **The pipes** (`src/main/main.py`, class `Pipe`): scrolling, the two padded
  collision rectangles and the off-screen test.
- **The game loop** (`src/main/main.py`, `reset_game` and `main`): one frame of
  simulation and the space-key state machine between a running round and a
  finished one. A frame is the bird's update, the bounds test, the timed
  spawn, and the loop over a copy of the pipe list that scrolls, collides,
  removes and scores.

Modules, one file each:

- `geometry.dfy` (`Geometry`): pygame's `Rect` and its `colliderect` test,
  with a reference meaning (positive-area overlap) proved equivalent.
- `seqs.dfy` (`Seqs`): filtering a list by a mask and Python's `list.remove`,
  with their order, membership and uniqueness properties.
- `player.dfy` (`Players`): the bird as a value (`Body`), its update and jump
  as functions, and the mutable `Player` class whose methods are proved to
  perform exactly those functions.
- `pipe.dfy` (`Pipes`): the screen and pipe constants, the pipe as a value
  (`PipeState`), its collision geometry, and the mutable `Pipe` class.
- `simulation.dfy` (`Simulation`): the whole world as a value (`WorldState`).
  One frame is `StepWorld`, built from `Fallen`, `Spawned` and `Scrolled`;
  a key press is `PressSpace`; a restart is `ResetWorld`. Its lemmas cover:
  - freezing after game over, the spawn rule, the end-of-round condition and
    score bounds;
  - an invariant that every frame and key press keeps;
  - a pipe scoring exactly once, when its trailing edge crosses the bird;
  - a round without jumps lasting exactly 33 frames: it is still running
    after 32 and over after 33.
- `game.dfy` (`Game`): the mutable `World` of `main()`. It holds a `Player`,
  a sequence of `Pipe` objects, the score, the game-over flag and the spawn
  timer. `Step` runs the frame in place, with a `for` loop over a copy of the
  pipe list, and is proved to produce exactly `StepWorld` of the old state.
  `Press` is proved to produce `PressSpace`.

The clock (`pygame.time.get_ticks()`) and the random gap centre
(`random.randint`) become method parameters. The gap centre must lie in the
generator's range [150, 350].

The bounds test uses the drawn radius 30 (`src/main/main.py:210`), so a round
without jumps ends once y + 30 exceeds 600, not when y exceeds 600.
`Simulation.FallFromStart` proves this threshold.

## Model

| member | source | states |
|---|---|---|
| `Players.Tilt` | src/player/player.py:32 | the tilt is -3 times the velocity, clamped to [-25, 25]: 25 for velocities below -25/3, -25 above 25/3 |
| `Players.PlayerRect` | src/player/player.py:42-44 | the hitbox is a 24 by 24 square centred on the bird |
| `Players.JumpOverwritesVelocity` | src/player/player.py:26-27 | a jump sets the velocity to -10 whatever it was before, and changes nothing else |
| `Players.JumpThenTick` | src/player/player.py:26-32 | a jump followed by an update always gives velocity -9.5, a rise of 9.5 and the full nose-up tilt of 25 |
| `Players.TicksClosedForm` | src/player/player.py:29-31 | after k updates without a jump, the velocity is v + k/2 and the height is y + k*v + k(k+1)/4 |
| `Players.TicksKeepX` | src/player/player.py:29-31 | updates never move the bird horizontally |
| `Players.Player.constructor` | src/player/player.py:6-15 | a new bird is at the given point, at rest and level |
| `Players.Player.Jump` | src/player/player.py:26-27 | the velocity becomes -10; position and tilt are unchanged; the state is `Jumped` of the old one |
| `Players.Player.Update` | src/player/player.py:29-32 | semi-implicit Euler: gravity 0.5 is added to the velocity first, then y moves by the new velocity; the tilt follows the new velocity; x is unchanged; the state is `Tick` of the old one |
| `Geometry.ColliderectIsPositiveAreaOverlap` | src/main/main.py:121 | for rectangles of positive size, `colliderect` holds exactly when they share an interior point (edge contact is not a hit) |
| `Geometry.ColliderectSymmetric` | src/main/main.py:121 | the collision test does not depend on argument order |
| `Pipes.CollisionRectsGeometry` | src/main/main.py:123-133 | for every drawable gap centre, both rectangles start at x + 25 and are 20 wide; the top one spans [0, gap - 20), the bottom one [gap + 120, 600); both heights are positive and the opening between them is 140 |
| `Pipes.CollidesWithMatchesCollisionRects` | src/main/main.py:109-133 | `collides_with` holds exactly when one of the rectangles from `get_collision_rects` meets the hitbox |
| `Pipes.CollidesIff` | src/main/main.py:109-121 | a hitbox of positive size collides exactly when it overlaps the padded column [x + 25, x + 45] and reaches above the opening or below it |
| `Pipes.OffscreenThreshold` | src/main/main.py:135-136 | a pipe at x = -71 is off-screen; pipes at -70 and -69 are not |
| `Pipes.OffscreenIsFinal` | src/main/main.py:70-71 | once off-screen, a pipe stays off-screen as it scrolls, and both its rectangles lie left of the screen |
| `Pipes.Pipe.constructor` | src/main/main.py:25-29 | a new pipe is at the given x with the drawn gap centre and is not yet passed |
| `Pipes.Pipe.Update` | src/main/main.py:70-71 | x decreases by exactly 3; the gap and the passed flag are unchanged |
| `Seqs.RemoveFirst` | src/main/main.py:224 | `list.remove` may only be called with an element of the list (Python raises `ValueError` otherwise), and makes the list exactly one shorter |
| `Seqs.RemoveFirstAt` | src/main/main.py:224 | removing an element not found earlier in the list takes out exactly that occurrence and keeps the rest in order |
| `Seqs.SelectRemove` | src/main/main.py:217-224 | on a list without duplicates, a pipe whose flag is set is in the filtered list, so `remove` does not raise; removing it is the same as clearing its flag in the mask |
| `Seqs.SelectButLast` | src/main/main.py:214-224 | every survivor but the last comes from the copy without its last element, so a freshly appended pipe can only end up last |
| `Seqs.SelectIsSubsequence` | src/main/main.py:217-224 | the pipes left after removal keep their relative order |
| `Seqs.SelectMembership` | src/main/main.py:217-224 | a pipe survives exactly when some kept position of the copy holds it |
| `Seqs.SelectDistinct` | src/main/main.py:217-224 | removing pipes from a list without duplicates leaves a list without duplicates |
| `Simulation.PassCount` | src/main/main.py:226-228 | one loop pass adds at most one point per pipe, and nothing when every pipe is already passed |
| `Simulation.ResetWorldIsFreshRound` | src/main/main.py:166-171 | a restart puts the bird at (200, 300) at rest, leaves exactly one unpassed pipe at x = 1000, zero score, a running round and the spawn timer at now, and satisfies the invariant |
| `Simulation.StepFrozenWhenOver` | src/main/main.py:207 | once the round is over, a frame changes nothing |
| `Simulation.StepScoreBounds` | src/main/main.py:217-228 | in one frame the score never decreases and grows by at most the number of pipes the loop visits |
| `Simulation.AdvanceOneWay` | src/main/main.py:218-228 | a pipe's turn moves it exactly 3 left and keeps its gap; passed only goes from false to true, and does so exactly when the pipe scores |
| `Simulation.StepPipes` | src/main/main.py:217-224 | after a frame, the pipes are an order-preserving subsequence of the moved copy; no pipe is off-screen; every moved pipe still on screen is kept |
| `Simulation.StepGameOver` | src/main/main.py:207-221 | a frame ends the round exactly when the updated bird is out of bounds (drawn radius 30 against 0 and 600) or some moved pipe collides with its hitbox |
| `Simulation.StepSpawnRule` | src/main/main.py:213-215 | a pipe at x = 800 is appended and the spawn time moves to now exactly when more than 1500 ms have passed; otherwise neither happens |
| `Simulation.StepPreservesInvariant` | src/main/main.py:207-228 | every frame keeps the invariant: the bird stays at x = 200, gap centres are in range, no pipe is off-screen, and a pipe is passed exactly when its trailing edge is left of the bird |
| `Simulation.ScoreWindow` | src/main/main.py:217-228 | in a running frame of a world that keeps the invariant (every world reachable from a restart does), the score grows by the number of visited pipes that newly pass; a pipe newly passes exactly when its x before the frame is 130, 131 or 132, so a pipe scores in at most one running frame (`WindowCrossedOnce`: when x0 >= 130, exactly one j puts x0 - 3j in the window) |
| `Simulation.WindowCrossedOnce` | src/main/main.py:226-228 | the window [130, 132] is 3 wide and a pipe moves 3 per frame: starting at x >= 130 it is in the window after exactly one number of frames, starting left of 130 after none |
| `Simulation.PressPreservesInvariant` | src/main/main.py:197-205 | a key press, whether restart or jump, keeps the invariant |
| `Simulation.ScoredAtMostOnce` | src/main/main.py:226-228 | over n turns of one pipe in the loop (its state advancing as in `Advance`), it adds at most 1 to the score, and nothing once it is passed |
| `Simulation.ScoredWhenCrossing` | src/main/main.py:226-228 | an unpassed pipe has scored exactly once after n turns if its trailing edge, at x - 3n + 70, is left of the bird, and not at all otherwise |
| `Simulation.RunFrozen` | src/main/main.py:207 | after game over, any sequence of frames leaves the world, and so the score, unchanged |
| `Simulation.FallFromStart` | src/main/main.py:207-211 | from the spawn point without a jump, the bird is in bounds for the first 32 updates and out of bounds after the 33rd |
| `Simulation.FallFromRest` | src/player/player.py:29-31 | from rest, k updates lower the bird by k(k+1)/4 |
| `Simulation.FallsOut` | src/main/main.py:207-211 | a bird that has fallen n updates from the spawn point without a jump ends the round within 33 - n frames |
| `Simulation.NoJumpRoundEnds` | src/main/main.py:183-211 | a fresh round fed 33 or more frames with no key press is over |
| `Simulation.NoJumpRoundRunning` | src/main/main.py:183-228 | a fresh round fed at most 32 frames with no key press is still running: the bird is in bounds and no pipe has reached the hitbox |
| `Simulation.StepStaysRunning` | src/main/main.py:207-228 | within the first 32 frames without a jump, a frame keeps the round running and moves every pipe at most 3 left, so all stay at x >= 704, right of the hitbox |
| `Game.World.constructor` | src/main/main.py:183-187 | the world starts as `ResetWorld` with the spawn timer at now, the bird level (rotation 0), and satisfies the invariant |
| `Game.World.Restart` | src/main/main.py:198-202 | a restart gives a new, level bird (rotation 0) and a one-pipe list; the state becomes `ResetWorld(now, gap)` |
| `Game.World.Press` | src/main/main.py:197-205 | the new state is `PressSpace` of the old one (restart if the round is over, jump otherwise); a restart levels the new bird, a jump keeps the bird object, its tilt and the pipe list; the invariant is kept |
| `Game.World.Step` | src/main/main.py:207-228 | the new state is `StepWorld` of the old one; the bird object stays the same; every pipe but the last is one of the old pipe objects, and the last is old or the freshly spawned one; in a running frame each old pipe object holds `Advance` of its own old state and the bird's tilt is `Tilt` of its new velocity; in a frozen frame the pipe list, the tilt and every old pipe's state are unchanged; the invariant is kept |
| `Game.World.Scroll` | src/main/main.py:213-228 | the spawn and the pipe loop of a running frame: the state becomes `Scrolled(Spawned(..))` of the old one; every pipe but the last is an old object, new objects are fresh, and each old pipe object holds `Advance` of its own old state |
| `Game.World.Fall` | src/main/main.py:208-211 | the bird is updated and the round ends if it is out of bounds: the state becomes `Fallen` of the old one, and the tilt is `Tilt` of the new velocity |
| `Game.World.SpawnPipe` | src/main/main.py:213-215 | the state becomes `Spawned` of the old one; the old list is a prefix of the new one, which is at most one longer; the only new object is the appended pipe; pipes stay distinct |
| `Game.World.AdvancePipes` | src/main/main.py:217-228 | after the loop over the copy: the list is the old list of pipe objects filtered by a mask; every old pipe object, kept or removed, holds `Advance` of its own old state; the survivors' states are the moved pipes still on screen, in order; the score has grown by the pipes newly passed; game over adds any collision of a moved pipe |
| `Game.World.Turns` | src/main/main.py:217-228 | the `for` loop over the copy carries its summary from no turn to every turn |
| `Game.World.TakeTurn` | src/main/main.py:218-228 | one turn moves the loop summary from i turns to i + 1 |
| `Game.World.Turn` | src/main/main.py:218-228 | the pipe at position i scrolls, and the others are untouched. It is removed from the list exactly when it is off-screen. The score grows by 1 exactly when it is newly passed. Game over is set when it collides |

## Left out

- Drawing is not modelled: sprites, image loading and scaling, colours, the
  background, the score and game-over text, and the debug overlay
  (`draw`, `load_background`, `draw_score`, `draw_game_over`).
- Event polling and the quit event are left out, and so are the `running`
  flag and the 60 FPS frame limiter. A frame's key presses are calls to
  `Game.World.Press`, made before `Game.World.Step` in the order the events
  arrive.
- The clock reading and the random gap centre are parameters. The model does
  not capture the uniform distribution of `random.randint`, only its range.
- `Players.PlayerRect`: pygame's `Rect` stores integer coordinates, so the
  source converts the hitbox corner to an integer whenever the bird's y is a
  half-integer. The model keeps the exact real corner, so a collision decided
  within one pixel of a pipe edge may differ from pygame's.
- Positions and velocities are exact reals. Python computes them in floats,
  but every value the game produces is a multiple of 0.5, which floats
  represent exactly in the range the game reaches. Python's unbounded
  integers match Dafny's `int`.
- The bird's x is the integer 200 in the source and the real 200.0 here.
- `Simulation.ScoredAtMostOnce`: the value-level world has no pipe identity
  across frames, so the at-most-once claim is proved for one pipe's own
  trajectory of loop turns. `Simulation.ScoreWindow` ties it to the world's
  score frame by frame. For pipe objects, `Game.World.Step` states that each
  old pipe holds `Advance` of its own old state after a running frame, which
  is the trajectory `Simulation.ScoredAtMostOnce` is about; no lemma composes
  `Step` over several frames.
