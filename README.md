# Flappy Bird game state, in Dafny

This project models the game logic of a single-screen Flappy Bird clone
whose whole state lives in one UI component (`App` in `src/App.tsx`). The
component holds six state cells: the bird's vertical position and velocity,
the list of pipes, the `gameStarted` and `gameOver` flags, and the score.
Three actions change them:

- the jump action (the space key, or a click anywhere on the page except
  the "Play Again" button, whose handler stops the click from propagating);
- the timer tick, about 60 per second, which runs only while the run is
  started and not over;
- the restart action (the "Play Again" button).

The model has four modules:

- `Physics`: the bird's position updater. It takes a semi-implicit step:
  the new position is the old position plus the old velocity. The step is
  discarded, and the run ends, when it would leave `[0, 500]`.
- `Pipes`: the pipe list updater. It shifts every pipe 2 pixels left
  (`map`), keeps the pipes whose shifted x is greater than -60 (`filter`),
  and appends a new pipe at x = 800 when the list before the tick was empty
  or its last pipe was left of x = 300. The random draw is the parameter `r`,
  with `0 <= r < 1`, and the new pipe's gap-top height is `r * 250 + 100`.
- `Checks`: the collision test and the exact-equality score test
  (`x + 60 == 98`), with a geometric reading of the collision test as an
  overlap between the bird's square and the two blocks drawn for a pipe.
- `GameView`: a class `Game` whose six fields are the six state cells, with
  a constructor (the initial values), `Jump`, `Tick` and `Reset`. The two
  `forEach` loops of the tick are the methods `CheckCollisions` and
  `AddScore`.

The tick reads a stale snapshot. The timer callback is created when the
component renders, so it reads the position and the pipe list of that
render. The collision and score loops therefore use the position and the
pipes as they were BEFORE the tick. The updaters receive the same values.
`Tick` captures those values first, then applies the three updaters, then
runs the two loops on the captured values.

`Game.Valid()` is the invariant every reachable state keeps:

- the bird is in `[0, 500]`;
- the pipes are strictly ascending in x, with the newest pipe last;
- every pipe has `-60 < x <= 800` and a gap top in `[100, 350)`;
- `gameOver` implies `gameStarted`.

The constructor and `Reset` establish it; `Jump` and `Tick` preserve it.
Because the pipes are strictly ascending, at most one of them is on the
score column, so a tick adds at most one point.

All numbers are `real`. The bird's position and velocity are multiples of
0.5 and the pipes' x values are even integers, so double precision computes
them exactly. The gap-top height `Math.random() * (400 - gap) + 100` does
round. The model abstracts the draw as a real `r` in [0, 1) and the height
as `r * 250 + 100`. Every double height in [100, 350) has this form for
some such `r`.

The filter reads the shifted x (`x - 2 > -60`). A pipe therefore survives a
tick exactly when its x is greater than -58, and a pipe at x = -59 is
dropped. Pipes only ever have even x values, so the leftmost pipe that
survives a tick starts it at x = -56 (`Pipes.OffScreenBoundary`). The new
pipe's gap top lies in [100, 350) (`Pipes.SpawnHeight`).

## Model

| member | source | states |
|---|---|---|
| `Physics.MoveBird` | src/App.tsx:47-54 | The step goes out of bounds exactly when prev + velocity is outside [0, 500]. Within bounds the position becomes prev + velocity, using the pre-tick velocity. Out of bounds it stays prev. A position in [0, 500] stays in [0, 500]. |
| `Pipes.ShiftBy` | src/App.tsx:62 | A pipe moved k ticks: its x decreased by 2 per tick, its height kept. |
| `Pipes.Shift` | src/App.tsx:62 | The `map` step: every pipe moved one tick (2 pixels) to the left, its height kept, the list order kept. |
| `Pipes.OnScreen` | src/App.tsx:63 | The `filter` predicate: the pipe's x is greater than -60. |
| `Pipes.Advance` | src/App.tsx:61-63 | The survivors of a tick: the `map` step followed by the `filter` step. |
| `Pipes.NeedsSpawn` | src/App.tsx:66 | The spawn condition: the pre-tick list is empty or its last pipe has x < 300. |
| `Pipes.ShiftMembers` | src/App.tsx:62 | After the `map` step, a pipe is present exactly when a pipe 2 pixels to its right with the same height was present before. |
| `Pipes.ShiftAppend` | src/App.tsx:62 | The `map` step keeps list order: shifting a concatenation shifts each part in place. |
| `Pipes.KeepOnScreen` | src/App.tsx:63 | The `filter` step keeps exactly the pipes with x > -60 and never lengthens the list. |
| `Pipes.KeepOnScreenAppend` | src/App.tsx:63 | The `filter` step keeps relative order: filtering a concatenation filters each part in place. |
| `Pipes.KeepOnScreenAscending` | src/App.tsx:63 | Filtering a strictly ascending list leaves it strictly ascending. |
| `Pipes.AdvanceMembers` | src/App.tsx:61-63 | A pipe survives the tick exactly when it is the old pipe moved 2 left with its height kept and its new x > -60. |
| `Pipes.AdvanceAppend` | src/App.tsx:61-63 | The survivors keep their relative order. |
| `Pipes.AdvanceLength` | src/App.tsx:61-63 | The `map` and `filter` steps add no pipe. |
| `Pipes.AdvanceAscending` | src/App.tsx:61-63 | The survivors of a strictly ascending list are strictly ascending. |
| `Pipes.OffScreenBoundary` | src/App.tsx:61-63 | A one-pipe list at x survives the tick as the pipe at x - 2 exactly when x > -58, and is otherwise emptied. A pipe at x = -59 is dropped, and a pipe at x = -56 survives at x = -58. |
| `Pipes.SpawnHeight` | src/App.tsx:67 | For a draw r in [0, 1), the new pipe's gap top lies in [100, 350), so its gap ends above the field's bottom at 500. |
| `Pipes.NextPipes` | src/App.tsx:60-72 | The pipe updater grows the list by at most one pipe, and every pipe it returns has x > -60. |
| `Pipes.SpawnRule` | src/App.tsx:65-70 | The list gains a pipe if and only if the pre-tick list was empty or its last pipe had x < 300. That pipe is (800, r * 250 + 100), placed after all survivors. Otherwise the result is the survivors alone. |
| `Pipes.NextPipesAscending` | src/App.tsx:60-72 | If the pipes were strictly ascending in x before the tick, they are after it. |
| `Pipes.NextPipesWellPlaced` | src/App.tsx:60-72 | If every pipe has -60 < x <= 800 and a gap top in [100, 350) before the tick, every pipe does after it. |
| `Pipes.NextPipesValid` | src/App.tsx:60-72 | The pipe list invariant (strictly ascending and well placed) survives every tick. |
| `Checks.Collides` | src/App.tsx:76-80 | The pipe overlaps the bird's column (x < 130 and x + 60 > 100), and the bird's top is above the gap top (bird < height) or its bottom is below the gap bottom (bird + 30 > height + 150). |
| `Checks.AnyCollision` | src/App.tsx:75-83 | Some pipe of the list satisfies `Collides` with the given bird position; this is what the collision `forEach` decides. |
| `Checks.Scores` | src/App.tsx:87 | The score test: the pipe's right edge x + 60 equals 98 exactly. |
| `Checks.CollidesIsOverlap` | src/App.tsx:76-80 | For a bird whose top is in [0, 500), the collision condition holds exactly when the bird's 30x30 square at x = 100 overlaps the pipe's top block or its bottom block. |
| `Checks.CollisionAtTop` | src/App.tsx:76-80 | A bird at 0 collides with the pipe (x = 100, height = 300). |
| `Checks.NoCollisionInsideGap` | src/App.tsx:76-80 | A bird at 350 does not collide with the pipe (x = 100, height = 300). |
| `Checks.ScoreGain` | src/App.tsx:86-90 | The points one tick adds are at most the number of pipes, and zero exactly when no pipe has x + 60 == 98. |
| `Checks.ScoreGainAtMostOne` | src/App.tsx:86-90 | If the pipes are strictly ascending in x, one tick adds at most one point. |
| `Checks.ScoresAtMostOnce` | src/App.tsx:87 | A pipe moving 2 pixels per tick passes the score test on at most one tick. |
| `Pipes.AdvanceIsShiftByOne` | src/App.tsx:61-63 | One tick moves a pipe by exactly one shift: if its shifted position is on screen, the shifted pipe is among the survivors. |
| `Checks.ScoredPipeMovesOn` | src/App.tsx:61-63 | A pipe that passes the score test survives the tick and fails the test on the next tick, so no pipe is counted on two ticks in a row. |
| `Checks.SpawnedPipeScoresOnce` | src/App.tsx:87 | A pipe spawned at x = 800 is at x = 38 after exactly 381 shifts, and after no other number of shifts, and is still on screen there. The tick after the 381st shift reads it at x = 38 and adds the point. |
| `GameView.Game.constructor` | src/App.tsx:9-14 | The initial state is position 250, velocity 0, no pipes, not started, score 0, not over, and it satisfies the invariant. |
| `GameView.Game.Jump` | src/App.tsx:22-29 | If the run is over, nothing changes. Otherwise the velocity becomes exactly -10 and the run is started. Position, pipes, score and `gameOver` never change. NotStarted and Running go to Running, and Over stays Over. |
| `GameView.Game.Tick` | src/App.tsx:45-91 | Position is the `MoveBird` result for the pre-tick position and velocity, and velocity is exactly the pre-tick velocity + 0.5. Pipes are the `NextPipes` result for the pre-tick list. `gameOver` holds iff the step left the field or a pre-tick pipe collides with the pre-tick position. Score grows by `ScoreGain` of the pre-tick pipes: never down, at most 1. The invariant is kept. |
| `GameView.Game.CheckCollisions` | src/App.tsx:75-83 | Called only in a started game, as a step of `Tick`. After the collision loop, `gameOver` holds exactly when it held before or some pipe of the snapshot collides with the snapshot position. |
| `GameView.Game.AddScore` | src/App.tsx:86-90 | After the score loop, the score has grown by exactly the number of snapshot pipes on the score column. |
| `GameView.Game.Reset` | src/App.tsx:100-107 | The state becomes exactly position 250, velocity 0, no pipes, not started, score 0, not over. This is the only action that clears `gameOver`. |

## Left out

- Rendering: the JSX, CSS classes, the velocity-based rotation of the bird and the start and game-over overlays (src/App.tsx:109-185). They only display state. `Checks.CollidesIsOverlap` uses the drawn block geometry only as a reference for the collision test.
- Event plumbing: the keydown listener for `Space`, its registration and removal, and the click handlers with `stopPropagation` (src/App.tsx:31-40, 112, 172-175). Only their effects are modelled, as `Jump` and `Reset`.
- Timer lifecycle: `setInterval`/`clearInterval` and the effect's re-run on its dependencies (src/App.tsx:42-45, 91-98). They appear only as `Tick`'s precondition that the run is started and not over.
- Timer firings between renders: the model assumes each tick sees the state committed by the previous one. A second firing before React re-renders, which would read the same stale snapshot twice, is not modelled.
- `Math.random()`: it is an input `r` with `0 <= r < 1`.
- IEEE-754 arithmetic: exact reals are used. Positions, velocities and pipe x values are exact in doubles, so this loses nothing for them.
- Pipes.SpawnHeight: the rounding of `Math.random() * 250 + 100` is not modelled. A draw of 1 - 2^-53 rounds to a height of exactly 350. That is outside the [100, 350) that `SpawnHeight` and `WellPlaced` state.
- React's `setState` batching: only the net effect of one tick is modelled. The updaters are applied to the pre-tick state, and the loops read the pre-tick snapshot.
