# Daruma-san ga koronda — game-state model

A Dafny model of the game logic of a small pygame version of "Daruma-san ga
koronda" (Red Light, Green Light), `daruma_game.py`. The player walks towards
a goal line with the arrow keys. The Daruma alternates between facing back
(walking is safe) and facing the player (walking is caught). Each phase lasts
a randomly drawn time. The game ends in a win at the goal line, or in a loss
when the player moves while watched. After the game ends, R restarts it.

The model follows the source's object structure. Each object has a Dafny
class whose methods update its fields in place, mirroring the Python
statements:

- `PlayerEntity.Player` (player.dfy): coordinates, `moving`, colour and the
  `eliminated` flag. `Move` applies the four guarded 5-pixel steps.
- `DarumaEntity.Daruma` (daruma.dfy): facing, turn timer, the two phase
  durations and the phrase. `Update` advances the timer and flips the
  facing.
- `GameController.Game` (game.dfy): player, Daruma, `gameOver` and `win`.
  It has `CheckCaught`, `CheckWin`, `Reset`, the guarded update block
  `Tick`, and `RunFrame`, which is one loop iteration: the restart key, then
  the update block.

Each class has a `State()` function giving its value as a datatype. Each
method is proved to produce exactly the value of a pure specification
function of the old value (`Moved`, `Updated`, `CaughtChecked`,
`WinChecked`, `Ticked`, `Stepped`, `NewGame`). The properties are proved
about those functions. Some are in their `ensures` clauses, about a single
call. Others are inductive lemmas over `Run`, which is any sequence of
frames.

Modelling choices:

- Positions are integers, as in the source (spawn (50, 300), step 5).
- Times and durations are reals, with no floating-point rounding.
- A frame's time is the clock's millisecond count divided by 1000.
- Each `random.uniform` result is an input value (`Draws`). Where a contract
  needs it, the value must lie in the range the call draws from.
- Key state is four booleans. A restart is one boolean: "R went down this
  frame".

`check_win` runs after `check_caught` (daruma_game.py:205-206), so a frame
that both catches the player and reaches the goal ends with `win` and
`game_over` true and the player grey; `CatchAndGoalSameFrame` shows one.
daruma_game.py plays no audio; only timer-drawn durations exist.

## Model

| member | source | states |
|---|---|---|
| `PlayerEntity.NewPlayer` | daruma_game.py:71-79 | a new player is at the given point, not moving, blue, not eliminated; inside the field when the point is |
| `PlayerEntity.AxisStep` | daruma_game.py:86-97 | one axis of a move changes the coordinate by at most one step; a single pressed key moves exactly 5 in its direction when its guard holds and not at all otherwise; no key leaves the coordinate alone; a step is reported iff a pressed key's guard held on the old coordinate; the coordinate stays in range and on the grid; pressing the increasing key at the upper bound leaves it there; both keys in the interior give net zero but still report a step |
| `PlayerEntity.Moved` | daruma_game.py:84-97 | after a move each axis changed by at most one step; each of UP, DOWN, LEFT, RIGHT pressed alone on its axis moves exactly 5 in its direction when its guard holds, and an axis with no key pressed is unchanged; opposite keys away from the edges cancel; a player in the field and on the grid stays so; `moving` holds iff some pressed key's guard held; no keys means no displacement and `moving` false; colour and `eliminated` are untouched |
| `PlayerEntity.CheckGoal` | daruma_game.py:99-100 | the goal test holds iff the player's left edge is within one player width of the goal line |
| `PlayerEntity.RightOnlyStep` | daruma_game.py:95-97 | RIGHT alone, short of the right bound, moves exactly 5 to the right and sets `moving` |
| `PlayerEntity.OffGridLeavesField` | daruma_game.py:89-91 | the boundary guards keep the player inside only because positions stay multiples of the step: from y = 548 a step down leaves the field |
| `PlayerEntity.Player.constructor` | daruma_game.py:71-79 | the object's state is the new-player value |
| `PlayerEntity.Player.Move` | daruma_game.py:84-97 | the four guarded steps, in source order, produce exactly `Moved` of the old state and keep the player in the field |
| `DarumaEntity.NewDaruma` | daruma_game.py:104-114 | a new Daruma faces back with timer 0 and phrase "だるまさんが"; both durations are the draws; consistent when the draws are in range |
| `DarumaEntity.Updated` | daruma_game.py:127-143 | the facing flips, at most once, iff timer + dt reaches the current phase's duration; a flip zeroes the timer, otherwise timer is old + dt; only the duration of the phase that ended is redrawn; the phrase matches the new facing; durations stay in range and the timer stays below the phase duration |
| `DarumaEntity.UpdatedAllConsistent` | daruma_game.py:127-143 | any sequence of updates with in-range draws keeps durations in range, timer below the phase duration and phrase matching the facing |
| `DarumaEntity.PhaseTimerIsTotalTime` | daruma_game.py:127-143 | within one phase the timer is the sum of the frame times, the durations are not redrawn, and the phase ends before that sum reaches its duration (under 5 s facing back, under 3 s facing the player) |
| `DarumaEntity.Daruma.constructor` | daruma_game.py:104-114 | the object's state is the new-Daruma value |
| `DarumaEntity.Daruma.Update` | daruma_game.py:127-143 | the in-place update produces exactly `Updated` of the old state and keeps the object consistent |
| `GameController.Elapsed` | daruma_game.py:191 | the frame time is non-negative and is the clock's milliseconds over 1000 |
| `GameController.GoalThreshold` | daruma_game.py:99-100 | with the goal line at WIDTH - 150 the goal test holds iff x >= 620 |
| `GameController.NewGame` | daruma_game.py:147-152 | a new game has the player at (50, 300), not moving, blue; the Daruma facing back with timer 0; `game_over` and `win` false; the game invariant holds |
| `GameController.CaughtChecked` | daruma_game.py:155-158 | the game ends (player greyed) iff the Daruma faces the player and the player is moving; `win` and the Daruma are untouched |
| `GameController.WinChecked` | daruma_game.py:160-163 | reaching the goal sets both `win` and `game_over`; otherwise nothing changes |
| `GameController.ChecksIdempotent` | daruma_game.py:155-163 | running either check twice is the same as once |
| `GameController.Ticked` | daruma_game.py:202-206 | a finished game is frozen; otherwise the player moves, then the Daruma updates; the player is caught iff it moved and the post-update Daruma faces it; `win` iff the goal is reached, even when caught the same frame; the game invariant is preserved |
| `GameController.CatchAndGoalSameFrame` | daruma_game.py:203-206 | a frame in which the Daruma turns round while the player steps onto the goal line ends with `win` and `game_over` true and the player grey |
| `GameController.Stepped` | daruma_game.py:197-206 | a restart is honoured only when the game is over and rebuilds the new-game state before the update block runs; otherwise the frame is just the update block; the invariant is preserved |
| `GameController.RunPreservesInv` | daruma_game.py:190-206 | after any frames with in-range draws: player in field and on grid, Daruma consistent, `win` implies game over at the goal, a running game is short of the goal and blue, a lost game is grey |
| `GameController.Run` | daruma_game.py:190-206 | once the game is over, any frames without a restart change nothing (the frames are applied one after another; `RunAppend` composes runs) |
| `GameController.RunAppend` | daruma_game.py:190-206 | running two sequences of frames one after the other is running their concatenation |
| `GameController.AdvanceBound` | daruma_game.py:95-97 | without a restart the player advances at most 5 pixels per frame |
| `GameController.NoEarlyWin` | daruma_game.py:147-150 | no game is won within its first 113 frames |
| `GameController.IdleNeverEnds` | daruma_game.py:202-206 | a player who presses no key is never caught, never wins and never moves, however the Daruma cycles |
| `GameController.HoldRightWins` | daruma_game.py:202-206 | holding RIGHT while the Daruma keeps facing back wins once the frames cover the distance to the goal line |
| `GameController.FreshGameHoldRightWins` | daruma_game.py:147-152 | from a new game, 114 frames of RIGHT with the Daruma facing back win |
| `GameController.Game.constructor` | daruma_game.py:147-152 | the object's state is the new-game value |
| `GameController.Game.CheckCaught` | daruma_game.py:155-158 | the in-place catch check produces `CaughtChecked` of the old state |
| `GameController.Game.CheckWin` | daruma_game.py:160-163 | the in-place win check produces `WinChecked` of the old state |
| `GameController.Game.Reset` | daruma_game.py:184-185 | fresh player and Daruma objects; the state is the new-game value |
| `GameController.Game.Tick` | daruma_game.py:202-206 | the guarded update block produces `Ticked` of the old state |
| `GameController.Game.RunFrame` | daruma_game.py:191-206 | the restart guard followed by the update block produces `Stepped` of the old state and keeps the game invariant |

## Left out

- Font selection (`get_japanese_font`, the module-level `font`): font loading and probing against pygame.
- All `draw` methods, the colour constants other than the player's blue and grey, and the Daruma's position and size: used only for rendering.
- `pygame.init`, window setup, event polling, `pygame.key.get_pressed`, the frame-pacing clock, `display.flip`, `pygame.quit` and `sys.exit`: window and event plumbing. Keys, the restart key and the clock's millisecond count are inputs of a `Frame`.
- The QUIT event: it only ends the loop after the current frame; one frame of the model is one iteration, so the model needs no running flag.
- `random.uniform` itself: each draw is an arbitrary input value. Contracts that need it require the value to lie in the drawn range.
- The clock object the constructor creates: it paces frames and measures the frame time, which the model takes as the `Frame` input `dtMs`. A restart replaces the clock, so the next frame time is measured from the new clock; any `dtMs` is allowed, so this is covered.
- Floating-point arithmetic: timers and durations are exact reals, so rounding that might make a phase end one frame earlier or later is not modelled.
- The voice-synchronised duration policy: `daruma_game.py` plays no audio, so it is not part of this model.
- `eliminated`: the source sets it to false and never changes it; the model keeps it as a field that nothing changes.
