# Snappy Bird: the gameplay core of flappy.py in Dafny

This project models one pass of the main loop of `flappy.py`, a pygame
Flappy-Bird clone, and proves properties of the model. Each pass reads one
tick's input. On the main menu it handles the change-bird, change-theme and
start buttons. In a started game it updates the bird, checks whether the bird
has passed the oldest pipe, checks for collisions, spawns and scrolls pipes,
raises the difficulty every five points, and runs the game-over screen with
its restart and main-menu buttons. Last it handles the QUIT and mouse-down
events.

The model has two layers.

- A value layer: `Geometry`, `Difficulty`, `Birds`, `Pipes`, `Scoring` and
  `Game`. The datatypes `BirdState` and `GameState` snapshot the sprites and
  the module globals. Each helper function of the source, and each phase of
  the loop, is a function over them. `Game.Tick` is one loop pass and
  `Game.Run` is the loop. The lemmas in `GameLemmas` state what the game
  promises across ticks.
- An in-place layer, in the source's own form. The classes `Birds.Bird`,
  `Pipes.Pipe` and `Engine.Flappy` hold the sprite fields and the globals.
  `Engine.Flappy.pipes` is the pipe group: a sequence of `Pipe` objects that
  are created, moved in place and dropped. Every method ensures that the new
  `State()` is the matching function of `Game` applied to the old state, so
  the lemmas about `Game` hold of the in-place game.

Units and rounding:

- Scroll speed, bird velocity and ground scroll are multiples of 0.5 pixel,
  so they are kept doubled as integers and called "halves". The starting
  speed 4 is 8 halves, the cap 7 is 14, and a jump of -10 is -20.
- `int(self.vel)` truncates toward zero. This is `Geometry.TruncHalf`.
- A pipe's `rect.x -= scroll_speed` stores a fractional coordinate in an
  integer Rect, and the library's rule is not visible here. It is a
  parameter, `Geometry.Rounding`: toward zero, down, or nearest.
- `int(pipe_gap / 2)` is `TruncHalf(gap)`, and `rect.center = [x, y]` puts
  the corner at `x - w // 2`.

Inputs: `pygame.time.get_ticks()`, the value `random.randint(-100, 100)`
returns, the left button's level, each on-screen button's activation (a
button activates while the left button is held over it), and the
MOUSEBUTTONDOWN and QUIT events are fields of `Game.Input`. `Game.Input.Valid`
admits every input the source can produce, and some it cannot (two buttons
pressed at once): an offset in [-100, 100] and no button activation without
the left button down. The image sizes
are fields of `Game.Config`.

Behaviours of `flappy.py` worth knowing when reading the model:

- After a pipe or ceiling hit `flying` stays true, so the bird keeps
  falling until it reaches the ground (flappy.py:226-231, 444-450).
  `GameLemmas.GameOverSticky` says what does stay fixed.
- `reset_game` does not clear `pass_pipe` (flappy.py:120-131).
  `GameLemmas.ResetContract` states that the latch is kept.
- Pipe x positions are integer Rect fields, so at a speed of 4.5 each tick
  loses or gains half a pixel according to the rounding rule; no fraction
  is carried from tick to tick. `Pipes.ScrollDistance` bounds the per-tick
  move between 4 and 7 pixels.
- The modes are the main menu (`game_started == false`), a live run, and
  game over.

## Model

| member | source | states |
|---|---|---|
| Geometry.TruncHalf | flappy.py:231 | `int()` of a half-integer truncates toward zero: the result is within half a pixel of the value, on the side of zero |
| Geometry.StoreHalfWithinHalfPixel | flappy.py:186 | whatever rule a Rect uses to store a fractional x, the stored value is within half a pixel, and exact on whole pixels |
| Difficulty.SpeedHalves | flappy.py:142-146 | the scroll speed for any score is between 4 and 7 pixels per tick |
| Difficulty.Gap | flappy.py:148-150 | the pipe gap for any score is between 120 and 180 and is a multiple of 10, hence even |
| Difficulty.DifficultyMonotone | flappy.py:139-150 | a higher score never gives a lower speed or a wider gap |
| Difficulty.DifficultyStep | flappy.py:139-150 | one more point raises the speed by at most 0.5 and narrows the gap by at most 10, and changes nothing unless the new score is a multiple of 5 |
| Difficulty.Saturation | flappy.py:145-150 | speed reaches its cap 7, and the gap its floor 120, exactly from score 30 on |
| Difficulty.DifficultyTable | flappy.py:139-150 | reference points: score 0 gives (4, 180), 5 gives (4.5, 170), 30 and 100 give (7, 120) |
| Birds.Gravity | flappy.py:226-231 | definition of the gravity step: while flying, velocity grows by 0.5 up to 8 and the bird drops by `int(vel)` while above the ground line; its promises are in `BirdStepPhysics` and `BirdStepValid` |
| Birds.Controls | flappy.py:233-243 | definition of the jump latch and animation counter, skipped at game over; its promises are in `ClickedLatch`, `HoldJumpsOnce` and `AnimationCycle` |
| Birds.BirdStep | flappy.py:224-243 | definition of one `Bird.update`: gravity, then the controls; its promises are in `BirdStepValid`, `BirdStepPhysics` and `ClickedLatch` |
| Birds.AnimationCycle | flappy.py:240-243 | while the run is alive each update advances the animation counter by one; from counter 0, five updates keep the frame and the sixth resets the counter and shows the next of the three frames |
| Birds.BirdStepValid | flappy.py:224-243 | an update keeps velocity in [-10, 8], the animation counter in [0, 5] and the frame index in [0, 3) |
| Birds.BirdStepPhysics | flappy.py:226-236 | the bird never moves sideways or resizes; a jump sets velocity to -10; otherwise flight adds 0.5 up to 8; it moves down by `int(vel)` only while flying and above the ground line |
| Birds.ClickedLatch | flappy.py:233-238 | while the run is alive `clicked` follows the button level after an update; at game over the latch and animation are left alone |
| Birds.HoldJumpsOnce | flappy.py:233-238 | holding the button for any number of ticks jumps exactly once if it was released before and never otherwise |
| Birds.Bird.constructor | flappy.py:191-200 | the bird starts centred on (x, y), at rest, unlatched, on frame 0 |
| Birds.Bird.Update | flappy.py:224-243 | the in-place update changes the bird exactly as `BirdStep` says |
| Pipes.PipeRect | flappy.py:175-183 | the rectangle of a new pipe has the image's size; where it sits is proved by `PairAroundCentre` |
| Pipes.Scrolled | flappy.py:186 | definition of a pipe's move by the scroll speed under the Rect rounding rule; its distance is bounded by `ScrollDistance` |
| Pipes.ScrollAll | flappy.py:185-188 | definition of one group update over the pipes; its promises are in `ScrollAllSpec`, `ScrollAllKeepsOrder` and `GameLemmas.ScrollAllPaired` |
| Pipes.PairAroundCentre | flappy.py:179-183 | the two pipes of a pair share x, their opening is centred on y, and it is the gap (exactly, for an even gap) |
| Pipes.Pipe.constructor | flappy.py:175-183 | a pipe's rectangle sits above or below the centre by `int(pipe_gap / 2)` according to its position |
| Pipes.Pipe.Update | flappy.py:185-188 | the pipe moves left by the scroll speed, stored by the Rect rule, and reports itself killed exactly when its right edge is left of 0 |
| Pipes.ScrollAllSpec | flappy.py:185-188 | after a group update a rectangle is in the group exactly when it is a scrolled pipe of the old group whose right edge is not left of 0, and the group never grows |
| Pipes.ScrollAllKeepsOrder | flappy.py:185-188 | the survivors of a group update are the scrolled pipes at a strictly increasing sequence of group positions that holds every position whose pipe stays on screen: order kept, each pipe once, the oldest survivor first |
| Pipes.ScrollDistance | flappy.py:186 | at speeds from 4 to 7 a pipe moves left by at least 4 and at most 7 pixels per tick |
| Scoring.PassCheck | flappy.py:426-435 | definition of the two pass tests on the latch and the score; its promises are in `PassCheckSpec`, `PassCheckIdempotent` and `PassCheckHorizontal` |
| Scoring.PassCheckSpec | flappy.py:426-435 | the score rises by exactly one, clearing the latch, iff the latch was set and the bird is past the pipe; otherwise it is unchanged; the latch sets only while the bird is inside the pipe's span |
| Scoring.PassCheckIdempotent | flappy.py:426-435 | a second pass check at the same positions changes nothing |
| Scoring.PassCheckHorizontal | flappy.py:427-431 | the pass check depends only on horizontal positions and widths |
| Scoring.TrajectoryScoresOncePerPass | flappy.py:426-435 | along any sequence of bird positions the score never falls, and points gained never exceed the number of entries into the pipe's span (plus a latch or stay inside carried in): however many ticks the bird spends inside, one pass scores at most one point |
| Scoring.OnePassScoresOne | flappy.py:426-435 | any number of ticks inside the span followed by any number of ticks past the pipe, from a clear latch, scores exactly one point and leaves the latch clear |
| Scoring.NoInsideNoScore | flappy.py:426-435 | a trajectory that is never inside the span scores nothing |
| Game.Initial | flappy.py:38-48 | definition of the start state (with the bird of flappy.py:404); `InitialInv` proves it satisfies the invariant |
| Game.UpdateDifficulty | flappy.py:139-150 | definition of `update_difficulty`: speed and gap become `SpeedHalves` and `Gap` of the score, whose promises are in the `Difficulty` lemmas |
| Game.ResetGame | flappy.py:120-131 | definition of `reset_game`; its promises are in `GameLemmas.ResetContract` |
| Game.GoToMainMenu | flappy.py:133-137 | definition of `go_to_main_menu`; its promises are in `GameLemmas.MainMenuContract` |
| Game.ChangeBirdType | flappy.py:152-154 | definition of the bird-type index step; its promises are in `GameLemmas.CosmeticCycle` and `CosmeticCycleFour` |
| Game.ChangeTheme | flappy.py:158-160 | definition of the theme index step; its promises are in `GameLemmas.CosmeticCycle` and `CosmeticCycleFour` |
| Game.GroundScroll | flappy.py:465-467 | definition of the ground scroll with its wrap at 35; its range is proved by `GameLemmas.GroundScrollRange` |
| Game.PassPhase | flappy.py:426-435 | definition of the pass check against the oldest pipe, with the difficulty update on a point; its promises are in `GameLemmas.PassPhaseSpec` and `PassPhaseInv` |
| Game.CollisionPhase | flappy.py:444-450 | definition of the collision rules; its promises are in `GameLemmas.CollisionPhaseSpec` and `CollisionsEndRun` |
| Game.SpawnPhase | flappy.py:455-461 | definition of the timed spawn of a pipe pair; its promises are in `GameLemmas.SpawnPaired` |
| Game.ScrollPhase | flappy.py:464-467 | definition of the group update and ground scroll; its promises are in `GameLemmas.ScrollAllPaired`, `GroundScrollRange` and `MovePhaseInv` |
| Game.GameOverScreen | flappy.py:274-312 | definition of the state changes of `draw_game_over`; its promises are in `GameLemmas.GameOverScreenInv` and `HighScoreRises` |
| Game.PlayTick | flappy.py:416-471 | definition of a tick of a started game; its promises are in `GameLemmas.PlayTickInv`, `PlayTickScores` and `CollisionsEndRun` |
| Game.MenuTick | flappy.py:472-481 | definition of a main-menu tick; its promises are in `GameLemmas.MenuTickInv` and `MenuStart` |
| Game.Events | flappy.py:484-490 | definition of the event loop; its promise is in `GameLemmas.FlightStartsOnClick` |
| Game.Tick | flappy.py:409-492 | definition of one loop pass; its promises are in `GameLemmas.TickInv`, `ScoreChange`, `GameOverSticky` and `HighScoreRises` |
| Game.Run | flappy.py:408-492 | definition of the loop over a sequence of inputs; its promises are in `GameLemmas.RunInv` and `RunHighScoreRises` |
| Game.InitialInv | flappy.py:38-48 | the start state satisfies the game invariant and the loop is running |
| GameLemmas.PairedSnoc | flappy.py:458-460 | a group that ends in a lower and an upper pipe is well paired iff those two form a pair and the rest is well paired |
| GameLemmas.ScrollAllPaired | flappy.py:185-188 | scrolling keeps the group a sequence of whole lower/upper pairs, because both pipes of a pair leave the screen together |
| GameLemmas.SpawnPaired | flappy.py:455-461 | a spawn is due iff more than 1500 ms have passed; it appends a lower then an upper pipe at x = 864 whose opening is the current gap and is centred on 468 plus the random offset, and the timer is reset |
| GameLemmas.PassPhaseSpec | flappy.py:426-435 | the pass check keeps speed and gap in step with the score, raises the score by at most one, touches only the latch, score and difficulty, and leaves nothing for a second check to do |
| GameLemmas.SettledStaysSettled | flappy.py:426-435 | a settled pass check does nothing |
| GameLemmas.CollisionPhaseSpec | flappy.py:444-450 | the run ends iff it was over or the bird overlaps a pipe, is above the screen, or reached the ground line; flight stops only at the ground line; nothing else changes |
| GameLemmas.GroundScrollRange | flappy.py:465-467 | the ground scroll stays within [-35, 0] pixels |
| GameLemmas.BirdPhaseInv | flappy.py:420 | the bird's update keeps the invariant and keeps the bird's x |
| GameLemmas.PassPhaseInv | flappy.py:426-435 | the pass check keeps the invariant, settles, and does nothing once the game is over |
| GameLemmas.CollisionPhaseInv | flappy.py:444-450 | the collision rules keep the core invariant `InvCore` (not the high-score part, which the game-over screen restores) and a settled pass check, and change no score, high score or pipe |
| GameLemmas.MovePhaseInv | flappy.py:453-467 | spawning and scrolling keep the core invariant `InvCore`, the game-over flag, the score and the high score |
| GameLemmas.GameOverScreenInv | flappy.py:270-312 | the game-over screen raises the high score to the score, changes nothing else without a button, and restart or main menu start a fresh run with score 0 and no pipes |
| GameLemmas.PlayTickInv | flappy.py:416-471 | a tick of a started game keeps the invariant |
| GameLemmas.MenuTickInv | flappy.py:472-481 | a main-menu tick keeps the invariant |
| GameLemmas.TickInv | flappy.py:409-492 | every loop pass keeps the invariant: difficulty is a function of the score, the mode flags agree, pipes come in pairs, the ground scroll is in range, and at game over the high score covers the score |
| GameLemmas.RunInv | flappy.py:408-492 | the invariant holds after any number of loop passes |
| GameLemmas.GameOverSticky | flappy.py:443-471 | without restart or main menu, a game-over tick keeps game over and changes no pipe, score, latch, difficulty, timer, ground scroll or high score; the bird may still fall |
| GameLemmas.ScoreChange | flappy.py:409-492 | a tick raises the score by at most one, only in a live started game with pipes, and drops it (to zero) only through restart or main menu |
| GameLemmas.PlayTickScores | flappy.py:416-471 | the same score bounds for a tick of a started game, and the high score never falls |
| GameLemmas.HighScoreRises | flappy.py:274-276 | the high score never falls, and is at least the score whenever the game is over |
| GameLemmas.RunHighScoreRises | flappy.py:274-276 | across any run the high score never falls |
| GameLemmas.FlightStartsOnClick | flappy.py:489-490 | a mouse-down event in a started game that is neither flying nor over starts flight, and flight begins in no other way |
| GameLemmas.MenuStart | flappy.py:472-481 | a main-menu tick starts a game iff the start button activated; the game it starts has no pipes, score 0 and is not over |
| GameLemmas.CollisionsEndRun | flappy.py:443-450 | at the end of a started tick, a bird at the ground line has ended the run and stopped flying, one above the screen has ended it, and one overlapping a pipe has ended it |
| GameLemmas.ResetContract | flappy.py:120-131 | reset empties the pipes, puts the bird at (100, 468), clears flying and game over, zeroes the score and restores the start difficulty; it keeps the pass latch, timer, velocity, high score, mode and cosmetics; resetting twice is resetting once |
| GameLemmas.MainMenuContract | flappy.py:133-137 | going to the main menu leaves play mode with a fresh run and keeps the high score and the invariant |
| GameLemmas.CosmeticCycle | flappy.py:152-160 | the bird-type and theme buttons keep their index within [0, 4), keep the invariant, and change nothing else |
| GameLemmas.CosmeticCycleFour | flappy.py:152-160 | each press of a cosmetic button moves to the next index, wrapping from 3 to 0, four presses visit four different indices, and the fourth gives back the starting state |
| Engine.HitsAnyPipe | flappy.py:444 | the loop over the group finds a hit iff the bird overlaps some pipe |
| Engine.UpdateGroup | flappy.py:464 | updating the group moves every pipe in place and keeps exactly the scrolled pipes that are still on screen, in order, with no pipe twice |
| Engine.MoveAll | flappy.py:185-188 | every pipe of the group is scrolled in place and reports whether it is still on screen |
| Engine.Survivors | flappy.py:187-188 | the pipes that did not kill themselves, in order, are exactly the value-level scroll result |
| Engine.Flappy.constructor | flappy.py:402-408 | the in-place game starts in the state `Game.Initial` describes |
| Engine.Flappy.ResetGame | flappy.py:120-131 | reset in place changes the state exactly as `Game.ResetGame` |
| Engine.Flappy.GoToMainMenu | flappy.py:133-137 | as `Game.GoToMainMenu` |
| Engine.Flappy.UpdateDifficulty | flappy.py:139-150 | as `Game.UpdateDifficulty`: speed and gap become the functions of the score |
| Engine.Flappy.ChangeBirdType | flappy.py:152-154 | as `Game.ChangeBirdType` |
| Engine.Flappy.ChangeTheme | flappy.py:158-160 | as `Game.ChangeTheme` |
| Engine.Flappy.CheckPass | flappy.py:426-435 | as `Game.PassPhase` |
| Engine.Flappy.CheckCollisions | flappy.py:443-450 | as `Game.CollisionPhase` |
| Engine.Flappy.SpawnPipes | flappy.py:455-461 | as `Game.SpawnPhase`, with the two pipes freshly allocated |
| Engine.Flappy.UpdatePipes | flappy.py:464 | the group becomes `ScrollAll` of the old group, with no pipe twice and no new pipe |
| Engine.Flappy.ScrollGround | flappy.py:465-467 | the ground scroll as `Game.GroundScroll` |
| Engine.Flappy.DrawGameOver | flappy.py:270-312 | as `Game.GameOverScreen` |
| Engine.Flappy.DrawMainMenu | flappy.py:373-387 | the bird-type and theme buttons act, and start is reported |
| Engine.Flappy.HandleEvents | flappy.py:484-490 | as `Game.Events` |
| Engine.Flappy.Advance | flappy.py:419-450 | the bird, pass and collision phases in place |
| Engine.Flappy.Move | flappy.py:453-467 | spawn, group update and ground scroll in place, as `Game.ScrollPhase` after `Game.SpawnPhase` |
| Engine.Flappy.Play | flappy.py:416-471 | as `Game.PlayTick` |
| Engine.Flappy.Menu | flappy.py:472-481 | as `Game.MenuTick` |
| Engine.Flappy.Tick | flappy.py:409-492 | one loop pass in place, as `Game.Tick`, keeping the group free of duplicates |
| Engine.Flappy.Run | flappy.py:408-492 | the loop in place, as `Game.Run`: ticks until QUIT or the inputs run out |

## Left out

- Rendering is not modelled: blits, text, the game-over and menu frames, bird
  rotation and image choice, `draw_difficulty_indicator` and
  `colorize_surface`. The cosmetic buttons are modelled only as their index
  updates; `Bird.load_images` and the theme tint are asset loading.
- `load_high_score` and `save_high_score` are file I/O. The stored high
  score is a constructor parameter, and the saves on a beaten high score and
  on QUIT are not modelled.
- `Button.draw` hit-testing reads the mouse position. Each button's
  activation is an input.
- The clock (`clock.tick`, `get_ticks`) and `random.randint` are inputs.
  `Game.Input.Valid` keeps the offset in [-100, 100], as randint promises.
- `pygame.sprite.groupcollide` is modelled by pygame's colliderect rule: the
  interiors intersect, and touching edges do not count.
- The rule by which pygame stores a fractional Rect coordinate is a
  parameter, not a fixed choice.
- `Engine.UpdateGroup`: the group update first moves every pipe and then
  drops those that reported they left the screen. pygame kills them during
  its pass over a copy of the group, which leaves the same group.
- `svgutility.py` and `test_pygame.py` are not part of this model: the first
  is an unrelated SVG batch tool and the second only opens a window.
- The per-user ledger and the welcome and user-select screens are not part
  of this model, because `flappy.py` does not have them.
