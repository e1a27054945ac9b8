# Catch the falling tears: a Dafny model of the game logic

This project models the gameplay core of `catch_game.py`, a pygame arcade
game. The player moves a bucket left and right along the bottom of an
800x600 window and catches falling tears:

- A blue tear that is caught scores 10.
- A red (dangerous) tear that is caught costs a life.
- A blue tear that falls off the bottom costs a life. A red tear that falls off costs nothing.
- The game moves from a welcome screen to play and then to a game-over
  screen, from which it can be restarted or quit.

The model is integer-valued throughout, and drawing and sound are left out.

Modules:

- `Geometry` (geometry.dfy): pygame's `Rect.collidepoint` and
  `Rect.colliderect` on half-open integer boxes.
- `Entities` (entities.dfy): the constants of the file, plus the game's entities.
  - The `Bucket` class: `move_left`, `move_right`, `get_rect`.
  - Falling tears as values: `__init__`, `update`, `get_rect`, `is_off_screen`.
  - The life countdown of particles, and the particle pass that prunes dead ones.
  - The `Button` class: `is_clicked`, `update_hover`.
- `Screens` (screens.dfy): how `Game.run` routes each event between the
  three screens, when it calls `reset_game`, and when it stops the loop.
- `Rules` (rules.dfy): the game state as a value `World`.
  - `Update` specifies `update_game` and `FrameWorld` specifies one pass of the main loop.
  - Lemmas state the scoring rules, the spawn cadence and the invariant kept between frames.
- `CatchGame` (catch_game.dfy): the `Game` class.
  - Its fields are changed in place by `ResetGame`, `UpdateGame`, `PruneParticles`, `HandleEvents`, `Frame` and `Run`.
  - Each method is proved to follow the functions of `Rules`.
  - The two snapshot loops are imperative methods over the live list (`SweepTears`, `PruneLive`): they overwrite the visited entry and remove it at its current index, as the source's `list.remove` does.

Inputs that the program reads from pygame or `random` are parameters:

- the events of a frame;
- the pointer position read at the start of the frame;
- the held keys;
- one `SpawnDraw` per frame, holding the `randint` column, the 1..100 hazard roll and the `random.choice` blue.

The bucket's edges:

- The guards of `move_left` and `move_right` test the old position, so the bucket is not clamped to [0, 680]: it overshoots to -4 and 684. See `Entities.EdgesOvershoot` and `Entities.ReachableIsExact`.

Lives and the game-over screen:

- `update_game` does not stop when lives reach 0. It finishes the loop over the snapshot, so the step function alone does not bound lives below. `Rules.LivesCanFallBelowZero` shows one pass taking a single remaining life to -1, with tears placed at heights chosen for the example.
- In the game as played, tears are released 60 frames apart from height -35, so at most one life is lost per frame. Lives therefore stop at 0.

## Model

| member | source | states |
|---|---|---|
| Geometry.Contains | catch_game.py:113-114 | `collidepoint`: a box of no width or height contains no point |
| Geometry.Overlaps | catch_game.py:543 | `colliderect`: two boxes that are both empty along one axis never overlap |
| Geometry.OverlapsIffSharedPoint | catch_game.py:543 | for boxes of positive size, `colliderect` holds exactly when the two boxes share a point under `collidepoint` |
| Entities.LeftStep | catch_game.py:127-129 | one `move_left` moves the bucket left by at most one step, and never to -8 or below from a position above -8 |
| Entities.RightStep | catch_game.py:131-133 | one `move_right` moves the bucket right by at most one step, and never to 688 or beyond from a position below 688 |
| Entities.Bucket.constructor | catch_game.py:120-125 | a new bucket has `x` and `y` as given; its width, height and speed are the module constants `BucketWidth`, `BucketHeight` and `BucketSpeed` (120, 35, 8), which `Box`, `MoveLeft` and `MoveRight` use |
| Entities.Bucket.MoveLeft | catch_game.py:127-129 | `x` drops by BUCKET_SPEED when the old `x` is positive, and is unchanged otherwise |
| Entities.Bucket.MoveRight | catch_game.py:131-133 | `x` rises by BUCKET_SPEED when the old `x` is below WINDOW_WIDTH - width, and is unchanged otherwise |
| Entities.Bucket.Box | catch_game.py:181-182 | the bucket's rectangle at its row is the 120x35 box whose left edge is `x` |
| Entities.StepsKeepBand | catch_game.py:127-133 | each move changes `x` by exactly one step or not at all, and keeps -8 < x < 688 |
| Entities.ReachableClosed | catch_game.py:127-133 | the grid of positions 4 mod 8 between -4 and 684 contains the start position 340 and is closed under both moves |
| Entities.StepsStayReachable | catch_game.py:127-133 | holding either key for any number of frames keeps the bucket on that grid |
| Entities.LeftSlide | catch_game.py:127-129 | while every guard passes, n left moves subtract exactly 8n |
| Entities.RightSlide | catch_game.py:131-133 | while every guard passes, n right moves add exactly 8n |
| Entities.EdgesOvershoot | catch_game.py:127-133 | the moves are not a clamp: from 340, 43 left moves reach -4 and 43 right moves reach 684, and the bucket then stops |
| Entities.ReachableIsExact | catch_game.py:127-133 | every position of the grid is reached from the start by holding one key |
| Entities.NewObject | catch_game.py:185-203 | a new tear keeps its position and danger flag; a dangerous one is red with speed 6 (5 x 1.2), a benign one has speed 5 and the drawn blue |
| Entities.FallingObject.Fall | catch_game.py:204-205 | `update` keeps the tear's column, speed, danger and colour, and moves it down whenever its speed is positive |
| Entities.FallingObject.Box | catch_game.py:251-252 | `get_rect` is a 35x35 box that contains the tear's centre |
| Entities.FallingObject.OffScreen | catch_game.py:254-255 | an off-screen tear's box lies wholly below the window |
| Entities.FallIsLinear | catch_game.py:204-205 | n updates move a tear straight down by n times its speed and change nothing else |
| Entities.FramesToLeave | catch_game.py:254-255 | a tear released at -35 is first off screen after 135 updates if benign and after 112 if dangerous |
| Entities.BoxCentred | catch_game.py:251-252 | a tear's rectangle holds exactly the points within 17 of its centre on both axes |
| Entities.CatchZone | catch_game.py:543 | a tear overlaps the bucket at `bx` exactly when bx - 18 < x < bx + 137 and 522 < y < 592 |
| Entities.CaughtIsOnScreen | catch_game.py:543-562 | a tear that overlaps the bucket is never off screen, so a catch and a miss never apply to the same tear |
| Entities.Particle.Tick | catch_game.py:63-67 | `update` lowers `life` by one and keeps the particle's kind, so a dead particle stays dead |
| Entities.Particle.IsAlive | catch_game.py:77-78 | a particle of full life is alive |
| Entities.Burst | catch_game.py:308-312 | `create_particles` adds exactly `count` particles, each with the full life of 60 |
| Entities.Prune | catch_game.py:444-449 | the particle pass never lengthens the list and leaves only live particles |
| Entities.PruneNext | catch_game.py:444-449 | loop step for `CatchGame.PruneLive`: the pass over one more particle handles that particle on its own, after the ones before it |
| Entities.PruneContents | catch_game.py:444-449 | the pass drops only dead particles: every particle still alive after its `update` is kept, and every kept particle is one of the old ones after its `update` |
| Entities.PruneCounts | catch_game.py:444-449 | the pass keeps every copy: each value alive after its `update` occurs in the result exactly as many times as among the updated particles, so all equal particles of a burst survive together |
| Entities.PruneAges | catch_game.py:63-78 | if every particle has at most `bound` frames of life left, every survivor of a pass has at most `bound - 1` left |
| Entities.PruneEmpties | catch_game.py:444-449 | particles with at most n frames of life left are all gone after n passes |
| Entities.Button.constructor | catch_game.py:81-88 | a new button has the given rectangle and is not hovered |
| Entities.Button.IsClicked | catch_game.py:113-114 | a button of no width or height is never clicked |
| Entities.Button.UpdateHover | catch_game.py:116-117 | the hover flag becomes whether the pointer is inside the button |
| Screens.GameOverButtonsDisjoint | catch_game.py:279-280 | the restart and quit buttons share no point, so the order of their `elif` tests never matters |
| Screens.Transition | catch_game.py:575-606 | QUIT, or a click on the quit button on the game-over screen, stops the loop and nothing else does. An event ends in play exactly when play was already on, or it is SPACE or a start click on the welcome screen, or R or a restart click on the game-over screen. Every entry into play resets. |
| Screens.RouteAll | catch_game.py:574-606 | over a frame's events, the screen ends where it began or in play, and a reset happens exactly when play is entered. Away from play, the frame enters play exactly when one of its events is SPACE or a start click on the welcome screen, or R or a restart click on the game-over screen. The loop stops exactly when a QUIT arrives, or on the game-over screen with the pointer on the quit button when a click comes before any R. |
| Screens.PlayingStaysPlaying | catch_game.py:574-606 | while playing, no event changes the screen or resets; the loop stops exactly when a QUIT arrives |
| Rules.Reset | catch_game.py:515-521 | `reset_game` leaves the screen alone and restores score 0, 5 lives, empty lists, timer 0 and the bucket at 340 |
| Rules.Steer | catch_game.py:526-530 | holding only LEFT makes exactly one `move_left` and holding only RIGHT exactly one `move_right`; with no key held the bucket stays put, with both held it stays put while both guards pass, and it never moves by more than one step |
| Rules.SpawnStep | catch_game.py:532-539 | the spawn step changes only the timer and the list. The list grows by at most one tear, appended at the end, and exactly when the timer wraps to 0. The new tear is at -35 and is dangerous iff the roll is at most 15. The timer stays in [0, 60). |
| Rules.SpawnCadence | catch_game.py:532-535 | after n frames the timer is (t + n) mod 60 and (t + n) div 60 tears have been added |
| Rules.LoseLife | catch_game.py:551-555 | losing a life lowers lives by one and switches to the game-over screen exactly when none are left |
| Rules.FateOfCases | catch_game.py:543-562 | the catch test comes first, yet a tear is caught exactly when it touches the bucket and missed exactly when it is off screen, since no tear is both |
| Rules.Resolve | catch_game.py:541-568 | per moved tear: a catch takes precedence over a miss. A caught blue tear scores 10 and adds 8 particles; a caught red tear costs a life and adds 12. A missed blue tear costs a life and a missed red tear changes nothing. A tear neither caught nor missed is appended, moved, to the list, and nothing else changes. |
| Rules.Sweep | catch_game.py:541-568 | the loop over the snapshot never changes the spawn timer or the bucket; the screen stays or becomes game over, lives never rise and the score never falls |
| Rules.SweepNext | catch_game.py:541 | loop step for `CatchGame.SweepTears`: each tear of the snapshot is resolved against the state the earlier tears left |
| Rules.Kept | catch_game.py:541-568 | as many tears are kept as the snapshot has tears neither caught nor missed; a launched tear that is kept is still in flight |
| Rules.KeptAreFalling | catch_game.py:541-568 | each kept tear is a snapshot tear, moved, that was neither caught nor missed |
| Rules.FallingAreKept | catch_game.py:541-568 | each snapshot tear that, once moved, is neither caught nor missed is kept |
| Rules.Bursts | catch_game.py:541-560 | a pass adds 12 particles per red catch and 8 per blue catch, all of full life |
| Rules.SweepCounts | catch_game.py:541-568 | after the loop, the score has risen by 10 per blue catch and lives have fallen by one per red catch or blue miss; the state is game over exactly when it was already, or when a loss left no lives |
| Rules.SweepLists | catch_game.py:541-568 | after the loop, the kept tears follow in their original order and the bursts of the catches are appended in order |
| Rules.EveryTearAccountedFor | catch_game.py:541-568 | every tear of the snapshot is exactly one of kept, caught or missed |
| Rules.LivesCanFallBelowZero | catch_game.py:541-568 | with one life left, a red catch and a blue miss in the same pass end at -1 lives on the game-over screen |
| Rules.Update | catch_game.py:523-568 | `update_game` steers the bucket by the held keys and counts the spawn timer one frame on modulo 60; the screen stays or becomes game over, lives never rise and the score never falls |
| Rules.UpdateOutcome | catch_game.py:523-568 | from play, `update_game` ends in play or game over, and in game over exactly when lives are at most 0; score only rises, in multiples of 10, and lives only fall |
| Rules.SteerReachable | catch_game.py:526-530 | the held keys keep the bucket on its reachable grid |
| Rules.SpawnLaunched | catch_game.py:532-539 | a spawn from draws in their documented ranges adds a tear inside the window's columns, at its start height, with the speed and colour of its kind |
| Rules.UpdateKeepsCore | catch_game.py:523-568 | one `update_game` from play keeps the between-frame invariant: bucket on its grid, timer in range, score a non-negative multiple of 10, lives at most 5 and positive in play, tears in flight |
| Rules.Routed | catch_game.py:573-606 | the events of a frame either change only the screen or reset the game into play; while playing they change nothing |
| Rules.FrameWorld | catch_game.py:570-623 | a frame ends on the screen its events led to, or on game over when play was lost; on the welcome screen nothing changes |
| Rules.KeepsRunning | catch_game.py:571-606 | the loop never goes on after a QUIT, and away from the game-over screen it goes on exactly when there was none |
| Rules.InitialInv | catch_game.py:258-287 | the state `Game.__init__` leaves satisfies the invariant |
| Rules.FrameKeepsInv | catch_game.py:570-623 | one pass of the main loop keeps the invariant, including particles of life at most 59 |
| Rules.PlayedKeepsInv | catch_game.py:570-623 | any number of frames played in order, with draws in their ranges, keep the invariant |
| Rules.EnteringPlayResets | catch_game.py:574-606 | when a frame enters play, the state is exactly the reset state, and one of its events started the game |
| Rules.GameOverHolds | catch_game.py:570-623 | without a start or restart event, a frame on the game-over screen changes nothing but the particle ages |
| CatchGame.SweepTears | catch_game.py:541-568 | the in-place loop over the snapshot ends with the screen, score, lives, particles and live tears that `Rules.Sweep` gives |
| CatchGame.PruneLive | catch_game.py:444-449 | the in-place particle loop leaves exactly `Prune` of the snapshot |
| CatchGame.Game.constructor | catch_game.py:258-287 | a new game is on the welcome screen with the initial state and the three buttons placed; the invariant holds |
| CatchGame.Game.ResetGame | catch_game.py:515-521 | the fields become `Reset` of the old state |
| CatchGame.Game.UpdateGame | catch_game.py:523-568 | the fields become `Update` of the old state for the held keys and draws |
| CatchGame.Game.PruneParticles | catch_game.py:444-449 | only the particle list changes, to `Prune` of the old list |
| CatchGame.Game.HandleEvents | catch_game.py:573-606 | the fields become `Routed` of the old state, and the method reports a stop exactly when `RouteAll` does |
| CatchGame.Game.Frame | catch_game.py:570-623 | one loop pass leaves `FrameWorld` of the old state; the screen's buttons get their hover flags; the result says whether the loop goes on |
| CatchGame.Game.Run | catch_game.py:570-629 | over a script of frames, the state is the frames played in order and the invariant holds. Every frame played before the last kept the loop running, so none held a QUIT. The loop ends on the first frame that stops it, or with `running` still set when the script runs out. |

## Left out

- Drawing: every `draw` method, gradients, fonts, `draw_ui` and the animated backgrounds. These are pygame rendering with float animation.
- Particle position, velocity and size: `random.uniform` floats and gravity. Only the life countdown and the pruning are modelled.
- The float animation counters `animation_time`, `rotation` and `pulse_time`, which have no gameplay effect.
- Audio: `load_sounds`, `play_tear_sound`, `load_music`, `mixer.music.stop` and the `music_started` flag. These are mixer I/O.
- pygame's event queue, key state, pointer, display flip, clock and `sys.exit`. They become the explicit inputs of `Frame` and `Run`.
- `random` itself. The draws are inputs, and `ValidDraw` constrains them to their documented ranges.
- Tears and particles are values, so their object identity is not modelled. `list.remove` on a tear removes that same object, which the model expresses as removal at the visited index.
- CatchGame.SweepTears: it runs the loop of `update_game` on local copies of the fields, which `UpdateGame` stores back after the loop. Nothing else reads the fields during the loop, so the result is the same.
- CatchGame.PruneLive: it runs the particle loop on a local copy of `particles`, which `PruneParticles` stores back. Nothing else reads the list during the loop, so the result is the same.
- CatchGame.Game.Run: it plays a finite script of frames instead of an endless loop. When the script runs out while the loop still runs, the result says so through `running`.
- A lower bound on lives in play. Tears are released 60 frames apart, so at most one life is lost per frame and lives stop at 0. Proving this needs an invariant relating each tear's height to the frames since it was released, which the model does not carry.
- Geometry.Overlaps: pygame 2's `colliderect` is false whenever either rectangle has no width or no height, whereas the half-open test here can hold for an empty box lying inside a non-empty one. Every box the game tests has positive size, where the two agree.
- Float arithmetic: a dangerous tear's speed `5 * 1.2` is exactly 6.0 and positions stay whole, so the model uses integers.
