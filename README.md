# Simple Racing Game — verified model of the frame update

This project models the game state of a small pygame arcade game. The player's car sits near the bottom of an 800×600 screen and steers left and right. Obstacle cars appear above the screen every 21 frames and scroll down 5 pixels per frame. A session ends when the car overlaps an obstacle. Every frame the car survives adds one point to the score.

Drawing, event polling, timing and randomness are removed from the model. The rest is a small state machine that uses integers only:

- `Config` (config.dfy) holds the game's constants.
- `Rects` (rects.dfy) models pygame's rectangle and its `colliderect` overlap test.
- `Obstacles` (obstacles.dfy) models `create_obstacle`, `move_obstacles` and `check_collision`.
- `Race` (race.dfy) models the state kept by `game_loop`: the car, the obstacle list, the spawn timer and the score. It has two parts:
  - Pure functions on snapshots: `Start`, `Steer`, `NextTimer`, `Update`, and `Play` for a run of frames. The lemmas about the session are proved on these.
  - The `Game` class, whose fields are updated in place as `game_loop` updates them. Its `Step` and `Run` methods are proved to produce exactly what `Update` and `Play` describe.
- `Screens` (screens.dfy) models how polled events move the program between the main menu, a play session and exit.

Key state, polled events and the random column of a new obstacle are parameters of the model. The column has the subset type `SpawnX`, which holds 0..750, the range of `random.randint(0, WIDTH - OBSTACLE_WIDTH)`.

Steering is guarded by `left > 0` and `right < WIDTH`; it is not clamped. The car stays on screen only because it starts at x = 375, a multiple of the 5-pixel step. `Race.GuardIsNotAClamp` shows that a car off that grid would leave the screen.

## Model

| member | source | states |
|---|---|---|
| `Rects.CollideRect` | main.py:76 | Defines `Rect.colliderect` for the game's rectangles as strict overlap of the two rectangles' open intervals on both axes. `Rects.CollideIffSharedPixel` proves that this is the same as sharing a pixel. |
| `Rects.CollideIffSharedPixel` | main.py:74-78 | For rectangles of positive size, `colliderect` holds exactly when some pixel lies inside both. Rectangles that only share an edge do not collide. |
| `Obstacles.CreateObstacle` | main.py:62-65 | A new obstacle is 50×100, sits at the column it is given, lies inside the screen's width, and lies entirely above the top edge (its bottom is at y = 0). |
| `Obstacles.Filter` | main.py:71 | The filtered list is no longer than its input. |
| `Obstacles.FilterMembers` | main.py:71 | The filtering comprehension keeps exactly the elements that pass the test. |
| `Obstacles.FilterAppend` | main.py:71 | Filtering commutes with concatenation, so the kept obstacles keep their relative order. |
| `Obstacles.Moved` | main.py:68-71 | Defines `move_obstacles` as a specification: advance every obstacle by 5, then keep those with y < 600. `Obstacles.MovedSpec`, `Obstacles.MovedIsShiftedSurvivors` and `Obstacles.MovedAppend` prove its properties, and `Obstacles.MoveObstacles` is proved to compute it. |
| `Obstacles.MovedAppend` | main.py:68-71 | Moving a list with one more obstacle at its end gives the moved list of the others, followed by that obstacle moved down by 5 iff it survives the move. |
| `Obstacles.MovedIsShiftedSurvivors` | main.py:68-71 | Moving and then pruning gives exactly the obstacles with y + 5 < 600, in their original order, each moved down by 5. |
| `Obstacles.MovedSpec` | main.py:68-71 | After a move the list is no longer than before and every obstacle is visible (y < 600). An obstacle is in the new list iff it is the moved copy of an old obstacle that survives the move. An obstacle that reaches y ≥ 600 is dropped. |
| `Obstacles.MoveObstacles` | main.py:68-71 | The two loops (move every y in place, then build the list of visible obstacles) compute exactly the move-then-prune specification, which equals the moved survivors. |
| `Obstacles.CheckCollision` | main.py:74-78 | The result is true iff some obstacle in the list strictly overlaps the car, so it is false on the empty list. |
| `Race.Start` | main.py:140-143 | A session starts with the car centred horizontally, its bottom edge 10 pixels above the bottom of the screen, no obstacles, and timer and score 0. This state satisfies the session invariant. |
| `Race.Steer` | main.py:154-157 | One frame of steering moves the car by −5, 0 or +5 and never changes its y or size. Holding only the left key moves the car 5 pixels left when its left edge is right of x = 0. Holding only the right key moves it 5 pixels right when its right edge is left of x = 800. With neither guarded move enabled the car is unchanged. With both keys held, a car whose left edge is right of x = 0 and whose right edge is left of x = 805 ends where it was, because the right move undoes the left move. A car at or left of x = 0 with its right edge left of x = 800 moves 5 pixels right, because the left guard fails first and the right move then runs. Without the left key the car does not move left, and without the right key it does not move right. A car on screen and on the 5-pixel grid stays on screen and on the grid. |
| `Race.GuardIsNotAClamp` | main.py:154-157 | The edge guards alone do not keep the car on screen: a car off the 5-pixel grid can overshoot either edge by 3 pixels. |
| `Race.NextTimer` | main.py:160-162 | A timer in [0, 20] stays in [0, 20] and advances by one modulo 21. It resets to 0 exactly when the incremented value exceeds 20. |
| `Race.Update` | main.py:153-188 | Defines one frame of `game_loop`: steer, tick the timer and maybe spawn, move and prune, test for collision, and score the frame unless it crashed. `Race.UpdatePreservesInv` and `Race.SpawnAddsExactlyOne` prove its properties, and `Race.Game.Step` is proved to compute it in place. |
| `Race.UpdatePreservesInv` | main.py:153-188 | Every frame preserves the session invariant: the car is in [0, 750] on the 5-pixel grid at its fixed row and size; the timer is in [0, 20]; the score is non-negative; every obstacle is 50×100, within the screen's width, and has −95 ≤ y < 600 with y a multiple of 5. |
| `Race.SpawnAddsExactlyOne` | main.py:160-166 | A frame whose timer spawns appends exactly one obstacle, at the given column and at y = −95 after its first move, behind the moved survivors. Any other frame only moves and prunes. |
| `Race.Play` | main.py:145-188 | Defines the session loop over a finite input stream: apply `Update` frame by frame and stop at the first frame that crashes. `Race.PlayScore`, `Race.PlayTimer`, `Race.PlaySplit`, `Race.PlayPreservesInv`, `Race.QuietFrames` and `Race.FirstSpawn` prove its properties, and `Race.Game.Run` is proved to compute it from the start state. |
| `Race.PlayScore` | main.py:169-174 | A run without a crash uses every input and raises the score by one per frame. A run that crashes stops at the crashing frame, and that frame is not scored. So the score shown at game over equals the number of frames completed before the crash. |
| `Race.PlayPreservesInv` | main.py:145-188 | The session invariant holds after any run of frames. |
| `Race.PlayTimer` | main.py:160-163 | After any run the timer equals the number of frames played modulo 21, counted from the starting timer. |
| `Race.PlaySplit` | main.py:145-188 | Running two input streams one after the other is the same as running the first and, unless it crashed, continuing from where it left off. |
| `Race.QuietFrames` | main.py:160-166 | Before the first spawn the list stays empty, no frame crashes, and the timer and score both count the frames. |
| `Race.FirstSpawn` | main.py:140-166 | From the start of a session the list is empty for 20 frames. The first obstacle appears in frame 21, at that frame's column and y = −95. After frame 21 the timer is 0 and the score is 21. |
| `Race.TouchingIsNotACrash` | main.py:169-188 | One fixed example: the car at its start position, one obstacle directly above it at y = 385, timer 0, score 7, and no key held for two frames. After the first frame the obstacle's bottom edge touches the car's top edge; that frame is not a crash and raises the score to 8. The second frame overlaps and ends the session with the score still 8. |
| `Race.Game.constructor` | main.py:48-55 | The game starts with the car at (375, 490) with size 50×100 and an empty obstacle list. |
| `Race.Game.Reset` | main.py:140-143 | Session start sets timer and score to 0, moves the car's corner back to (375, 490) and clears the obstacles. |
| `Race.Game.Step` | main.py:153-188 | One frame updates the fields in place exactly as `Update` describes: steer, tick and maybe spawn, move and prune, test for collision, score unless crashed. It also preserves the session invariant. |
| `Race.Game.Run` | main.py:138-191 | A session resets the state and then steps until a frame crashes or the inputs run out. Its outcome is exactly `Play` from the start state. |
| `Screens.MenuPoll` | main.py:126-135 | The menu handles events in order and the first deciding event wins. It starts a session iff ENTER comes before any other deciding event. It exits iff closing the window or ESC comes first. With no deciding event it stays on the menu. |
| `Screens.PlayingPoll` | main.py:148-151 | During a session, closing the window exits whatever else happens, and no key ends the session (ESC is ignored). Without a close event the session goes back to the menu iff the frame crashed. |
| `Screens.Next` | main.py:194-196 | Exit is final. The menu leads to a session only on ENTER. A session leads back to the menu only after a crash. In a session, exit happens iff the window is closed. |

## Left out

- Drawing and text (`draw_car`, `draw_obstacle`, `display_text`, `screen.fill`, `pygame.display.flip`): rendering only, with no effect on the state.
- `clock.tick(FPS)` and the 3-second `pygame.time.wait` at game over: real-time blocking with no logical effect.
- `random.randint`: the column is a parameter of type `SpawnX`, which holds the same range of values.
- Event polling and `pygame.key.get_pressed`: events and held keys are parameters. `pygame.quit()`/`sys.exit()` become the `Exit` screen.
- The infinite top-level `while True` of menu and game loop: it is modelled as the one-step transition `Screens.Next`. `Race.Game.Run` models a session over a finite stream of frames.
- `Rects.CollideRect`: pygame's special cases for rectangles of zero or negative size are not modelled, because every rectangle in the game is 50×100.
- pygame stores rectangle coordinates as C integers. Overflow is not modelled, because all coordinates stay between −100 and 800.
