# Snake game engine, modelled in Dafny

This project models the game-state engine of `snakes_game.py`, an arcade
snake game on a 50 × 30 grid (a 1000 × 600 pixel screen in 20-pixel cells).
The snake's body is a list of cells, head first, with a target length kept
beside it. Its heading is a unit vector, or `(0, 0)` before the first arrow
key. The engine also holds the food cell, a growing list of obstacles, and
the score, level, foods eaten this level and speed (frames per second).

Each frame of the main loop does the following, in order:

1. It reads every key event of the frame. An arrow key is accepted unless it
   asks for the exact reverse of the heading left by the events before it.
2. It skips the frame if the heading is still `(0, 0)`.
3. It computes the new head.
4. It ends the game if the new head is off the grid, on the body as it was
   before the move (the last cell included), or on an obstacle.
5. It pushes the new head.
6. It grows the snake and re-places the food, or it drops the tail.
7. After five foods it levels up. The speed rises by 2 and three obstacles are
   added, each clear of the snake, the food and every other obstacle.

Modules, one file each. The functions that define the behaviour, with the
lines of `snakes_game.py` each one models:

- `Grid.GridWidth`, `Grid.GridHeight`: lines 12-15.
- `Controls.ApplyKey`: lines 155-164; `Controls.Steer`: lines 151-167.
- `Engine.BaseSpeed`: lines 91-96.
- `Engine.Initial`: lines 133-144.
- `Engine.PlanFrame` and `Engine.Collides`: lines 169-185.
- `Engine.Move`: lines 187-201.
- `Engine.LevelUp`: lines 203-212.
- `Engine.Frame`: lines 147-212, one pass of the main loop.

The files:

- `Grid` (`grid.dfy`): the screen and grid constants, cells, the free-cell
  draw `RandomPosition`, and a pigeonhole lemma. The lemma shows that a draw
  always finds a cell when the exclusion list is shorter than the grid.
- `Controls` (`controls.dfy`): headings, key events, `ApplyKey` for one event
  and `Steer`, which folds all key events of a frame in order.
- `Engine` (`engine.dfy`): a run's state as a value, the invariant `Inv`, and
  the function `Frame`. `Frame` gives the state after one frame from the keys
  read and the cells drawn. `LegalDraws` says which drawn cells are allowed.
- `Laws` (`laws.dfy`): lemmas over `Frame`. They cover idle frames, game over,
  the crash rule, eating, sliding, level-up, obstacles never being removed,
  the invariant being kept, and the invariant holding in every state of a run.
- `Game` (`game.dfy`): the class `SnakeGame`. Its fields are the main loop's
  local variables. Its constructor is the set-up, and `Tick` is one pass of
  the loop. `Tick` is proved to produce exactly `Frame(old state, keys,
  draws)`, where `draws` are the cells it drew, and to keep `Inv`.

Game over is the status `GameOver`. In the source, the game-over screen never
returns to the loop: it restarts the program or exits. So a frame on a
finished run changes nothing. The random cell choice is an arbitrary free
cell, picked with `:|`.

Points where the code's behaviour is easy to misread, modelled as written:

- All key events of a frame are folded in order; there is no single intent per frame.
  So two arrow keys in one frame can reverse the snake (`SameFrameReversal`).
- There is no "no free cell" error: the code retries forever. The model
  instead requires that a free cell exists, and proves one does whenever
  there is room.
- The body's length is trimmed only `if len(snake) > snake_length`. This
  check is modelled as written, and the invariant proves it always succeeds
  on a frame that does not eat.

## Model

| member | source | states |
|---|---|---|
| Grid.RandomPosition | snakes_game.py:50-57 | the drawn cell lies in 0 ≤ x < GRID_WIDTH, 0 ≤ y < GRID_HEIGHT and is not in the exclusion list, provided some such cell exists |
| Grid.RoomMeansFreeCell | snakes_game.py:12-15 | an exclusion list shorter than the 50 × 30 cells of the grid leaves a free cell, so the retry loop of random_position ends |
| Controls.ApplyKey | snakes_game.py:155-164 | an arrow key that asks for the reverse of the current heading leaves it unchanged; any other arrow key sets the heading to that arrow; non-arrow events change nothing |
| Controls.FirstArrowAccepted | snakes_game.py:157-164 | from the still heading (0, 0) every arrow key is accepted |
| Controls.SteerNeverStops | snakes_game.py:151-167 | folding a frame's key events yields the still heading only if the heading was still before |
| Controls.SteerKeepsHeading | snakes_game.py:151-167 | folding key events keeps the heading still or one of the four unit steps |
| Controls.SteerWithoutArrows | snakes_game.py:151-167 | a frame with no arrow keys keeps the heading |
| Controls.SameFrameReversal | snakes_game.py:151-164 | a single reversing key is refused, but Up then Left in one frame turns a snake heading right to heading left |
| Engine.StartSpeeds | snakes_game.py:91-96 | easy, medium and hard start at 10, 15 and 20 frames per second |
| Laws.IdleFrameChangesNothing | snakes_game.py:169-171 | while the heading stays (0, 0) a frame leaves body, food, obstacles, score, level and everything else unchanged |
| Laws.GameOverIsFinal | snakes_game.py:99-124 | once the status is GameOver a frame changes nothing |
| Laws.CrashLaw | snakes_game.py:176-185 | a playing frame ends the game exactly when it moves and the new head is off the grid, on the pre-move body or on an obstacle; then only heading and status change, so the score is unchanged |
| Laws.ChasingTailIsFatal | snakes_game.py:180-182 | moving the head onto the cell the tail is about to leave ends the game |
| Laws.WallScenario | snakes_game.py:177-179 | a snake at (0, 5) heading left leaves the grid: game over with the score unchanged |
| Laws.ObstacleScenario | snakes_game.py:183-185 | a snake [(5,5),(5,6),(5,7)] heading up into an obstacle at (5,4): game over with the body unchanged |
| Laws.EatingLaw | snakes_game.py:187-197 | landing on the food adds 10 to the score, one cell to the body (head pushed, tail kept) and one to snake_length, counts the food (or resets the counter on level-up), and the new food is on no snake cell and no obstacle |
| Laws.SlidingLaw | snakes_game.py:187-201 | a move that does not eat gives the new head followed by the old body minus its last cell, so the length, the score and the food stay the same |
| Laws.LevelUpLaw | snakes_game.py:203-212 | when foods_eaten reaches 5 the level rises by 1, the counter resets to 0, the speed rises by 2, exactly 3 obstacles are appended behind the old ones, and each avoids the snake, the food and every earlier obstacle, including those of the same level-up |
| Laws.NoLevelUpLaw | snakes_game.py:203-204 | below the threshold level, speed and obstacles stay and the counter holds the foods eaten |
| Laws.ObstaclesNeverRemoved | snakes_game.py:208-212 | the obstacle list before a frame is a prefix of the list after it |
| Laws.AvoidExtend | snakes_game.py:209-212 | an obstacle drawn clear of the snake, the food and all obstacles so far keeps the level-up placement rule |
| Laws.MoveKeepsLayout | snakes_game.py:187-201 | pushing a head that passed the collision checks, then growing or dropping the tail, keeps the body distinct and on the grid, clear of the obstacles and of the food |
| Laws.LevelUpKeepsLayout | snakes_game.py:203-212 | appending obstacles drawn by the placement rule keeps obstacles distinct, on the grid and off the snake and the food |
| Laws.FrameKeepsInv | snakes_game.py:147-212 | every frame keeps the invariant: body distinct and on the grid with len(snake) == snake_length, food and obstacles placed apart, and score, length, obstacle count and speed in step with foods eaten and level |
| Laws.InitialInv | snakes_game.py:133-144 | the initial state (one cell at the centre, score 0, level 1, no obstacles, base speed, food off the snake) satisfies the invariant |
| Laws.RunKeepsInv | snakes_game.py:128-212 | every state of a run from the initial state satisfies the invariant |
| Laws.ReachableStatesAreSound | snakes_game.py:133-212 | every reachable state has distinct in-bounds body cells, len(snake) == snake_length, free food, score 10 × (length − 1), 3 × (level − 1) obstacles and speed base + 2 × (level − 1) |
| Game.SnakeGame.constructor | snakes_game.py:128-144 | a new run at the chosen difficulty is the initial state with food drawn off the centre cell, and satisfies the invariant |
| Game.SnakeGame.Tick | snakes_game.py:147-212 | one frame updates the fields to exactly Frame(old state, keys, drawn cells), where the drawn cells obey the placement rules, and keeps the invariant |
| Game.SnakeGame.ReadKeys | snakes_game.py:150-167 | after the event loop the heading is the fold of the frame's key events over the old heading |
| Game.SnakeGame.Advance | snakes_game.py:187-201 | pushes the head and either eats (score, counter, length, new free food) or drops the tail, as the function Move says |
| Game.SnakeGame.LevelUpIfDue | snakes_game.py:203-212 | levels up as the function LevelUp says, with the three drawn obstacles obeying the placement rule |

## Left out

- Rendering: fonts, `draw_text`, the drawing section, screen flips. These are display work through pygame.
- Process control: `pygame.QUIT` events and the Escape key, which exit the process. Key sequences here hold only arrow keys and other keys that the loop ignores.
- The event loops of the start screen and the game-over screen, the recursive restart, and `clock.tick`. These are input and timing. Only the speed table and the fact that game over is terminal are kept.
- Uniformity of `random.randint`: a draw is any free cell, because a distribution is not something the verifier can state here.
- `instagram_account.py`: HTTP calls, image drawing and prints, with no engine logic.
- Grid.RandomPosition: requires that a free cell exists. The source instead loops forever when the exclusion list covers the grid.
- Game.SnakeGame.Tick: requires that the grid has a free cell for every cell the frame draws (body + obstacles + cells drawn < 1500). On a valid state these cells are all distinct, so this excludes exactly the frames on which the source hangs forever in `random_position`.
- Game.SnakeGame.Advance: requires room for the new food only when the head lands on the food, the one case where the source draws a cell.
- Game.SnakeGame.LevelUpIfDue: requires room for three obstacles only when a level-up is due, the one case where the source draws them.
