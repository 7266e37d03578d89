# Roguelike board, player and enemy logic

This project models the game logic of a small turn-based 2D roguelike made with Unity. The
logic has three parts:

- **The board generator** (`BoardManager`). From the level it sizes a square board and lays
  the outer walls and the floor. It fills a free-cell list `gridPositions` with the inner
  cells. It carves a maze out of that list, scatters food, treasure and enemies on cells it
  removes from the list, and puts the exit in the top-right corner.
- **The player** (`Player`). It holds health, score and the game-over flag. Damage, food,
  treasure and the exit change them, and they carry over to the next level through the game
  manager. Keyboard input becomes a one-axis step, and the sprite faces that way. The whip
  hits the first enemy among the physics hits.
- **The enemies** (`Enemy`). Each one registers with the game manager and chases the player
  one cell at a time. A random draw sometimes sends it along the wrong axis or the wrong way.
  It damages the player when blocked by them. It leaves the registry and is destroyed when
  its health drops below 1.

Every `Random.Range` draw is a parameter. The board generator is the class
`Board.BoardManager`: its fields are the board size, the free list and the sequence `tiles`
of objects it instantiates, in order. Its methods keep the loops of the source. Each method
is proved to produce exactly what a specification function says: `Scene` for a whole level,
and the wall sequences of module `Mazes` for the maze layouts. The lemmas beside these
functions state what the layouts mean: which cells they cover, that no cell gets two objects,
how many objects appear, and which branches can run at all. The pure parts of `Update` and
`MoveEnemy` are functions in module `Moves`. The state changes of `Player` and `Enemy` are
methods of classes in module `Actors`.

Modules:

- `Options`: the option type.
- `Lists`: `List<T>` operations on sequences (`RemoveAt`, `Remove`), and lists without
  repetitions.
- `Grid`: cells, and the blocks of cells a nested `for` loop visits.
- `Mazes`: the walls of the corner, vertical and horizontal mazes.
- `Scatter`: the retry filter of `RandomPosition`, runs of picks, object counts and `log2`.
- `Board`: the scene specification, its lemmas, and `BoardManager`.
- `Moves`: input normalisation, facing and the enemy's chase step.
- `Actors`: `GameManager` (the state it carries), `Player` and `Enemy`.

Facts about the code that a reader might not expect, each proved about the model:

- The maze choice in `SetupScene` compares the draw with 10.33. Every draw therefore selects
  the corner maze, and the vertical and horizontal mazes never run (`Board.MazeChoice`).
  Inside the corner maze, the ascending form is guarded by a draw `<= -0.5` and never runs
  either (`Mazes.CornerAlwaysDescends`). Of the four layouts `SetupScene` chooses
  between, only the corner maze is ever laid.
- The retry test of `RandomPosition` parses as `(isEnemy && x < 1.5) || y < 1.5`. Every
  placed object therefore has y >= 2, not only enemies (`Scatter.AcceptedCells`).
- The enemy count is `(int)Mathf.Log(level, 2f)`, and `LayoutObjectAtRandom` adds
  `level * levelScale / 2` to it, as it does for every object kind (`Board.SceneCounts`).
  At level 1 this gives one enemy, not zero (`Board.LevelOneScene`).
- `BoardSetup` covers [-1, columns] x [-1, rows], that is (columns + 2) * (rows + 2) tiles,
  outer ring included (`Board.BackdropSize`).
- `RandomPosition` has no retry cap: when no free cell passes the filter it never returns
  (`Scatter.NeverStops`). On an empty list `Random.Range(0, 0)` returns 0, and reading
  entry 0 fails.
- `CheckIfGameOver` has no one-shot guard. Every call at health 0 starts the death sequence
  again (`Actors.Player.CheckIfGameOver`).
- Escape sets health to 0 without running the check. The check runs at the next attempted
  move or damage (`Actors.Player.Update`).
- Enemy.cs:79-99 tests `RNG > .75` and `RNG < .1` one after the other. No draw falls in
  both bands, and the direct step covers [0.1, 0.75]. The "10%" comment on the wrong-axis
  deviation disagrees with its threshold `RNG > .75`, which takes a quarter of [0, 1]. The
  model follows the threshold (`Moves.ChaseWrongAxis`).
- The generator declares a `treasureCount` range (BoardManager.cs:36), but treasure draws
  its count from `foodCount` (BoardManager.cs:258), so `treasureCount` is never read
  (`Board.SceneCounts`).

## Model

| member | source | states |
|---|---|---|
| Lists.RemoveAt | Assets/_Complete-Game/Scripts/BoardManager.cs:116 | `List.RemoveAt(i)` shortens the list by one; entries before i stay, entries after i move down by one, and exactly one copy of the entry at i leaves the multiset |
| Lists.Remove | Assets/_Complete-Game/Scripts/BoardManager.cs:170 | `List.Remove(x)` leaves a list without x unchanged, and otherwise shortens it by exactly one |
| Lists.RemoveCount | Assets/_Complete-Game/Scripts/BoardManager.cs:170 | `Remove` takes one copy of x out of the multiset of entries, and none when x is absent |
| Lists.RemoveFirstOccurrence | Assets/_Complete-Game/Scripts/BoardManager.cs:170 | `Remove` deletes the first occurrence of x and keeps the order of every other entry |
| Lists.RemoveEach | Assets/_Complete-Game/Scripts/BoardManager.cs:165-179 | one `List.Remove` per walled cell, in the order the walls are laid |
| Lists.RemoveEachDistinct | Assets/_Complete-Game/Scripts/BoardManager.cs:165-179 | removing a sequence of cells one by one from a list without repetitions leaves exactly the listed cells that were not removed, still without repetitions |
| Grid.BlockLength | Assets/_Complete-Game/Scripts/BoardManager.cs:55-63 | the nested x/y loops visit width * height cells |
| Grid.BlockCells | Assets/_Complete-Game/Scripts/BoardManager.cs:77-80 | the nested x/y loops visit each cell of their rectangle exactly once and no other cell |
| Mazes.UpLine | Assets/_Complete-Game/Scripts/BoardManager.cs:137-151 | the cells an upward `for` loop walls, in order, skipping those within one of the opening when the opening is on this arm |
| Mazes.DownLine | Assets/_Complete-Game/Scripts/BoardManager.cs:165-179 | the cells a downward `for` loop walls, in order, skipping those within one of the opening when the opening is on this arm |
| Mazes.AscendingL | Assets/_Complete-Game/Scripts/BoardManager.cs:131-151 | the walls of one ascending step: its column upward from (start, start), then its row rightward from (start + 1, start) |
| Mazes.Ascending | Assets/_Complete-Game/Scripts/BoardManager.cs:128-153 | the walls of the ascending form: one L per step from the given start while start < columns - 1, start growing by gap |
| Mazes.DescendingL | Assets/_Complete-Game/Scripts/BoardManager.cs:159-179 | the walls of one descending step: its column downward from (start, start), then its row leftward from (start - 1, start) |
| Mazes.Descending | Assets/_Complete-Game/Scripts/BoardManager.cs:156-181 | the walls of the descending form: one L per step from the given start while start > 1, start shrinking by gap |
| Mazes.CornerWalls | Assets/_Complete-Game/Scripts/BoardManager.cs:122-183 | the corner maze's walls: the ascending form from 2 when the branch draw is <= -0.5, the descending form from columns - 2 otherwise; `Mazes.CornerFits` picks the matching draw bounds in the same way |
| Mazes.Stripes | Assets/_Complete-Game/Scripts/BoardManager.cs:187-216 | the cells a stripe loop visits: for each stripe from the first on, in steps of 3, the positions 0 .. rows - 1 of its line except the three around its opening |
| Mazes.UpLineCells | Assets/_Complete-Game/Scripts/BoardManager.cs:137-151 | an upward wall loop walls exactly the cells of its range, except those within one of the opening when the opening is on this arm |
| Mazes.DownLineCells | Assets/_Complete-Game/Scripts/BoardManager.cs:165-179 | a downward wall loop walls exactly the cells from its start down to 0, except those within one of the opening when the opening is on this arm |
| Mazes.DescendingLCells | Assets/_Complete-Game/Scripts/BoardManager.cs:159-179 | one descending step walls column x = start for y from start down to 0 and row y = start for x from start - 1 down to 0, with the three-cell opening cut into exactly the arm `spaceInRow` names |
| Mazes.DescendingStep | Assets/_Complete-Game/Scripts/BoardManager.cs:156-181 | while start > 1 a pass of the loop reads the next draws and lays one L, with its opening in [1, start), and the next pass starts at start - gap; at start <= 1 the loop stops (`Mazes.DescentFits` is this bound on every pass, the `Random.Range(1, start)` of line 161) |
| Mazes.DescendingBounds | Assets/_Complete-Game/Scripts/BoardManager.cs:156-181 | every wall of the descending maze lies in [0, start] x [0, start] |
| Mazes.DescendingDistinct | Assets/_Complete-Game/Scripts/BoardManager.cs:156-181 | the descending maze never walls a cell twice |
| Mazes.AscendingLCells | Assets/_Complete-Game/Scripts/BoardManager.cs:131-151 | one ascending step walls column x = start from y = start up to rows - 1 and row y = start from x = start + 1 up to columns - 1, with the opening cut into the arm `spaceInRow` names |
| Mazes.AscendingStep | Assets/_Complete-Game/Scripts/BoardManager.cs:128-153 | while start < columns - 1 a pass reads the next draws, with its opening in [start + 1, columns), lays one L and moves on to start + gap; otherwise the loop stops (`Mazes.AscentFits` is this bound on every pass, the `Random.Range(start + 1, columns)` of line 133) |
| Mazes.CornerAlwaysDescends | Assets/_Complete-Game/Scripts/BoardManager.cs:126-181 | for every draw in [0, 1] the corner maze takes its descending form from columns - 2; its walls lie in [0, columns - 2]^2 and no cell is walled twice |
| Mazes.StripesCells | Assets/_Complete-Game/Scripts/BoardManager.cs:187-199 | the stripe maze walls exactly the lines first, first + 3, ... below columns - 1, in every position 0 .. rows - 1 except within one of that line's opening |
| Mazes.StripesStep | Assets/_Complete-Game/Scripts/BoardManager.cs:187-199 | a pass of the stripe loop reads its opening from [1, rows - 1), walls one line and moves on 3 lines; at columns - 1 the loop stops (`Mazes.StripesFit` is this bound on every pass, the `Random.Range(1, rows - 1)` of line 189) |
| Mazes.StripesBound | Assets/_Complete-Game/Scripts/BoardManager.cs:187 | every stripe the draws name lies below columns - 1 |
| Mazes.StripesTransposed | Assets/_Complete-Game/Scripts/BoardManager.cs:213-214 | the horizontal maze instantiates walls at the transposes of the cells it removes from the free list, one for one and in the same order |
| Scatter.Rejected | Assets/_Complete-Game/Scripts/BoardManager.cs:109 | the retry test as the code parses it: an enemy with x < 1.5, or any object with y < 1.5 |
| Scatter.AcceptedCells | Assets/_Complete-Game/Scripts/BoardManager.cs:109 | the retry test lets a cell through exactly when y >= 2, and for an enemy also x >= 2 |
| Scatter.Stop | Assets/_Complete-Game/Scripts/BoardManager.cs:104-113 | the retry loop stops at the first draw that names an accepted cell; every earlier draw named a rejected one |
| Scatter.StopFinds | Assets/_Complete-Game/Scripts/BoardManager.cs:104-113 | when the draws index the list up to one that names an accepted cell, the retry loop stops, at that draw or an earlier accepted one |
| Scatter.NeverStops | Assets/_Complete-Game/Scripts/BoardManager.cs:109-113 | when every free cell is rejected, the retry loop stops for no stream of draws |
| Scatter.Run | Assets/_Complete-Game/Scripts/BoardManager.cs:226-229 | successive `RandomPosition` calls, each reading its own draw stream: the cells picked, in order, and the list they leave |
| Scatter.ObjectCount | Assets/_Complete-Game/Scripts/BoardManager.cs:223 | the object count: the drawn count plus `level * levelScale / 2` |
| Scatter.Times | Assets/_Complete-Game/Scripts/BoardManager.cs:226 | the number of passes of `for (i = 0; i < count; i++)`, 0 for a count that is not positive |
| Scatter.RunSpec | Assets/_Complete-Game/Scripts/BoardManager.cs:226-229 | successive picks take one entry each out of the free list; the placed cells and the remaining list together are exactly the original multiset, and every placed cell passed the filter |
| Scatter.RunDistinct | Assets/_Complete-Game/Scripts/BoardManager.cs:226-229 | on a list without repetitions the picks are pairwise different cells of the list, none of which stays in it |
| Scatter.Half | Assets/_Complete-Game/Scripts/BoardManager.cs:223 | C# `/ 2` on int truncates toward zero: the remainder is 0 or 1 with the sign of the dividend |
| Scatter.HalfDouble | Assets/_Complete-Game/Scripts/BoardManager.cs:258 | treasure's level term `(level * 2) * levelScale / 2` is exactly level * levelScale |
| Scatter.Log2 | Assets/_Complete-Game/Scripts/BoardManager.cs:261 | the enemy base count k satisfies 2^k <= level < 2^(k+1) |
| Board.BackdropKind | Assets/_Complete-Game/Scripts/BoardManager.cs:83-87 | an outer wall on the ring x = -1, x = columns, y = -1 or y = rows, floor elsewhere |
| Board.Backdrop | Assets/_Complete-Game/Scripts/BoardManager.cs:77-95 | the backdrop tiles, x outer from -1 to columns and y inner from -1 to rows |
| Board.BackdropSize | Assets/_Complete-Game/Scripts/BoardManager.cs:77-80 | `BoardSetup` instantiates (columns + 2) * (rows + 2) tiles |
| Board.BackdropCovers | Assets/_Complete-Game/Scripts/BoardManager.cs:77-91 | every cell of [-1, columns] x [-1, rows] gets a tile: an outer wall on the outer ring, floor inside it |
| Board.BackdropOnly | Assets/_Complete-Game/Scripts/BoardManager.cs:77-88 | no tile lies outside [-1, columns] x [-1, rows]; a tile is an outer wall exactly when x is -1 or columns or y is -1 or rows, and floor otherwise |
| Board.BackdropOnePerCell | Assets/_Complete-Game/Scripts/BoardManager.cs:77-80 | no two backdrop tiles share a cell |
| Board.InitialFreeCells | Assets/_Complete-Game/Scripts/BoardManager.cs:52-63 | the free list holds each cell of [1, columns - 2] x [1, rows - 2] once and nothing else, (columns - 2) * (rows - 2) entries, and never the exit cell (columns - 1, rows - 1) |
| Board.MazeChoice | Assets/_Complete-Game/Scripts/BoardManager.cs:251-255 | no draw at all selects the vertical or horizontal maze, and every draw in [0, 1] selects the corner maze |
| Board.MazeFor | Assets/_Complete-Game/Scripts/BoardManager.cs:251-255 | the layout the draw selects, with the comparisons in the code's order |
| Board.MazeLayout | Assets/_Complete-Game/Scripts/BoardManager.cs:251-255 | the maze step of `SetupScene`: the walls and free list of the layout `Board.MazeFor` selects; what each layout leaves is stated by `Board.LayoutForSpec` |
| Board.LayoutForSpec | Assets/_Complete-Game/Scripts/BoardManager.cs:122-217 | each drawn maze exists exactly when its draws lie in their `Random.Range` bounds (corner gap in [3, 5), openings per `Mazes.CornerFits` and `Mazes.StripesFit`), and leaves the free list with one copy of each wall removed; the horizontal maze removes the transposes of the walls it places instead |
| Board.Scattering | Assets/_Complete-Game/Scripts/BoardManager.cs:220-237 | one `LayoutObjectAtRandom` call: a count drawn from [minimum, maximum], one draw stream per object, and the picks they make |
| Board.Scene | Assets/_Complete-Game/Scripts/BoardManager.cs:241-268 | one `SetupScene(level)`: the board size, the maze walls, food (level term 0), treasure (level term level * 2, food range) and floor(log2 level) enemies, each step picking from the list the step before leaves |
| Board.SceneTiles | Assets/_Complete-Game/Scripts/BoardManager.cs:244-267 | the objects `SetupScene` instantiates, in order: backdrop, walls, food, treasure, enemies, exit |
| Board.SceneExit | Assets/_Complete-Game/Scripts/BoardManager.cs:267 | a scene has exactly one exit, its last object, at (columns - 1, rows - 1); no other object is an exit |
| Board.ScatteringCount | Assets/_Complete-Game/Scripts/BoardManager.cs:223-226 | `LayoutObjectAtRandom` places drawn + level * levelScale / 2 objects (none when that is not positive) for a draw in [minimum, maximum], and the free list shrinks by that count |
| Board.ScatteringSpec | Assets/_Complete-Game/Scripts/BoardManager.cs:226-235 | on a list without repetitions the objects land on pairwise different cells of the list with y >= 2 (and x >= 2 for enemies), and exactly those cells leave the list: placed cells are gone, every other cell stays, and nothing new appears |
| Board.SceneDistinct | Assets/_Complete-Game/Scripts/BoardManager.cs:241-267 | in a scene with draws in [0, 1], walls, food, treasure and enemies all stand on pairwise different cells, and none stands on the exit |
| Board.SceneCells | Assets/_Complete-Game/Scripts/BoardManager.cs:73-74 | the board is square, 5 + level * levelScale a side; food, treasure and enemies stand inside the outer wall with y >= 2, enemies also with x >= 2, and the list left over holds only inner cells |
| Board.SceneCounts | Assets/_Complete-Game/Scripts/BoardManager.cs:257-264 | food draws its count from `foodCount`; treasure also draws from `foodCount` and gets level * levelScale more; enemies number floor(log2 level) + level * levelScale / 2; the free list loses one entry per object |
| Board.LevelOneScene | Assets/_Complete-Game/Scripts/BoardManager.cs:33-35 | at level 1 with the declared defaults (scale 2, wall count 5..9, food count 1..3) the board is 7 x 7, one enemy appears, food numbers 1 to 3, and treasure gets two more objects than its draw, 3 to 5 |
| Board.BoardManager.constructor | Assets/_Complete-Game/Scripts/BoardManager.cs:29-36 | a generator starts with a 0 x 0 board, an empty free list and the given level scale and count ranges |
| Board.BoardManager.SetupScene | Assets/_Complete-Game/Scripts/BoardManager.cs:241-268 | generating a level sets the board size, leaves the free list `Scene` predicts, and instantiates the backdrop, maze walls, food, treasure, enemies and the exit at (columns - 1, rows - 1), in that order |
| Board.BoardManager.LayoutMaze | Assets/_Complete-Game/Scripts/BoardManager.cs:251-255 | the maze step lays the walls and leaves the free list of the layout the draw selects |
| Board.BoardManager.InitialiseList | Assets/_Complete-Game/Scripts/BoardManager.cs:49-64 | the free list is cleared and refilled with the inner cells, column by column |
| Board.BoardManager.BoardSetup | Assets/_Complete-Game/Scripts/BoardManager.cs:68-97 | the board becomes 5 + level * levelScale cells a side, and the backdrop tiles are instantiated column by column |
| Board.BoardManager.SetupColumn | Assets/_Complete-Game/Scripts/BoardManager.cs:80-95 | one pass of the outer loop adds the backdrop tiles of column x, from y = -1 to rows |
| Board.BoardManager.RandomPosition | Assets/_Complete-Game/Scripts/BoardManager.cs:101-120 | returns the entry named by the first accepted draw, which passes the filter, and removes exactly that entry from the free list |
| Board.BoardManager.LayoutObjectAtRandom | Assets/_Complete-Game/Scripts/BoardManager.cs:220-237 | places one object of the kind on each successive `RandomPosition` pick and leaves the free list the picks leave |
| Board.BoardManager.PutWall | Assets/_Complete-Game/Scripts/BoardManager.cs:168-170 | one wall is instantiated, and one occurrence of the freed cell leaves the free list |
| Board.BoardManager.WallLineDown | Assets/_Complete-Game/Scripts/BoardManager.cs:165-171 | a downward wall loop instantiates the walls of `DownLine`, in order, and removes each from the free list |
| Board.BoardManager.WallDown | Assets/_Complete-Game/Scripts/BoardManager.cs:167-170 | one pass of a downward wall loop extends the walls laid and the cells removed by position i |
| Board.BoardManager.WallLineUp | Assets/_Complete-Game/Scripts/BoardManager.cs:137-143 | an upward wall loop instantiates the walls of `UpLine`, in order, and removes from the free list the cells of the line it frees, which differs from the walled line in the horizontal maze |
| Board.BoardManager.LayoutCornerMaze | Assets/_Complete-Game/Scripts/BoardManager.cs:122-183 | the corner maze instantiates the walls of the form the branch draw selects, in order, and removes each from the free list |
| Board.BoardManager.LayoutAscendingCorner | Assets/_Complete-Game/Scripts/BoardManager.cs:128-153 | the ascending form lays the L's from start = 2 upward in steps of gap |
| Board.BoardManager.LayoutAscendingStep | Assets/_Complete-Game/Scripts/BoardManager.cs:131-152 | one pass of the ascending loop lays one L and leaves the rest of the maze for the passes from start + gap |
| Board.BoardManager.LayoutAscendingL | Assets/_Complete-Game/Scripts/BoardManager.cs:131-151 | one ascending L is instantiated and removed from the free list |
| Board.BoardManager.LayoutDescendingCorner | Assets/_Complete-Game/Scripts/BoardManager.cs:156-181 | the descending form lays the L's from start = columns - 2 downward in steps of gap while start > 1 |
| Board.BoardManager.LayoutDescendingStep | Assets/_Complete-Game/Scripts/BoardManager.cs:159-180 | one pass of the descending loop lays one L, lowers start, and leaves the rest of the maze for the passes that follow |
| Board.BoardManager.LayoutDescendingL | Assets/_Complete-Game/Scripts/BoardManager.cs:159-179 | one descending L is instantiated and removed from the free list |
| Board.BoardManager.LayoutVerticalMaze | Assets/_Complete-Game/Scripts/BoardManager.cs:185-200 | wall columns at x = 1, 4, 7, ... below columns - 1, each with a three-row opening; every walled cell leaves the free list |
| Board.BoardManager.LayoutHorizontalMaze | Assets/_Complete-Game/Scripts/BoardManager.cs:202-217 | walls are instantiated at (row, col) for col = 2, 5, ..., while (col, row) is removed from the free list |
| Board.BoardManager.LayoutStripes | Assets/_Complete-Game/Scripts/BoardManager.cs:187-199 | the stripe loop walls the stripe cells, along columns or rows, and removes their column-wise cells from the free list |
| Board.BoardManager.LayoutStripe | Assets/_Complete-Game/Scripts/BoardManager.cs:189-198 | one pass of the stripe loop lays one stripe and leaves the remaining stripes for the passes from col + 3 |
| Moves.Normalise | Assets/_Complete-Game/Scripts/Player.cs:70-77 | the step `Update` attempts: the vertical reading is dropped when the horizontal one is not 0, and no step is attempted when both are 0 |
| Moves.Facing | Assets/_Complete-Game/Scripts/Player.cs:80-83 | the sprite's flip after a step, comparing the int step with 0.01 and -0.01 |
| Moves.NormaliseOneAxis | Assets/_Complete-Game/Scripts/Player.cs:70-77 | no move is attempted exactly when both readings are 0; an attempted step moves along exactly one axis, and a horizontal reading wins over a vertical one |
| Moves.FacingSign | Assets/_Complete-Game/Scripts/Player.cs:80-83 | a step right clears `flipX`, a step left sets it, a vertical step keeps it |
| Moves.ChaseStep | Assets/_Complete-Game/Scripts/Enemy.cs:58-99 | the enemy's step: toward the player on the axis of the larger distance (y on a tie), the other axis above 0.75, reversed below 0.1 |
| Moves.ChaseUnitStep | Assets/_Complete-Game/Scripts/Enemy.cs:58-99 | every chase step has exactly one non-zero component, and it is +1 or -1 |
| Moves.ChaseDirect | Assets/_Complete-Game/Scripts/Enemy.cs:68-75 | with 0.1 <= RNG <= 0.75 the enemy steps along x when the x distance is strictly larger and along y otherwise, +1 when the target coordinate is greater and -1 otherwise |
| Moves.ChaseWrongAxis | Assets/_Complete-Game/Scripts/Enemy.cs:79-91 | with RNG > 0.75 the enemy takes the other axis than its direct step, still with the sign toward the player |
| Moves.ChaseWrongDirection | Assets/_Complete-Game/Scripts/Enemy.cs:95-99 | with RNG < 0.1 the enemy takes exactly the opposite of its direct step |
| Moves.ChaseDistance | Assets/_Complete-Game/Scripts/Enemy.cs:67-99 | away from the player a direct step shortens the grid distance by one and a wrong-way step lengthens it by one; on the player's own cell the direct step is (0, -1) |
| Actors.Clamp | Assets/_Complete-Game/Scripts/Player.cs:198 | `Mathf.Clamp` returns a value in [min, max], the value itself when it is in range, and the nearer bound otherwise |
| Actors.FirstEnemy | Assets/_Complete-Game/Scripts/Player.cs:166-173 | the whip acts on the first hit tagged "Enemy" in result order, and on none when no hit has that tag |
| Actors.GameManager.constructor | Assets/_Complete-Game/Scripts/Player.cs:227-228 | the manager holds the given persisted score and health, and an empty enemy registry |
| Actors.GameManager.AddEnemyToList | Assets/_Complete-Game/Scripts/Enemy.cs:28 | registering appends the enemy to the registry |
| Actors.GameManager.RemoveEnemyFromList | Assets/_Complete-Game/Scripts/Enemy.cs:135 | unregistering removes the first occurrence of the enemy, one copy from the multiset |
| Actors.Player.constructor | Assets/_Complete-Game/Scripts/Player.cs:15-20 | a player starts with health 100, score 0, whip damage 2, not game over and enabled |
| Actors.Player.Start | Assets/_Complete-Game/Scripts/Player.cs:42-43 | a level starts with the score and health the game manager carries |
| Actors.Player.CheckIfGameOver | Assets/_Complete-Game/Scripts/Player.cs:233-242 | at health 0 the game is over and the death sequence starts again, once per call; at other health nothing changes |
| Actors.Player.LoseHealth | Assets/_Complete-Game/Scripts/Player.cs:206-219 | health becomes clamp(health - loss, 0, 100), and the game-over check then runs on the new health |
| Actors.Player.OnTriggerEnter2D | Assets/_Complete-Game/Scripts/Player.cs:179-202 | the exit disables the player and schedules `Restart`; treasure adds exactly one point; food sets health to clamp(health + 10, 0, 100); each leaves the other stats alone, and other tags change nothing |
| Actors.Player.Restart | Assets/_Complete-Game/Scripts/Player.cs:222-230 | the game manager stores the score and health unchanged |
| Actors.Player.Update | Assets/_Complete-Game/Scripts/Player.cs:59-112 | the attempted step is the normalised input; the sprite faces its x component; an attempted step runs the game-over check on the health before Escape; Escape sets health to 0 |
| Actors.Player.HitEnemies | Assets/_Complete-Game/Scripts/Player.cs:163-176 | only the first hit tagged "Enemy" takes `whipDamage`, and no other enemy changes; without such a hit nothing changes |
| Actors.Enemy.constructor | Assets/_Complete-Game/Scripts/Enemy.cs:10-11 | an enemy starts with the given health and player damage, not destroyed |
| Actors.Enemy.Start | Assets/_Complete-Game/Scripts/Enemy.cs:24-28 | an enemy registers itself with the game manager |
| Actors.Enemy.MoveEnemy | Assets/_Complete-Game/Scripts/Enemy.cs:54-112 | the step handed to `AttemptMove` is the chase step for the player's position and the draw, and the sprite faces its x component |
| Actors.Enemy.OnCantMove | Assets/_Complete-Game/Scripts/Enemy.cs:117-128 | a blocked enemy takes `playerDamage` off the player's health once, clamped, and the player's game-over check runs |
| Actors.Enemy.TakeDamage | Assets/_Complete-Game/Scripts/Enemy.cs:130-138 | health drops by exactly dmg with no clamp; below 1 the enemy leaves the registry and is destroyed; for an enemy registered at most once, it stays registered exactly when it survives |
| Actors.NextLevel | Assets/_Complete-Game/Scripts/Player.cs:222-230 | the player of the next level starts with exactly the score and health the player had when `Restart` ran |

## Left out

- Engine calls are not modelled: `Instantiate`, `Destroy`, `SetParent`, `GameObject.Find`
  and the prefab draw `tileArray[Random.Range(...)]`. An instantiated object is a `Tile` of
  a kind at a cell, and `Destroy` is the flag `Enemy.destroyed`.
- Animator triggers, `SoundManager`, `SceneManager.LoadScene` and the UI text updates are
  not modelled. They are output only.
- Unity's random generator is not modelled. Every draw is a parameter. Float draws that
  only pick a branch are unconstrained `real`s, and lemmas state what happens for draws in
  [0, 1].
- Positions are integer cells, not `Vector3` floats. The enemy's distances compare as
  integers, which the float arithmetic of `MoveEnemy` matches for whole-number positions.
- Scatter.Log2: `(int)Mathf.Log(level, 2f)` is read as the exact floor of log2. Float
  rounding at exact powers of two is not modelled.
- Scatter.Log2 requires n >= 1. The code has no guard: at level 0 `Mathf.Log(0, 2f)` is
  negative infinity and the cast at BoardManager.cs:261 has no defined value. Level 0 is not
  modelled.
- Board.Scene requires level >= 1, for the same reason: it counts its enemies with
  `Scatter.Log2` (BoardManager.cs:261-264).
- Board.BoardManager.SetupScene requires level >= 1, for the same reason.
- Board.BoardManager.RandomPosition: only terminating retry loops are modelled. Its draws
  must contain an accepted one. `Scatter.NeverStops` states the case where none can exist.
  The exception that indexing an empty list raises (BoardManager.cs:107) is not modelled:
  the precondition requires an in-range draw, which an empty list cannot give.
- Board.BoardManager.LayoutMaze: its vertical and horizontal branches cannot run and hold
  no call. `LayoutVerticalMaze` and `LayoutHorizontalMaze` are methods with contracts of their
  own.
- Board.LevelOneScene: it takes the level and the two count ranges as parameters that
  its precondition fixes to 1 and the declared defaults. It states the 7 x 7 board size
  but not the tile count (81). `Board.BackdropSize` gives that count for any size.
- The `treasureCount` setting (BoardManager.cs:36) is kept as a field of
  `Board.BoardManager`. The code never reads it, so nothing depends on it.
- Physics is not modelled: `Physics2D.CircleCastAll` and the dispatch of
  `OnTriggerEnter2D`. The hits are a given sequence, and the trigger is its tag.
- Coroutines and delays are not modelled: `Invoke`, `WaitForSeconds`, the whip's 0.3 s
  delay, `WaitForDeathAnimation`, and `endGame` with `QuitGame`. `Player.restartPending`
  records that `Restart` is scheduled, and `Player.deathSequences` counts the death
  sequences started.
- The UI text parsing in `Player.Start` (Player.cs:35-39) is not modelled. The game
  manager's values overwrite it.
- MovingObject.cs is not part of this model. That includes `AttemptMove`/`Move`, the
  occupancy test and `isMoving`. `Update` and `MoveEnemy` return the step they hand to
  `AttemptMove`. The player's `CheckIfGameOver` after an attempted move (Player.cs:144) is
  included.
- GameManager.cs is not part of this model. Its persisted score and health and its enemy
  list are plain fields of `Actors.GameManager`, whose list `Add` and `Remove` behave as
  `List<T>` does.
- ButtonHover.cs is not modelled. It is UI hover colouring.
- `Player.OnCantMove` (Player.cs:153-161) only casts its argument, so it has no model.
- The "space", "left shift" and idle/walk animation branches of `Update` only start
  animations or the whip coroutine. `HitEnemies` models what the whip does.
- 32-bit overflow of health, score and enemy health is not modelled. Values are unbounded
  integers.
- 32-bit overflow of `level * levelScale` and of the board size `columns`, `rows` that
  grows with it is not modelled either.
- The two deviation bands of `MoveEnemy` (RNG < 0.1 and RNG > 0.75) are disjoint. This is
  plain arithmetic and is not stated as a lemma of its own. `Moves.ChaseWrongAxis` and
  `Moves.ChaseWrongDirection` each state their own band.
