/** The board generator, `BoardManager`: it sizes the board from the level, lays out the
    outer walls and the floor, fills the free-cell list `gridPositions`, carves a maze and
    scatters food, treasure and enemies on free cells, and puts the exit in the top-right
    corner. Every random draw is a parameter; the objects the generator instantiates are
    recorded, in order, in the field `tiles`. */
module Board {
  import opened Options
  import opened Lists
  import opened Grid
  import opened Mazes
  import opened Scatter

  /** The kinds of object the generator instantiates; each stands for its prefab or prefab
      array (which prefab of an array is drawn is not modelled). */
  datatype Kind = Floor | OuterWall | Wall | Food | Treasure | Enemy | Exit

  /** An instantiated object: its kind and its cell. */
  datatype Tile = Tile(kind: Kind, at: Cell)

  /** `BoardManager.Count`: the bounds of a drawn object count. */
  datatype Count = Count(minimum: int, maximum: int)

  const InitialColumns := 5
  const InitialRows := 5

  /** The values the generator's inspector-set fields are declared with. */
  const DefaultLevelScale := 2
  const DefaultWallCount := Count(5, 9)
  const DefaultFoodCount := Count(1, 3)

  /** What `BoardSetup` puts on a cell: an outer wall on the ring x == -1, x == columns,
      y == -1 or y == rows, floor elsewhere. */
  function BackdropKind(columns: int, rows: int, c: Cell): Kind {
    if c.x == -1 || c.x == columns || c.y == -1 || c.y == rows then OuterWall else Floor
  }

  /** The `BoardSetup` tile of each cell, in the order of the cells. */
  function Paint(columns: int, rows: int, cells: seq<Cell>): seq<Tile> {
    seq(|cells|, i requires 0 <= i < |cells| => Tile(BackdropKind(columns, rows, cells[i]), cells[i]))
  }

  /** One object of the given kind on each of the cells, in order. */
  function Place(kind: Kind, cells: seq<Cell>): seq<Tile> {
    seq(|cells|, i requires 0 <= i < |cells| => Tile(kind, cells[i]))
  }

  lemma PaintSnoc(before: seq<Tile>, columns: int, rows: int, cells: seq<Cell>, c: Cell)
    ensures before + Paint(columns, rows, cells + [c])
         == (before + Paint(columns, rows, cells)) + [Tile(BackdropKind(columns, rows, c), c)]
  {
  }

  lemma PlaceSnoc(before: seq<Tile>, kind: Kind, cells: seq<Cell>, c: Cell)
    ensures before + Place(kind, cells + [c]) == (before + Place(kind, cells)) + [Tile(kind, c)]
  {
  }

  /** Painting one more cell of column x, after the columns to its left. */
  lemma PaintColumnSnoc(before: seq<Tile>, columns: int, rows: int, left: seq<Cell>, x: int, y: int)
    requires y >= -1
    ensures before + Paint(columns, rows, left + Column(x, -1, y + 1))
         == (before + Paint(columns, rows, left + Column(x, -1, y))) + [Tile(BackdropKind(columns, rows, Cell(x, y)), Cell(x, y))]
  {
    assert left + Column(x, -1, y + 1) == (left + Column(x, -1, y)) + [Cell(x, y)];
    PaintSnoc(before, columns, rows, left + Column(x, -1, y), Cell(x, y));
  }

  /** Placing the cells of a + b is placing those of a, then those of b. */
  lemma PlaceAppend(before: seq<Tile>, kind: Kind, a: seq<Cell>, b: seq<Cell>)
    ensures before + Place(kind, a + b) == (before + Place(kind, a)) + Place(kind, b)
  {
  }

  /** Everything `BoardSetup` instantiates, x outer and y inner, from -1 to columns and
      from -1 to rows. */
  function Backdrop(columns: int, rows: int): seq<Tile> {
    Paint(columns, rows, Block(-1, columns + 1, -1, rows + 1))
  }

  /** `BoardSetup` instantiates (columns + 2) * (rows + 2) tiles. */
  lemma BackdropSize(columns: int, rows: int)
    requires columns >= -1 && rows >= -1
    ensures |Backdrop(columns, rows)| == (columns + 2) * (rows + 2)
  {
    BlockLength(-1, columns + 1, -1, rows + 1);
  }

  /** `BoardSetup` covers [-1, columns] x [-1, rows], with an outer wall exactly on the
      outer ring and floor inside it. */
  lemma BackdropCovers(columns: int, rows: int, c: Cell)
    requires -1 <= c.x <= columns && -1 <= c.y <= rows
    ensures Tile(BackdropKind(columns, rows, c), c) in Backdrop(columns, rows)
  {
    var cells := Block(-1, columns + 1, -1, rows + 1);
    BlockCells(-1, columns + 1, -1, rows + 1);
    var i :| 0 <= i < |cells| && cells[i] == c;
    assert Backdrop(columns, rows)[i] == Tile(BackdropKind(columns, rows, c), c);
  }

  /** `BoardSetup` puts nothing outside [-1, columns] x [-1, rows], and each tile is an
      outer wall exactly when it lies on the outer ring, and floor otherwise. */
  lemma BackdropOnly(columns: int, rows: int)
    ensures forall t :: t in Backdrop(columns, rows) ==>
      -1 <= t.at.x <= columns && -1 <= t.at.y <= rows &&
      (t.kind == OuterWall <==> t.at.x == -1 || t.at.x == columns || t.at.y == -1 || t.at.y == rows) &&
      (t.kind == OuterWall || t.kind == Floor)
  {
    var cells := Block(-1, columns + 1, -1, rows + 1);
    var b := Backdrop(columns, rows);
    BlockCells(-1, columns + 1, -1, rows + 1);
    forall t | t in b
      ensures -1 <= t.at.x <= columns && -1 <= t.at.y <= rows
      ensures t.kind == OuterWall <==> t.at.x == -1 || t.at.x == columns || t.at.y == -1 || t.at.y == rows
      ensures t.kind == OuterWall || t.kind == Floor
    {
      var i :| 0 <= i < |b| && b[i] == t;
      assert t == Tile(BackdropKind(columns, rows, cells[i]), cells[i]);
      assert cells[i] in cells;
    }
  }

  /** `BoardSetup` puts at most one tile on each cell. */
  lemma BackdropOnePerCell(columns: int, rows: int, i: nat, j: nat)
    requires i < j < |Backdrop(columns, rows)|
    ensures Backdrop(columns, rows)[i].at != Backdrop(columns, rows)[j].at
  {
    var cells := Block(-1, columns + 1, -1, rows + 1);
    BlockCells(-1, columns + 1, -1, rows + 1);
    DistinctPairwise(cells, i, j);
  }

  /** `InitialiseList` lists each cell of [1, columns - 2] x [1, rows - 2] exactly once and
      nothing else, (columns - 2) * (rows - 2) entries; the exit cell (columns - 1,
      rows - 1) is not among them. */
  lemma InitialFreeCells(columns: int, rows: int)
    requires columns >= 2 && rows >= 2
    ensures |Block(1, columns - 1, 1, rows - 1)| == (columns - 2) * (rows - 2)
    ensures forall c :: c in Block(1, columns - 1, 1, rows - 1) <==> 1 <= c.x <= columns - 2 && 1 <= c.y <= rows - 2
    ensures Distinct(Block(1, columns - 1, 1, rows - 1))
    ensures Cell(columns - 1, rows - 1) !in Block(1, columns - 1, 1, rows - 1)
  {
    BlockLength(1, columns - 1, 1, rows - 1);
    BlockCells(1, columns - 1, 1, rows - 1);
  }

  /** One `LayoutObjectAtRandom` call: the count drawn from [minimum, maximum], one draw
      stream per object placed, and the picks they make; None when the draws do not fit
      or some pick would not stop. */
  function Scattering(free: seq<Cell>, isEnemy: bool, bounds: Count, drawn: int, level: int,
                      levelScale: int, streams: seq<seq<int>>): Option<Picks>
  {
    if bounds.minimum <= drawn <= bounds.maximum && |streams| == Times(ObjectCount(drawn, level, levelScale))
    then Run(free, isEnemy, streams)
    else None
  }

  /** The four layouts `SetupScene` chooses between. */
  datatype Maze = CornerMaze | VerticalMaze | HorizontalMaze | ScatteredWalls

  /** The choice `SetupScene` makes from its draw `flip`. */
  function MazeFor(flip: real): Maze {
    if flip <= 10.33 then CornerMaze
    else if flip < 0.25 then VerticalMaze
    else if flip <= 0.66 then HorizontalMaze
    else ScatteredWalls
  }

  /** No draw at all selects the vertical or the horizontal maze (a value above 10.33 is
      never below 0.66), and every value `Random.Range(0.0f, 1.0f)` returns selects the
      corner maze. */
  lemma MazeChoice(flip: real)
    ensures MazeFor(flip) != VerticalMaze && MazeFor(flip) != HorizontalMaze
    ensures 0.0 <= flip <= 1.0 ==> MazeFor(flip) == CornerMaze
  {
  }

  /** The draws one `SetupScene` call reads, in the order it reads them (the prefab choices
      aside). Draws of a layout that does not run are ignored. */
  datatype SceneDraws = SceneDraws(
    flip: real,                                       // the maze choice
    gap: int, cornerBranch: real, arms: seq<Arm>,     // LayoutCornerMaze
    opens: seq<int>,                                  // LayoutVerticalMaze or LayoutHorizontalMaze
    wallDrawn: int, wallStreams: seq<seq<int>>,       // LayoutObjectAtRandom(wallTiles, ...)
    foodDrawn: int, foodStreams: seq<seq<int>>,       // food
    treasureDrawn: int, treasureStreams: seq<seq<int>>,  // treasure
    enemyStreams: seq<seq<int>>)                      // enemies; their count is not drawn

  /** What `SetupScene` lays out: the board size, the walls of the maze layout, the cells of
      the food, treasure and enemies, and the free list left over. */
  datatype Layout = Layout(columns: int, rows: int, walls: seq<Cell>, food: seq<Cell>,
                           treasure: seq<Cell>, enemies: seq<Cell>, free: seq<Cell>)

  /** The walls of the layout `SetupScene` selects with its draw `flip`, and the free list
      they leave. */
  function MazeLayout(columns: int, rows: int, level: int, levelScale: int, wallCount: Count,
                      free: seq<Cell>, d: SceneDraws): Option<Picks>
  {
    LayoutFor(MazeFor(d.flip), columns, rows, level, levelScale, wallCount, free, d)
  }

  /** The walls of layout `maze` and the free list they leave. */
  function LayoutFor(maze: Maze, columns: int, rows: int, level: int, levelScale: int, wallCount: Count,
                     free: seq<Cell>, d: SceneDraws): Option<Picks>
  {
    match maze
    case CornerMaze =>
      if 3 <= d.gap < 5 && CornerFits(columns, d.gap, d.cornerBranch, d.arms) then
        var walls := CornerWalls(columns, rows, d.gap, d.cornerBranch, d.arms);
        Some(Picks(RemoveEach(free, walls), walls))
      else None
    case VerticalMaze =>
      if StripesFit(1, columns, rows, d.opens) then
        var walls := Stripes(true, 1, columns, rows, d.opens);
        Some(Picks(RemoveEach(free, walls), walls))
      else None
    case HorizontalMaze =>
      if StripesFit(2, columns, rows, d.opens) then
        Some(Picks(RemoveEach(free, Stripes(true, 2, columns, rows, d.opens)), Stripes(false, 2, columns, rows, d.opens)))
      else None
    case ScatteredWalls => Scattering(free, false, wallCount, d.wallDrawn, level, levelScale, d.wallStreams)
  }

  /** The three drawn mazes: a layout exists exactly when every draw lies in its
      `Random.Range` (the corner gap in [3, 5), each opening in its row or column range), and
      it leaves the given free list with one copy of each wall cell removed. The horizontal
      maze is the exception: the cells it removes are the transposes of the walls it places. */
  lemma LayoutForSpec(maze: Maze, columns: int, rows: int, level: int, levelScale: int, wallCount: Count,
                      free: seq<Cell>, d: SceneDraws)
    requires maze != ScatteredWalls
    ensures var m := LayoutFor(maze, columns, rows, level, levelScale, wallCount, free, d);
      (m.Some? <==> match maze
         case CornerMaze => 3 <= d.gap < 5 && CornerFits(columns, d.gap, d.cornerBranch, d.arms)
         case VerticalMaze => StripesFit(1, columns, rows, d.opens)
         case _ => StripesFit(2, columns, rows, d.opens)) &&
      (m.Some? ==> m.value.free == RemoveEach(free,
         if maze == HorizontalMaze then TransposedAll(m.value.placed) else m.value.placed))
  {
    if maze == HorizontalMaze {
      var vertical := Stripes(true, 2, columns, rows, d.opens);
      StripesTransposed(2, columns, rows, d.opens);
      TransposedTwice(vertical);
    }
  }

  /** The layout of one `SetupScene(level)` call; None when the draws are not ones a run
      that terminates could read. */
  function Scene(level: int, levelScale: int, wallCount: Count, foodCount: Count, d: SceneDraws): Option<Layout>
    requires level >= 1
  {
    var columns := InitialColumns + level * levelScale;
    var rows := InitialRows + level * levelScale;
    var maze := MazeLayout(columns, rows, level, levelScale, wallCount, Block(1, columns - 1, 1, rows - 1), d);
    if maze.None? then None else
    var food := Scattering(maze.value.free, false, foodCount, d.foodDrawn, 0, levelScale, d.foodStreams);
    if food.None? then None else
    var treasure := Scattering(food.value.free, false, foodCount, d.treasureDrawn, level * 2, levelScale, d.treasureStreams);
    if treasure.None? then None else
    var enemyCount := Log2(level);
    var enemies := Scattering(treasure.value.free, true, Count(enemyCount, enemyCount), enemyCount, level, levelScale, d.enemyStreams);
    if enemies.None? then None else
    Some(Layout(columns, rows, maze.value.placed, food.value.placed, treasure.value.placed,
                enemies.value.placed, enemies.value.free))
  }

  /** The picks of the four layout steps of a scene that `Scene` lays out: the maze, food,
      treasure and enemies, each on the free list the step before leaves. */
  function SceneStages(level: int, levelScale: int, wallCount: Count, foodCount: Count, d: SceneDraws): (r: seq<Picks>)
    requires level >= 1
    requires Scene(level, levelScale, wallCount, foodCount, d).Some?
    ensures |r| == 4
    ensures var columns, rows := InitialColumns + level * levelScale, InitialRows + level * levelScale;
      var s := Scene(level, levelScale, wallCount, foodCount, d).value;
      var enemyCount := Log2(level);
      MazeLayout(columns, rows, level, levelScale, wallCount, Block(1, columns - 1, 1, rows - 1), d) == Some(r[0]) &&
      Scattering(r[0].free, false, foodCount, d.foodDrawn, 0, levelScale, d.foodStreams) == Some(r[1]) &&
      Scattering(r[1].free, false, foodCount, d.treasureDrawn, level * 2, levelScale, d.treasureStreams) == Some(r[2]) &&
      Scattering(r[2].free, true, Count(enemyCount, enemyCount), enemyCount, level, levelScale, d.enemyStreams) == Some(r[3]) &&
      s == Layout(columns, rows, r[0].placed, r[1].placed, r[2].placed, r[3].placed, r[3].free)
  {
    var columns, rows := InitialColumns + level * levelScale, InitialRows + level * levelScale;
    var maze := MazeLayout(columns, rows, level, levelScale, wallCount, Block(1, columns - 1, 1, rows - 1), d).value;
    var food := Scattering(maze.free, false, foodCount, d.foodDrawn, 0, levelScale, d.foodStreams).value;
    var treasure := Scattering(food.free, false, foodCount, d.treasureDrawn, level * 2, levelScale, d.treasureStreams).value;
    var enemyCount := Log2(level);
    var enemies := Scattering(treasure.free, true, Count(enemyCount, enemyCount), enemyCount, level, levelScale, d.enemyStreams).value;
    [maze, food, treasure, enemies]
  }

  /** The objects `SetupScene` instantiates, in order. */
  function SceneTiles(s: Layout): seq<Tile> {
    Backdrop(s.columns, s.rows) + Place(Wall, s.walls) + Place(Food, s.food) + Place(Treasure, s.treasure)
    + Place(Enemy, s.enemies) + [Tile(Exit, Cell(s.columns - 1, s.rows - 1))]
  }

  /** The objects of a scene, added after `before`, come in the order `SetupScene` adds them. */
  lemma SceneTilesInOrder(before: seq<Tile>, s: Layout)
    ensures before + SceneTiles(s)
         == (((((before + Backdrop(s.columns, s.rows)) + Place(Wall, s.walls)) + Place(Food, s.food))
              + Place(Treasure, s.treasure)) + Place(Enemy, s.enemies)) + [Tile(Exit, Cell(s.columns - 1, s.rows - 1))]
  {
  }

  /** Every object of `Place(kind, cells)` is of that kind. */
  lemma PlaceKind(kind: Kind, cells: seq<Cell>)
    ensures forall t :: t in Place(kind, cells) ==> t.kind == kind
  {
    forall t | t in Place(kind, cells) ensures t.kind == kind {
      var i :| 0 <= i < |cells| && Place(kind, cells)[i] == t;
    }
  }

  /** A scene has exactly one exit: its last object, in the top-right corner
      (columns - 1, rows - 1). */
  lemma SceneExit(s: Layout)
    ensures var t := SceneTiles(s);
      |t| > 0 && t[|t| - 1] == Tile(Exit, Cell(s.columns - 1, s.rows - 1)) &&
      forall i :: 0 <= i < |t| ==> (t[i].kind == Exit <==> i == |t| - 1)
  {
    var t := SceneTiles(s);
    var objects := Place(Wall, s.walls) + Place(Food, s.food) + Place(Treasure, s.treasure) + Place(Enemy, s.enemies);
    var before := Backdrop(s.columns, s.rows) + objects;
    assert t == before + [Tile(Exit, Cell(s.columns - 1, s.rows - 1))];
    BackdropOnly(s.columns, s.rows);
    PlaceKind(Wall, s.walls);
    PlaceKind(Food, s.food);
    PlaceKind(Treasure, s.treasure);
    PlaceKind(Enemy, s.enemies);
    forall i | 0 <= i < |before| ensures before[i].kind != Exit {
      assert before[i] in Backdrop(s.columns, s.rows) || before[i] in objects;
    }
  }

  /** One `LayoutObjectAtRandom` call: the count lies in [minimum, maximum] plus
      `level * levelScale / 2` (no objects when that is not positive), and the list loses
      one entry per object. */
  lemma ScatteringCount(free: seq<Cell>, isEnemy: bool, bounds: Count, drawn: int, level: int,
                        levelScale: int, streams: seq<seq<int>>)
    requires Scattering(free, isEnemy, bounds, drawn, level, levelScale, streams).Some?
    ensures var p := Scattering(free, isEnemy, bounds, drawn, level, levelScale, streams).value;
      bounds.minimum <= drawn <= bounds.maximum &&
      |p.placed| == Times(drawn + Half(level * levelScale)) &&
      |p.free| == |free| - |p.placed|
  {
    RunSpec(free, isEnemy, streams);
  }

  /** One `LayoutObjectAtRandom` call on a list without repetitions: the objects land on
      different cells of the list that the filter accepts, and the list loses exactly
      those cells. */
  lemma ScatteringSpec(free: seq<Cell>, isEnemy: bool, bounds: Count, drawn: int, level: int,
                       levelScale: int, streams: seq<seq<int>>)
    requires Distinct(free)
    requires Scattering(free, isEnemy, bounds, drawn, level, levelScale, streams).Some?
    ensures var p := Scattering(free, isEnemy, bounds, drawn, level, levelScale, streams).value;
      (forall c :: c in p.placed ==> c in free && c !in p.free && c.y >= 2 && (isEnemy ==> c.x >= 2)) &&
      (forall c :: c in p.free ==> c in free) &&
      (forall c :: c in free && c !in p.placed ==> c in p.free) &&
      Distinct(p.placed) && Distinct(p.free)
  {
    var p := Run(free, isEnemy, streams).value;
    RunSpec(free, isEnemy, streams);
    forall c | c in p.placed ensures c.y >= 2 && (isEnemy ==> c.x >= 2) {
      AcceptedCells(isEnemy, c);
    }
    RunDistinct(free, isEnemy, streams);
    DistinctParts(p.placed, p.free);
  }

  /** In a scene drawn with `Random.Range(0f, 1f)` values, no cell receives two objects:
      the maze walls, food, treasure and enemies all stand on different cells, and none of
      them on the exit. */
  lemma SceneDistinct(level: int, levelScale: int, wallCount: Count, foodCount: Count, d: SceneDraws)
    requires level >= 1 && levelScale >= 0
    requires 0.0 <= d.flip <= 1.0 && 0.0 <= d.cornerBranch <= 1.0
    requires Scene(level, levelScale, wallCount, foodCount, d).Some?
    ensures var s := Scene(level, levelScale, wallCount, foodCount, d).value;
      Distinct(s.walls + s.food + s.treasure + s.enemies) &&
      Cell(s.columns - 1, s.rows - 1) !in s.walls + s.food + s.treasure + s.enemies
  {
    var s := Scene(level, levelScale, wallCount, foodCount, d).value;
    var r := SceneStages(level, levelScale, wallCount, foodCount, d);
    var columns, rows := s.columns, s.rows;
    var block := Block(1, columns - 1, 1, rows - 1);
    assert s.walls + s.food + s.treasure + s.enemies == r[0].placed + r[1].placed + r[2].placed + r[3].placed;
    InitialFreeCells(columns, rows);
    MazeChoice(d.flip);
    CornerAlwaysDescends(columns, rows, d.gap, d.cornerBranch, d.arms);
    RemoveEachDistinct(block, r[0].placed);
    ScatteringSpec(r[0].free, false, foodCount, d.foodDrawn, 0, levelScale, d.foodStreams);
    ScatteringSpec(r[1].free, false, foodCount, d.treasureDrawn, level * 2, levelScale, d.treasureStreams);
    ScatteringSpec(r[2].free, true, Count(Log2(level), Log2(level)), Log2(level), level, levelScale, d.enemyStreams);
    StagesDistinct(r[0], r[1], r[2], r[3], Cell(columns - 1, rows - 1));
  }

  /** The board of level `level` is square, InitialColumns + level * levelScale cells a
      side. Every food, treasure and enemy stands inside the outer wall and off row 1, every
      enemy also off column 1, and the free list left over holds interior cells only. */
  lemma SceneCells(level: int, levelScale: int, wallCount: Count, foodCount: Count, d: SceneDraws)
    requires level >= 1 && levelScale >= 0
    requires Scene(level, levelScale, wallCount, foodCount, d).Some?
    ensures var s := Scene(level, levelScale, wallCount, foodCount, d).value;
      s.columns == s.rows == InitialColumns + level * levelScale &&
      (forall c :: c in s.food + s.treasure + s.enemies ==> 1 <= c.x <= s.columns - 2 && 2 <= c.y <= s.rows - 2) &&
      (forall c :: c in s.enemies ==> c.x >= 2) &&
      (forall c :: c in s.free ==> 1 <= c.x <= s.columns - 2 && 1 <= c.y <= s.rows - 2)
  {
    var s := Scene(level, levelScale, wallCount, foodCount, d).value;
    var r := SceneStages(level, levelScale, wallCount, foodCount, d);
    var block := Block(1, s.columns - 1, 1, s.rows - 1);
    assert s.food + s.treasure + s.enemies == r[1].placed + r[2].placed + r[3].placed;
    InitialFreeCells(s.columns, s.rows);
    MazeChoice(d.flip);
    if MazeFor(d.flip) == CornerMaze {
      RemoveEachDistinct(block, r[0].placed);
    } else {
      RunDistinct(block, false, d.wallStreams);
      DistinctParts(r[0].placed, r[0].free);
    }
    assert forall c :: c in r[0].free ==> c in block;
    ScatteringSpec(r[0].free, false, foodCount, d.foodDrawn, 0, levelScale, d.foodStreams);
    ScatteringSpec(r[1].free, false, foodCount, d.treasureDrawn, level * 2, levelScale, d.treasureStreams);
    ScatteringSpec(r[2].free, true, Count(Log2(level), Log2(level)), Log2(level), level, levelScale, d.enemyStreams);
  }

  /** How many objects a scene holds: food and treasure each draw their count from the
      food range, treasure adds level * levelScale (half of level * 2 * levelScale) and the
      enemies number floor(log2 level) plus level * levelScale / 2. Each step takes one
      free-list entry per object. */
  lemma SceneCounts(level: int, levelScale: int, wallCount: Count, foodCount: Count, d: SceneDraws)
    requires level >= 1
    requires Scene(level, levelScale, wallCount, foodCount, d).Some?
    ensures var s := Scene(level, levelScale, wallCount, foodCount, d).value;
      var r := SceneStages(level, levelScale, wallCount, foodCount, d);
      foodCount.minimum <= d.foodDrawn <= foodCount.maximum &&
      foodCount.minimum <= d.treasureDrawn <= foodCount.maximum &&
      |s.food| == Times(d.foodDrawn) &&
      |s.treasure| == Times(d.treasureDrawn + level * levelScale) &&
      |s.enemies| == Times(Log2(level) + Half(level * levelScale)) &&
      |s.free| == |r[0].free| - |s.food| - |s.treasure| - |s.enemies|
  {
    var r := SceneStages(level, levelScale, wallCount, foodCount, d);
    assert Half(0 * levelScale) == 0;
    HalfDouble(level, levelScale);
    ScatteringCount(r[0].free, false, foodCount, d.foodDrawn, 0, levelScale, d.foodStreams);
    ScatteringCount(r[1].free, false, foodCount, d.treasureDrawn, level * 2, levelScale, d.treasureStreams);
    ScatteringCount(r[2].free, true, Count(Log2(level), Log2(level)), Log2(level), level, levelScale, d.enemyStreams);
  }

  /** At level 1 with the default settings the board is 7 x 7 (so `BoardSetup` lays 9 x 9
      backdrop tiles), exactly one enemy appears, food numbers 1 to 3, and treasure gets two
      more objects than its draw from the food range, 3 to 5. */
  lemma LevelOneScene(level: int, wallCount: Count, foodCount: Count, d: SceneDraws)
    requires level == 1 && wallCount == DefaultWallCount && foodCount == DefaultFoodCount
    requires Scene(level, DefaultLevelScale, wallCount, foodCount, d).Some?
    ensures var s := Scene(level, DefaultLevelScale, wallCount, foodCount, d).value;
      s.columns == 7 && s.rows == 7 &&
      |s.enemies| == 1 &&
      1 <= |s.food| <= 3 &&
      |s.treasure| == d.treasureDrawn + 2 && 3 <= |s.treasure| <= 5
  {
    var s := Scene(level, DefaultLevelScale, wallCount, foodCount, d).value;
    SceneCounts(level, DefaultLevelScale, wallCount, foodCount, d);
    assert Log2(level) == 0 && Half(level * DefaultLevelScale) == 1;
  }

  /** Four layout steps, each picking from the free list the step before leaves, place
      objects on pairwise different cells, and none on a cell the first step neither
      placed on nor left free. */
  lemma StagesDistinct(m: Picks, f: Picks, t: Picks, e: Picks, outside: Cell)
    requires outside !in m.placed && outside !in m.free
    requires forall c :: c in m.free ==> c !in m.placed
    requires forall c :: c in f.placed ==> c in m.free && c !in f.free
    requires forall c :: c in f.free ==> c in m.free
    requires forall c :: c in t.placed ==> c in f.free && c !in t.free
    requires forall c :: c in t.free ==> c in f.free
    requires forall c :: c in e.placed ==> c in t.free
    requires Distinct(m.placed) && Distinct(f.placed) && Distinct(t.placed) && Distinct(e.placed)
    ensures Distinct(m.placed + f.placed + t.placed + e.placed)
    ensures outside !in m.placed + f.placed + t.placed + e.placed
  {
    var later := t.placed + e.placed;
    var objects := f.placed + later;
    assert m.placed + objects == m.placed + f.placed + t.placed + e.placed;
    assert forall c :: c in later ==> c in f.free;
    assert forall c :: c in objects ==> c in m.free;
    DistinctAppend(t.placed, e.placed);
    DistinctAppend(f.placed, later);
    DistinctAppend(m.placed, objects);
  }

  class BoardManager {
    var columns: int
    var rows: int
    const levelScale: int
    const wallCount: Count
    const foodCount: Count
    const treasureCount: Count
    /** The free-cell list. */
    var gridPositions: seq<Cell>
    /** The objects instantiated so far, in order. */
    var tiles: seq<Tile>

    /** A generator with the given inspector settings (see the Default constants). */
    constructor (levelScale: int, wallCount: Count, foodCount: Count, treasureCount: Count)
      ensures this.levelScale == levelScale && this.wallCount == wallCount
      ensures this.foodCount == foodCount && this.treasureCount == treasureCount
      ensures columns == 0 && rows == 0 && gridPositions == [] && tiles == []
    {
      this.levelScale := levelScale;
      this.wallCount := wallCount;
      this.foodCount := foodCount;
      this.treasureCount := treasureCount;
      columns, rows := 0, 0;
      gridPositions, tiles := [], [];
    }

    /** Generates the board of a level: the backdrop, the free list, the maze layout the
        draw `flip` selects, food, treasure and enemies on free cells, and the exit in the
        top-right corner. The draws must be ones a terminating run can read. */
    method SetupScene(level: int, d: SceneDraws)
      requires level >= 1
      requires Scene(level, levelScale, wallCount, foodCount, d).Some?
      modifies this`columns, this`rows, this`tiles, this`gridPositions
      ensures var s := Scene(level, levelScale, wallCount, foodCount, d).value;
        columns == s.columns && rows == s.rows && gridPositions == s.free &&
        tiles == old(tiles) + SceneTiles(s)
    {
      ghost var s := Scene(level, levelScale, wallCount, foodCount, d).value;
      ghost var stages := SceneStages(level, levelScale, wallCount, foodCount, d);
      SceneTilesInOrder(old(tiles), s);
      BoardSetup(level);
      ghost var laid := tiles;
      InitialiseList();
      LayoutMaze(level, d);
      assert gridPositions == stages[0].free && tiles == laid + Place(Wall, s.walls);
      laid := tiles;
      LayoutObjectAtRandom(Food, foodCount.minimum, foodCount.maximum, 0, false, d.foodDrawn, d.foodStreams);
      assert tiles == laid + Place(Food, s.food);
      laid := tiles;
      LayoutObjectAtRandom(Treasure, foodCount.minimum, foodCount.maximum, level * 2, false,
                           d.treasureDrawn, d.treasureStreams);
      assert tiles == laid + Place(Treasure, s.treasure);
      laid := tiles;
      var enemyCount := Log2(level);
      LayoutObjectAtRandom(Enemy, enemyCount, enemyCount, level, true, enemyCount, d.enemyStreams);
      assert tiles == laid + Place(Enemy, s.enemies);
      tiles := tiles + [Tile(Exit, Cell(columns - 1, rows - 1))];
    }

    /** The maze step of `SetupScene`: the draw `flip` selects the corner maze, the vertical
        maze, the horizontal maze or walls scattered at random. */
    method LayoutMaze(level: int, d: SceneDraws)
      requires MazeLayout(columns, rows, level, levelScale, wallCount, gridPositions, d).Some?
      modifies this`tiles, this`gridPositions
      ensures var p := MazeLayout(columns, rows, level, levelScale, wallCount, old(gridPositions), d).value;
        gridPositions == p.free && tiles == old(tiles) + Place(Wall, p.placed)
    {
      var flip := d.flip;
      if flip <= 10.33 {
        LayoutCornerMaze(d.gap, d.cornerBranch, d.arms);
      } else if flip < 0.25 {
        // LayoutVerticalMaze(d.opens): no value of flip gets here (MazeChoice)
        assert false;
      } else if flip <= 0.66 {
        // LayoutHorizontalMaze(d.opens): no value of flip gets here (MazeChoice)
        assert false;
      } else {
        LayoutObjectAtRandom(Wall, wallCount.minimum, wallCount.maximum, level, false, d.wallDrawn, d.wallStreams);
      }
    }

    /** Refills the free list with every inner cell, column by column. */
    method InitialiseList()
      modifies this`gridPositions
      ensures gridPositions == Block(1, columns - 1, 1, rows - 1)
    {
      gridPositions := [];
      var x := 1;
      while x < columns - 1
        invariant 1 <= x && (x <= columns - 1 || x == 1)
        invariant gridPositions == Block(1, x, 1, rows - 1)
      {
        var y := 1;
        while y < rows - 1
          invariant 1 <= y && (y <= rows - 1 || y == 1)
          invariant gridPositions == Block(1, x, 1, rows - 1) + Column(x, 1, y)
        {
          gridPositions := gridPositions + [Cell(x, y)];
          y := y + 1;
        }
        x := x + 1;
      }
    }

    /** Sizes the board for the level and lays out the outer walls and the floor. */
    method BoardSetup(level: int)
      modifies this`columns, this`rows, this`tiles
      ensures columns == InitialColumns + level * levelScale
      ensures rows == InitialRows + level * levelScale
      ensures tiles == old(tiles) + Backdrop(columns, rows)
    {
      columns := InitialColumns + level * levelScale;
      rows := InitialRows + level * levelScale;
      var x := -1;
      while x < columns + 1
        modifies this`tiles
        invariant -1 <= x && (x <= columns + 1 || x == -1)
        invariant tiles == old(tiles) + Paint(columns, rows, Block(-1, x, -1, rows + 1))
        decreases columns + 1 - x
      {
        SetupColumn(x, old(tiles));
        x := x + 1;
      }
    }

    /** One pass of `BoardSetup`'s outer loop: the tiles of column x, from y == -1 to
        y == rows, after those of the columns to its left (laid on top of t0). */
    method SetupColumn(x: int, ghost t0: seq<Tile>)
      requires x >= -1
      requires tiles == t0 + Paint(columns, rows, Block(-1, x, -1, rows + 1))
      modifies this`tiles
      ensures tiles == t0 + Paint(columns, rows, Block(-1, x + 1, -1, rows + 1))
    {
      var y := -1;
      ghost var left := Block(-1, x, -1, rows + 1);
      assert left + Column(x, -1, y) == left;
      while y < rows + 1
        invariant -1 <= y && (y <= rows + 1 || y == -1)
        invariant tiles == t0 + Paint(columns, rows, left + Column(x, -1, y))
        decreases rows + 1 - y
      {
        var toInstantiate := Floor;
        if x == -1 || x == columns || y == -1 || y == rows {
          toInstantiate := OuterWall;
        }
        PaintColumnSnoc(t0, columns, rows, left, x, y);
        tiles := tiles + [Tile(toInstantiate, Cell(x, y))];
        y := y + 1;
      }
      assert Block(-1, x + 1, -1, rows + 1) == left + Column(x, -1, y);
    }

    /** Draws indices from `draws` until one names a cell that passes the retry filter,
        then takes that entry out of the free list and returns it. */
    method RandomPosition(isEnemy: bool, draws: seq<int>) returns (randomPosition: Cell)
      requires Stop(gridPositions, isEnemy, draws, 0).Some?
      modifies this`gridPositions
      ensures var i := draws[Stop(old(gridPositions), isEnemy, draws, 0).value];
        randomPosition == old(gridPositions)[i] && gridPositions == RemoveAt(old(gridPositions), i)
      ensures !Rejected(isEnemy, randomPosition)
    {
      var k := 0;
      var randomIndex := draws[k];
      randomPosition := gridPositions[randomIndex];
      while Rejected(isEnemy, randomPosition)
        invariant Stop(gridPositions, isEnemy, draws, k) == Stop(gridPositions, isEnemy, draws, 0)
        invariant k < |draws| && randomIndex == draws[k] && 0 <= randomIndex < |gridPositions|
        invariant randomPosition == gridPositions[randomIndex]
        decreases Stop(gridPositions, isEnemy, draws, 0).value - k
      {
        k := k + 1;
        randomIndex := draws[k];
        randomPosition := gridPositions[randomIndex];
      }
      gridPositions := RemoveAt(gridPositions, randomIndex);
    }

    /** Instantiates a wall on `at` and removes `freed` from the free list. */
    method PutWall(at: Cell, freed: Cell)
      modifies this`tiles, this`gridPositions
      ensures tiles == old(tiles) + [Tile(Wall, at)]
      ensures gridPositions == Remove(old(gridPositions), freed)
    {
      tiles := tiles + [Tile(Wall, at)];
      gridPositions := Remove(gridPositions, freed);
    }

    /** Places `count` objects of a kind on cells picked by `RandomPosition`. */
    method LayoutObjectAtRandom(kind: Kind, minimum: int, maximum: int, level: int, isEnemy: bool,
                                drawn: int, streams: seq<seq<int>>)
      requires Scattering(gridPositions, isEnemy, Count(minimum, maximum), drawn, level, levelScale, streams).Some?
      modifies this`tiles, this`gridPositions
      ensures var p := Scattering(old(gridPositions), isEnemy, Count(minimum, maximum), drawn, level, levelScale, streams).value;
        gridPositions == p.free && tiles == old(tiles) + Place(kind, p.placed)
    {
      var objectCount := ObjectCount(drawn, level, levelScale);
      ghost var free0, tiles0, placed := gridPositions, tiles, [];
      var i := 0;
      while i < objectCount
        invariant 0 <= i <= |streams|
        invariant i == |streams| || i < objectCount
        invariant Run(free0, isEnemy, streams[..i]) == Some(Picks(gridPositions, placed))
        invariant tiles == tiles0 + Place(kind, placed)
      {
        RunStep(free0, isEnemy, streams, i, gridPositions, placed);
        var randomPosition := RandomPosition(isEnemy, streams[i]);
        PlaceSnoc(tiles0, kind, placed, randomPosition);
        tiles := tiles + [Tile(kind, randomPosition)];
        placed := placed + [randomPosition];
        i := i + 1;
      }
      assert streams[..i] == streams;
    }


    /** One inner loop of the descending corner maze, `for (i = hi; i >= 0; i--)`, along
        the column x == fixed (`vertical`) or the row y == fixed: a wall on each cell not
        skipped, and that cell removed from the free list. */
    method WallLineDown(vertical: bool, fixed: int, hi: int, open: int, skip: bool)
      modifies this`tiles, this`gridPositions
      ensures tiles == old(tiles) + Place(Wall, DownLine(vertical, fixed, hi, 0, open, skip))
      ensures gridPositions == RemoveEach(old(gridPositions), DownLine(vertical, fixed, hi, 0, open, skip))
    {
      var i := hi;
      while i >= 0
        invariant i == hi || -1 <= i <= hi
        invariant tiles == old(tiles) + Place(Wall, DownLine(vertical, fixed, hi, i + 1, open, skip))
        invariant gridPositions == RemoveEach(old(gridPositions), DownLine(vertical, fixed, hi, i + 1, open, skip))
      {
        WallDown(vertical, fixed, hi, i, open, skip, old(tiles), old(gridPositions));
        i := i - 1;
      }
    }

    /** One pass of `WallLineDown`'s loop, at position i: a wall on the cell unless it is
        skipped. The walls laid by the earlier passes, on top of the objects t0 and the
        free list g0, are carried along. */
    method WallDown(vertical: bool, fixed: int, hi: int, i: int, open: int, skip: bool,
                    ghost t0: seq<Tile>, ghost g0: seq<Cell>)
      requires i <= hi
      requires tiles == t0 + Place(Wall, DownLine(vertical, fixed, hi, i + 1, open, skip))
      requires gridPositions == RemoveEach(g0, DownLine(vertical, fixed, hi, i + 1, open, skip))
      modifies this`tiles, this`gridPositions
      ensures tiles == t0 + Place(Wall, DownLine(vertical, fixed, hi, i, open, skip))
      ensures gridPositions == RemoveEach(g0, DownLine(vertical, fixed, hi, i, open, skip))
    {
      ghost var done := DownLine(vertical, fixed, hi, i + 1, open, skip);
      if (i == open || i == open + 1 || i == open - 1) && skip {
        assert DownLine(vertical, fixed, hi, i, open, skip) == done;
      } else {
        var c := At(vertical, fixed, i);
        assert DownLine(vertical, fixed, hi, i, open, skip) == done + [c];
        PlaceSnoc(t0, Wall, done, c);
        RemoveEachSnoc(g0, done, c);
        PutWall(c, c);
      }
    }

    /** One inner loop `for (i = lo; i < hi; i++)` of the ascending corner maze or of a
        stripe maze, along the column x == fixed (`vertical`) or the row y == fixed: a wall
        on each cell not skipped. The cell removed from the free list is the one on the
        line `freedVertical` names, which differs from the wall's cell in the horizontal
        maze. */
    method WallLineUp(vertical: bool, freedVertical: bool, fixed: int, lo: int, hi: int, open: int, skip: bool)
      modifies this`tiles, this`gridPositions
      ensures tiles == old(tiles) + Place(Wall, UpLine(vertical, fixed, lo, hi, open, skip))
      ensures gridPositions == RemoveEach(old(gridPositions), UpLine(freedVertical, fixed, lo, hi, open, skip))
    {
      var i := lo;
      while i < hi
        invariant i == lo || lo <= i <= hi
        invariant tiles == old(tiles) + Place(Wall, UpLine(vertical, fixed, lo, i, open, skip))
        invariant gridPositions == RemoveEach(old(gridPositions), UpLine(freedVertical, fixed, lo, i, open, skip))
      {
        ghost var placed := UpLine(vertical, fixed, lo, i, open, skip);
        ghost var freed := UpLine(freedVertical, fixed, lo, i, open, skip);
        if (i == open || i == open + 1 || i == open - 1) && skip {
          assert UpLine(vertical, fixed, lo, i + 1, open, skip) == placed;
          assert UpLine(freedVertical, fixed, lo, i + 1, open, skip) == freed;
        } else {
          var at, c := At(vertical, fixed, i), At(freedVertical, fixed, i);
          assert UpLine(vertical, fixed, lo, i + 1, open, skip) == placed + [at];
          assert UpLine(freedVertical, fixed, lo, i + 1, open, skip) == freed + [c];
          PlaceSnoc(old(tiles), Wall, placed, at);
          RemoveEachSnoc(old(gridPositions), freed, c);
          PutWall(at, c);
        }
        i := i + 1;
      }
    }

    /** Lays out the vertical maze: a wall column at x = 1, 4, 7, ... while x < columns - 1,
        each over rows 0 .. rows - 1 except the three rows around its opening, which is
        drawn from [1, rows - 1) (opens[k] for the k-th column). Each wall's cell is
        removed from the free list. */
    method LayoutVerticalMaze(opens: seq<int>)
      requires StripesFit(1, columns, rows, opens)
      modifies this`tiles, this`gridPositions
      ensures tiles == old(tiles) + Place(Wall, Stripes(true, 1, columns, rows, opens))
      ensures gridPositions == RemoveEach(old(gridPositions), Stripes(true, 1, columns, rows, opens))
    {
      LayoutStripes(true, 1, opens);
    }

    /** Lays out the horizontal maze: the loop of the vertical maze from x = 2, except that
        each wall goes on the transposed cell (row, col) while the cell removed from the
        free list is (col, row). */
    method LayoutHorizontalMaze(opens: seq<int>)
      requires StripesFit(2, columns, rows, opens)
      modifies this`tiles, this`gridPositions
      ensures tiles == old(tiles) + Place(Wall, Stripes(false, 2, columns, rows, opens))
      ensures gridPositions == RemoveEach(old(gridPositions), Stripes(true, 2, columns, rows, opens))
    {
      LayoutStripes(false, 2, opens);
    }

    /** The loop shared by the two stripe mazes, `for (col = first; col < columns - 1;
        col += 3)` around `for (row = 0; row <= rows - 1; row++)`: walls along the lines
        `vertical` names, and the cells of the columns removed from the free list. */
    method LayoutStripes(vertical: bool, first: int, opens: seq<int>)
      requires StripesFit(first, columns, rows, opens)
      modifies this`tiles, this`gridPositions
      ensures tiles == old(tiles) + Place(Wall, Stripes(vertical, first, columns, rows, opens))
      ensures gridPositions == RemoveEach(old(gridPositions), Stripes(true, first, columns, rows, opens))
    {
      ghost var allPlaced, allFreed := Stripes(vertical, first, columns, rows, opens), Stripes(true, first, columns, rows, opens);
      ghost var placed, freed := [], [];
      var rest := opens;
      var col := first;
      while col < columns - 1
        invariant StripesFit(col, columns, rows, rest)
        invariant allPlaced == placed + Stripes(vertical, col, columns, rows, rest)
        invariant allFreed == freed + Stripes(true, col, columns, rows, rest)
        invariant tiles == old(tiles) + Place(Wall, placed)
        invariant gridPositions == RemoveEach(old(gridPositions), freed)
        decreases columns - col
      {
        placed, freed := LayoutStripe(vertical, col, rest, allPlaced, allFreed, old(tiles), old(gridPositions), placed, freed);
        rest := rest[1..];
        col := col + 3;
      }
      StripesStep(allPlaced, placed, vertical, col, columns, rows, rest);
      StripesStep(allFreed, freed, true, col, columns, rows, rest);
    }

    /** One pass of the stripe loop at `col`, whose opening is rest[0]: it lays the stripe and
        leaves the remaining stripes to come. */
    method LayoutStripe(vertical: bool, col: int, rest: seq<int>, ghost allPlaced: seq<Cell>, ghost allFreed: seq<Cell>,
                        ghost t0: seq<Tile>, ghost g0: seq<Cell>, ghost placed: seq<Cell>, ghost freed: seq<Cell>)
      returns (ghost placed': seq<Cell>, ghost freed': seq<Cell>)
      requires col < columns - 1 && StripesFit(col, columns, rows, rest)
      requires allPlaced == placed + Stripes(vertical, col, columns, rows, rest)
      requires allFreed == freed + Stripes(true, col, columns, rows, rest)
      requires tiles == t0 + Place(Wall, placed) && gridPositions == RemoveEach(g0, freed)
      modifies this`tiles, this`gridPositions
      ensures |rest| > 0 && StripesFit(col + 3, columns, rows, rest[1..])
      ensures allPlaced == placed' + Stripes(vertical, col + 3, columns, rows, rest[1..])
      ensures allFreed == freed' + Stripes(true, col + 3, columns, rows, rest[1..])
      ensures tiles == t0 + Place(Wall, placed') && gridPositions == RemoveEach(g0, freed')
    {
      StripesStep(allPlaced, placed, vertical, col, columns, rows, rest);
      StripesStep(allFreed, freed, true, col, columns, rows, rest);
      var openRow := rest[0];
      ghost var wallLine, freedLine := UpLine(vertical, col, 0, rows, openRow, true), UpLine(true, col, 0, rows, openRow, true);
      WallLineUp(vertical, true, col, 0, rows, openRow, true);
      PlaceAppend(t0, Wall, placed, wallLine);
      RemoveEachAppend(g0, freed, freedLine);
      placed', freed' := placed + wallLine, freed + freedLine;
    }

    /** Lays out the corner maze: L-shaped walls, each with a three-cell opening, one per
        step of a loop whose form the draw `branch` selects. Each wall is instantiated and
        its cell removed from the free list. `gap` is the draw from [3, 5); the k-th arm holds
        the k-th step's opening and its side. */
    method LayoutCornerMaze(gap: int, branch: real, arms: seq<Arm>)
      requires 3 <= gap < 5 && CornerFits(columns, gap, branch, arms)
      modifies this`tiles, this`gridPositions
      ensures tiles == old(tiles) + Place(Wall, CornerWalls(columns, rows, gap, branch, arms))
      ensures gridPositions == RemoveEach(old(gridPositions), CornerWalls(columns, rows, gap, branch, arms))
    {
      if branch <= -0.5 {
        LayoutAscendingCorner(gap, arms);
      } else {
        LayoutDescendingCorner(gap, arms);
      }
    }

    /** The corner maze's first form: L's at start = 2, 2 + gap, ... while
        start < columns - 1, each a column going up from (start, start) and a row going
        right from (start + 1, start). */
    method LayoutAscendingCorner(gap: int, arms: seq<Arm>)
      requires 3 <= gap < 5 && AscentFits(2, gap, columns, arms)
      modifies this`tiles, this`gridPositions
      ensures tiles == old(tiles) + Place(Wall, Ascending(2, gap, columns, rows, arms))
      ensures gridPositions == RemoveEach(old(gridPositions), Ascending(2, gap, columns, rows, arms))
    {
      ghost var all, walls := Ascending(2, gap, columns, rows, arms), [];
      var rest := arms;
      var start := 2;
      while start < columns - 1
        invariant AscentFits(start, gap, columns, rest)
        invariant all == walls + Ascending(start, gap, columns, rows, rest)
        invariant tiles == old(tiles) + Place(Wall, walls)
        invariant gridPositions == RemoveEach(old(gridPositions), walls)
        decreases columns - start
      {
        walls, rest := LayoutAscendingStep(start, gap, rest, all, old(tiles), old(gridPositions), walls);
        start := start + gap;
      }
      assert walls + [] == walls;
    }

    /** One pass of the ascending loop, at `start` with the draws rest[0]: it lays the L of
        the step and leaves the walls of the remaining passes to come. */
    method LayoutAscendingStep(start: int, gap: int, rest: seq<Arm>, ghost all: seq<Cell>,
                               ghost t0: seq<Tile>, ghost g0: seq<Cell>, ghost walls: seq<Cell>)
      returns (ghost walls': seq<Cell>, next: seq<Arm>)
      requires start < columns - 1 && AscentFits(start, gap, columns, rest)
      requires all == walls + Ascending(start, gap, columns, rows, rest)
      requires tiles == t0 + Place(Wall, walls) && gridPositions == RemoveEach(g0, walls)
      modifies this`tiles, this`gridPositions
      ensures AscentFits(start + gap, gap, columns, next)
      ensures all == walls' + Ascending(start + gap, gap, columns, rows, next)
      ensures tiles == t0 + Place(Wall, walls') && gridPositions == RemoveEach(g0, walls')
    {
      AscendingStep(all, walls, start, gap, columns, rows, rest);
      LayoutAscendingL(start, rest[0], t0, g0, walls);
      walls' := walls + AscendingL(start, columns, rows, rest[0]);
      next := rest[1..];
    }

    /** The objects and the free list after the walls `walls` were laid on top of the
        objects t0 and the free list g0. */
    ghost predicate Laid(t0: seq<Tile>, g0: seq<Cell>, walls: seq<Cell>)
      reads this`tiles, this`gridPositions
    {
      tiles == t0 + Place(Wall, walls) && gridPositions == RemoveEach(g0, walls)
    }

    /** The corner maze's second form, the one the game runs: L's at start = columns - 2,
        columns - 2 - gap, ... while start > 1, each a column going down from
        (start, start) to (start, 0) and a row going left from (start - 1, start) to
        (0, start). */
    method LayoutDescendingCorner(gap: int, arms: seq<Arm>)
      requires 3 <= gap < 5 && DescentFits(columns - 2, gap, arms)
      modifies this`tiles, this`gridPositions
      ensures tiles == old(tiles) + Place(Wall, Descending(columns - 2, gap, arms))
      ensures gridPositions == RemoveEach(old(gridPositions), Descending(columns - 2, gap, arms))
    {
      ghost var all, walls := Descending(columns - 2, gap, arms), [];
      ghost var t0, g0 := tiles, gridPositions;
      var rest := arms;
      var start := columns - 2;
      while start > 1
        invariant DescentFits(start, gap, rest)
        invariant all == walls + Descending(start, gap, rest)
        invariant Laid(t0, g0, walls)
        decreases start
      {
        walls, rest, start := LayoutDescendingStep(start, gap, rest, all, t0, g0, walls);
      }
      assert walls + [] == walls;
    }

    /** One pass of the descending loop, at `start` with the draws rest[0]. */
    method LayoutDescendingStep(start: int, gap: int, rest: seq<Arm>, ghost all: seq<Cell>,
                                ghost t0: seq<Tile>, ghost g0: seq<Cell>, ghost walls: seq<Cell>)
      returns (ghost walls': seq<Cell>, next: seq<Arm>, nextStart: int)
      requires start > 1 && gap > 0 && DescentFits(start, gap, rest)
      requires all == walls + Descending(start, gap, rest)
      requires Laid(t0, g0, walls)
      modifies this`tiles, this`gridPositions
      ensures nextStart < start
      ensures DescentFits(nextStart, gap, next)
      ensures all == walls' + Descending(nextStart, gap, next)
      ensures Laid(t0, g0, walls')
    {
      DescendingStep(all, walls, start, gap, rest);
      LayoutDescendingL(start, rest[0], t0, g0, walls);
      walls' := walls + DescendingL(start, rest[0]);
      next := rest[1..];
      nextStart := start - gap;
    }

    /** One step of the ascending corner maze: the column from (start, start) up to
        (start, rows - 1), then the row from (start + 1, start) to (columns - 1, start),
        leaving out the three cells around `openSpace` in the column when `spaceInRow`
        holds and in the row otherwise. The walls laid before the step (`walls`, on top of
        the objects t0 and the free list g0) are carried along. */
    method LayoutAscendingL(start: int, arm: Arm, ghost t0: seq<Tile>, ghost g0: seq<Cell>, ghost walls: seq<Cell>)
      requires tiles == t0 + Place(Wall, walls) && gridPositions == RemoveEach(g0, walls)
      modifies this`tiles, this`gridPositions
      ensures tiles == t0 + Place(Wall, walls + AscendingL(start, columns, rows, arm))
      ensures gridPositions == RemoveEach(g0, walls + AscendingL(start, columns, rows, arm))
    {
      var row, col := start, start;
      var openSpace, spaceInRow := arm.open, arm.inColumn;
      ghost var column := UpLine(true, col, row, rows, openSpace, spaceInRow);
      ghost var across := UpLine(false, row, col + 1, columns, openSpace, !spaceInRow);
      WallLineUp(true, true, col, row, rows, openSpace, spaceInRow);
      WallLineUp(false, false, row, col + 1, columns, openSpace, !spaceInRow);
      PlaceAppend(old(tiles), Wall, column, across);
      RemoveEachAppend(old(gridPositions), column, across);
      PlaceAppend(t0, Wall, walls, column + across);
      RemoveEachAppend(g0, walls, column + across);
    }

    /** One step of the descending corner maze: the column from (start, start) down to
        (start, 0), then the row from (start - 1, start) to (0, start), with the opening
        cut as in `LayoutAscendingL`. */
    method LayoutDescendingL(start: int, arm: Arm, ghost t0: seq<Tile>, ghost g0: seq<Cell>, ghost walls: seq<Cell>)
      requires tiles == t0 + Place(Wall, walls) && gridPositions == RemoveEach(g0, walls)
      modifies this`tiles, this`gridPositions
      ensures tiles == t0 + Place(Wall, walls + DescendingL(start, arm))
      ensures gridPositions == RemoveEach(g0, walls + DescendingL(start, arm))
    {
      var row, col := start, start;
      var openSpace, spaceInRow := arm.open, arm.inColumn;
      ghost var column := DownLine(true, col, row, 0, openSpace, spaceInRow);
      ghost var across := DownLine(false, row, col - 1, 0, openSpace, !spaceInRow);
      WallLineDown(true, col, row, openSpace, spaceInRow);
      WallLineDown(false, row, col - 1, openSpace, !spaceInRow);
      PlaceAppend(old(tiles), Wall, column, across);
      RemoveEachAppend(old(gridPositions), column, across);
      PlaceAppend(t0, Wall, walls, column + across);
      RemoveEachAppend(g0, walls, column + across);
    }
  }
}
