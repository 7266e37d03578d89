/** The wall cells that the three maze layouts of the board generator lay down, as
    sequences in the order the layouts' loops place them. The board generator's methods
    are proved to place exactly these walls; this module says which cells they are. */
module Mazes {
  import opened Lists
  import opened Grid

  /** i is the opening's centre or one of its two neighbours. */
  predicate Near(i: int, open: int) {
    i == open - 1 || i == open || i == open + 1
  }

  /** The cell at position i of a column (`vertical`, x == fixed) or of a row (y == fixed). */
  function At(vertical: bool, fixed: int, i: int): Cell {
    if vertical then Cell(fixed, i) else Cell(i, fixed)
  }

  /** The coordinate that varies along a column (y) or a row (x). */
  function Along(vertical: bool, c: Cell): int {
    if vertical then c.y else c.x
  }

  /** The coordinate that is fixed along a column (x) or a row (y). */
  function Across(vertical: bool, c: Cell): int {
    if vertical then c.x else c.y
  }

  /** The walls of `for (i = hi; i >= lo; i--)`, which skips the i near `open` when `skip`
      holds; the walls come in the order hi, hi - 1, ..., lo. */
  function DownLine(vertical: bool, fixed: int, hi: int, lo: int, open: int, skip: bool): seq<Cell>
    decreases hi - lo
  {
    if hi < lo then []
    else DownLine(vertical, fixed, hi, lo + 1, open, skip)
         + (if skip && Near(lo, open) then [] else [At(vertical, fixed, lo)])
  }

  /** The walls of `for (i = lo; i < hi; i++)`, which skips the i near `open` when `skip`
      holds; the walls come in the order lo, lo + 1, ..., hi - 1. */
  function UpLine(vertical: bool, fixed: int, lo: int, hi: int, open: int, skip: bool): seq<Cell>
    decreases hi - lo
  {
    if hi <= lo then []
    else UpLine(vertical, fixed, lo, hi - 1, open, skip)
         + (if skip && Near(hi - 1, open) then [] else [At(vertical, fixed, hi - 1)])
  }

  /** A line holds exactly the cells of its range that are not skipped. */
  lemma {:induction false} DownLineCells(vertical: bool, fixed: int, hi: int, lo: int, open: int, skip: bool)
    ensures forall c :: c in DownLine(vertical, fixed, hi, lo, open, skip) <==>
      Across(vertical, c) == fixed && lo <= Along(vertical, c) <= hi && !(skip && Near(Along(vertical, c), open))
    decreases hi - lo
  {
    if hi >= lo {
      DownLineCells(vertical, fixed, hi, lo + 1, open, skip);
    }
  }

  lemma {:induction false} UpLineCells(vertical: bool, fixed: int, lo: int, hi: int, open: int, skip: bool)
    ensures forall c :: c in UpLine(vertical, fixed, lo, hi, open, skip) <==>
      Across(vertical, c) == fixed && lo <= Along(vertical, c) < hi && !(skip && Near(Along(vertical, c), open))
    decreases hi - lo
  {
    if hi > lo {
      UpLineCells(vertical, fixed, lo, hi - 1, open, skip);
    }
  }

  /** A line visits each of its cells once. */
  lemma {:induction false} DownLineDistinct(vertical: bool, fixed: int, hi: int, lo: int, open: int, skip: bool)
    ensures Distinct(DownLine(vertical, fixed, hi, lo, open, skip))
    decreases hi - lo
  {
    if hi >= lo {
      var rest := DownLine(vertical, fixed, hi, lo + 1, open, skip);
      DownLineDistinct(vertical, fixed, hi, lo + 1, open, skip);
      DownLineCells(vertical, fixed, hi, lo + 1, open, skip);
      DistinctAppend(rest, if skip && Near(lo, open) then [] else [At(vertical, fixed, lo)]);
    }
  }

  /** The draws of one corner-maze step: the centre of its opening (`openSpace`) and
      whether the opening is cut into the column arm (`spaceInRow`) or the row arm. */
  datatype Arm = Arm(open: int, inColumn: bool)

  // ---------------------------------------------------------------------------
  // Corner maze, descending form (the branch the game runs)

  /** One step of the descending corner maze at `start`: the column x == start from
      y == start down to 0, then the row y == start from x == start - 1 down to 0; the
      opening is cut into the column when `inColumn` holds and into the row otherwise. */
  function DescendingL(start: int, arm: Arm): seq<Cell> {
    DownLine(true, start, start, 0, arm.open, arm.inColumn)
    + DownLine(false, start, start - 1, 0, arm.open, !arm.inColumn)
  }

  /** The draws fit the loop `while (start > 1) { ...; start -= gap; }`: one arm per step,
      in order, each opening drawn from [1, start), and no arm left over. */
  predicate DescentFits(start: int, gap: int, arms: seq<Arm>)
    decreases |arms|
  {
    if start <= 1 then arms == []
    else arms != [] && 1 <= arms[0].open < start && DescentFits(start - gap, gap, arms[1..])
  }

  /** All walls of the descending corner maze from the step at `start` on, the step reading
      the first arm: step after step. */
  function Descending(start: int, gap: int, arms: seq<Arm>): seq<Cell>
    decreases |arms|
  {
    if start <= 1 || arms == [] then []
    else DescendingL(start, arms[0]) + Descending(start - gap, gap, arms[1..])
  }

  /** One pass of the descending loop: the draws for the step at `start` come first, and
      the walls laid so far followed by the rest are the walls laid after the step's L
      followed by the remaining steps' walls. */
  lemma DescendingStep(all: seq<Cell>, walls: seq<Cell>, start: int, gap: int, arms: seq<Arm>)
    requires DescentFits(start, gap, arms)
    requires all == walls + Descending(start, gap, arms)
    ensures start > 1 ==>
      arms != [] && 1 <= arms[0].open < start && DescentFits(start - gap, gap, arms[1..]) &&
      all == (walls + DescendingL(start, arms[0])) + Descending(start - gap, gap, arms[1..])
    ensures start <= 1 ==> all == walls
  {
    if start > 1 {
      var l, rest := DescendingL(start, arms[0]), Descending(start - gap, gap, arms[1..]);
      assert walls + (l + rest) == (walls + l) + rest;
    } else {
      assert walls + [] == walls;
    }
  }

  /** An L of the descending maze walls its column from `start` down to 0 and its row from
      `start - 1` down to 0, and leaves out the three cells around the opening in exactly
      the arm the draw names. */
  lemma DescendingLCells(start: int, arm: Arm)
    ensures forall c :: c in DescendingL(start, arm) <==>
      (c.x == start && 0 <= c.y <= start && !(arm.inColumn && Near(c.y, arm.open))) ||
      (c.y == start && 0 <= c.x < start && !(!arm.inColumn && Near(c.x, arm.open)))
  {
    DownLineCells(true, start, start, 0, arm.open, arm.inColumn);
    DownLineCells(false, start, start - 1, 0, arm.open, !arm.inColumn);
  }

  /** Each cell of an L lies on its column x == start or on its row y == start. */
  lemma DescendingLOnLines(start: int, arm: Arm, c: Cell)
    requires c in DescendingL(start, arm)
    ensures c.x == start || c.y == start
  {
    DescendingLCells(start, arm);
  }

  /** An L walls no cell twice. */
  lemma DescendingLDistinct(start: int, arm: Arm)
    ensures Distinct(DescendingL(start, arm))
  {
    var column := DownLine(true, start, start, 0, arm.open, arm.inColumn);
    var row := DownLine(false, start, start - 1, 0, arm.open, !arm.inColumn);
    DownLineDistinct(true, start, start, 0, arm.open, arm.inColumn);
    DownLineDistinct(false, start, start - 1, 0, arm.open, !arm.inColumn);
    DownLineCells(true, start, start, 0, arm.open, arm.inColumn);
    DownLineCells(false, start, start - 1, 0, arm.open, !arm.inColumn);
    DistinctAppend(column, row);
  }

  /** Every wall of the descending maze lies in the square [0, start] x [0, start]. */
  lemma {:induction false} DescendingBounds(start: int, gap: int, arms: seq<Arm>)
    requires gap > 0
    ensures forall c :: c in Descending(start, gap, arms) ==>
      0 <= c.x <= start && 0 <= c.y <= start
    decreases |arms|
  {
    if start > 1 && arms != [] {
      DescendingLCells(start, arms[0]);
      DescendingBounds(start - gap, gap, arms[1..]);
    }
  }

  /** The descending maze walls no cell twice: each L lies on the lines x == start and
      y == start, and the L's after it lie strictly inside [0, start)^2. */
  lemma {:induction false} DescendingDistinct(start: int, gap: int, arms: seq<Arm>)
    requires gap > 0
    ensures Distinct(Descending(start, gap, arms))
    decreases |arms|
  {
    if start > 1 && arms != [] {
      var l, rest := DescendingL(start, arms[0]), Descending(start - gap, gap, arms[1..]);
      DescendingBounds(start - gap, gap, arms[1..]);
      forall c | c in l ensures c !in rest {
        DescendingLOnLines(start, arms[0], c);
      }
      DescendingLDistinct(start, arms[0]);
      DescendingDistinct(start - gap, gap, arms[1..]);
      DistinctAppend(l, rest);
      assert Descending(start, gap, arms) == l + rest;
    } else {
      assert Descending(start, gap, arms) == [];
    }
  }

  // ---------------------------------------------------------------------------
  // Corner maze, ascending form (the branch guarded by a draw below -0.5)

  /** One step of the ascending corner maze at `start`: the column x == start from
      y == start up to rows - 1, then the row y == start from x == start + 1 up to
      columns - 1. */
  function AscendingL(start: int, columns: int, rows: int, arm: Arm): seq<Cell> {
    UpLine(true, start, start, rows, arm.open, arm.inColumn)
    + UpLine(false, start, start + 1, columns, arm.open, !arm.inColumn)
  }

  /** The draws fit the loop `while (start < columns - 1) { ...; start += gap; }`: one arm
      per step, in order, each opening drawn from [start + 1, columns). */
  predicate AscentFits(start: int, gap: int, columns: int, arms: seq<Arm>)
    decreases |arms|
  {
    if start >= columns - 1 then arms == []
    else arms != [] && start + 1 <= arms[0].open < columns && AscentFits(start + gap, gap, columns, arms[1..])
  }

  /** All walls of the ascending corner maze from the step at `start` on. */
  function Ascending(start: int, gap: int, columns: int, rows: int, arms: seq<Arm>): seq<Cell>
    decreases |arms|
  {
    if start >= columns - 1 || arms == [] then []
    else AscendingL(start, columns, rows, arms[0]) + Ascending(start + gap, gap, columns, rows, arms[1..])
  }

  /** One pass of the ascending loop, as `DescendingStep`. */
  lemma AscendingStep(all: seq<Cell>, walls: seq<Cell>, start: int, gap: int, columns: int, rows: int, arms: seq<Arm>)
    requires AscentFits(start, gap, columns, arms)
    requires all == walls + Ascending(start, gap, columns, rows, arms)
    ensures start < columns - 1 ==>
      arms != [] && start + 1 <= arms[0].open < columns && AscentFits(start + gap, gap, columns, arms[1..]) &&
      all == (walls + AscendingL(start, columns, rows, arms[0])) + Ascending(start + gap, gap, columns, rows, arms[1..])
    ensures start >= columns - 1 ==> all == walls
  {
    if start < columns - 1 {
      var l, rest := AscendingL(start, columns, rows, arms[0]), Ascending(start + gap, gap, columns, rows, arms[1..]);
      assert walls + (l + rest) == (walls + l) + rest;
    } else {
      assert walls + [] == walls;
    }
  }

  lemma AscendingLCells(start: int, columns: int, rows: int, arm: Arm)
    ensures forall c :: c in AscendingL(start, columns, rows, arm) <==>
      (c.x == start && start <= c.y < rows && !(arm.inColumn && Near(c.y, arm.open))) ||
      (c.y == start && start < c.x < columns && !(!arm.inColumn && Near(c.x, arm.open)))
  {
    UpLineCells(true, start, start, rows, arm.open, arm.inColumn);
    UpLineCells(false, start, start + 1, columns, arm.open, !arm.inColumn);
  }

  // ---------------------------------------------------------------------------
  // Both forms

  /** The corner-maze draws fit the form that the draw `branch` selects: the ascending form
      from 2 when `branch <= -0.5`, the descending form from `columns - 2` otherwise. */
  predicate CornerFits(columns: int, gap: int, branch: real, arms: seq<Arm>) {
    if branch <= -0.5 then AscentFits(2, gap, columns, arms) else DescentFits(columns - 2, gap, arms)
  }

  /** The walls of `LayoutCornerMaze`, in placement order. */
  function CornerWalls(columns: int, rows: int, gap: int, branch: real, arms: seq<Arm>): seq<Cell> {
    if branch <= -0.5 then Ascending(2, gap, columns, rows, arms) else Descending(columns - 2, gap, arms)
  }

  /** `Random.Range(0f, 1f)` never returns a value at or below -0.5, so the corner maze
      always takes its descending form; its walls stay inside [0, columns - 2]^2 and no
      cell is walled twice. */
  lemma CornerAlwaysDescends(columns: int, rows: int, gap: int, branch: real, arms: seq<Arm>)
    requires 0.0 <= branch <= 1.0
    requires gap > 0
    ensures CornerWalls(columns, rows, gap, branch, arms) == Descending(columns - 2, gap, arms)
    ensures forall c :: c in CornerWalls(columns, rows, gap, branch, arms) ==>
      0 <= c.x <= columns - 2 && 0 <= c.y <= columns - 2
    ensures Distinct(CornerWalls(columns, rows, gap, branch, arms))
  {
    DescendingBounds(columns - 2, gap, arms);
    DescendingDistinct(columns - 2, gap, arms);
  }

  // ---------------------------------------------------------------------------
  // Vertical and horizontal mazes

  /** The draws fit the loop `for (col = first; col < columns - 1; col += 3)`: one opening
      per stripe, drawn from [1, rows - 1). */
  predicate StripesFit(col: int, columns: int, rows: int, opens: seq<int>)
    decreases |opens|
  {
    if col >= columns - 1 then opens == []
    else |opens| > 0 && 1 <= opens[0] < rows - 1 && StripesFit(col + 3, columns, rows, opens[1..])
  }

  /** The cells a stripe loop visits: for each stripe, positions 0 .. rows - 1 of line `col`
      (a column when `vertical`, a row otherwise) except the three around its opening. */
  function Stripes(vertical: bool, col: int, columns: int, rows: int, opens: seq<int>): seq<Cell>
    decreases |opens|
  {
    if col >= columns - 1 || opens == [] then []
    else UpLine(vertical, col, 0, rows, opens[0], true) + Stripes(vertical, col + 3, columns, rows, opens[1..])
  }

  /** A stripe pattern covers the lines first, first + 3, first + 6, ... below columns - 1,
      each in every position 0 .. rows - 1 except within one of its own opening. */
  lemma {:induction false} StripesCells(vertical: bool, col: int, columns: int, rows: int, opens: seq<int>)
    requires StripesFit(col, columns, rows, opens)
    ensures forall c :: c in Stripes(vertical, col, columns, rows, opens) <==>
      Across(vertical, c) < columns - 1 && 0 <= Along(vertical, c) < rows &&
      exists k :: 0 <= k < |opens| && Across(vertical, c) == col + 3 * k && !Near(Along(vertical, c), opens[k])
    decreases |opens|
  {
    if col < columns - 1 {
      var rest := opens[1..];
      UpLineCells(vertical, col, 0, rows, opens[0], true);
      StripesCells(vertical, col + 3, columns, rows, rest);
      StripesBound(col + 3, columns, rows, rest);
      forall c ensures c in Stripes(vertical, col, columns, rows, opens) <==>
        Across(vertical, c) < columns - 1 && 0 <= Along(vertical, c) < rows &&
        exists k :: 0 <= k < |opens| && Across(vertical, c) == col + 3 * k && !Near(Along(vertical, c), opens[k])
      {
        if exists k :: 0 <= k < |opens| && Across(vertical, c) == col + 3 * k && !Near(Along(vertical, c), opens[k]) {
          var k :| 0 <= k < |opens| && Across(vertical, c) == col + 3 * k && !Near(Along(vertical, c), opens[k]);
          if k > 0 {
            assert rest[k - 1] == opens[k];
            assert Across(vertical, c) == col + 3 + 3 * (k - 1);
          }
        }
        if c in Stripes(vertical, col + 3, columns, rows, rest) {
          var k :| 0 <= k < |rest| && Across(vertical, c) == col + 3 + 3 * k && !Near(Along(vertical, c), rest[k]);
          assert opens[k + 1] == rest[k];
        }
      }
    }
  }

  /** One pass of a stripe loop: the opening of the stripe at `col` is the first draw, and
      the cells visited so far followed by the rest are the cells visited after this
      stripe followed by the remaining stripes' cells. */
  lemma StripesStep(all: seq<Cell>, done: seq<Cell>, vertical: bool, col: int, columns: int, rows: int, opens: seq<int>)
    requires StripesFit(col, columns, rows, opens)
    requires all == done + Stripes(vertical, col, columns, rows, opens)
    ensures col < columns - 1 ==>
      |opens| > 0 && 1 <= opens[0] < rows - 1 && StripesFit(col + 3, columns, rows, opens[1..]) &&
      all == (done + UpLine(vertical, col, 0, rows, opens[0], true)) + Stripes(vertical, col + 3, columns, rows, opens[1..])
    ensures col >= columns - 1 ==> all == done
  {
    if col < columns - 1 {
      var line, rest := UpLine(vertical, col, 0, rows, opens[0], true), Stripes(vertical, col + 3, columns, rows, opens[1..]);
      assert done + (line + rest) == (done + line) + rest;
    } else {
      assert done + [] == done;
    }
  }

  /** Every stripe that fitting draws name lies below columns - 1. */
  lemma {:induction false} StripesBound(col: int, columns: int, rows: int, opens: seq<int>)
    requires StripesFit(col, columns, rows, opens)
    ensures forall k :: 0 <= k < |opens| ==> col + 3 * k < columns - 1
    decreases |opens|
  {
    if col < columns - 1 {
      StripesBound(col + 3, columns, rows, opens[1..]);
      forall k | 1 <= k < |opens| ensures col + 3 * k < columns - 1 {
        assert col + 3 + 3 * (k - 1) < columns - 1;
      }
    }
  }

  /** Swaps x and y. */
  function Transposed(c: Cell): Cell {
    Cell(c.y, c.x)
  }

  /** Each cell of s with its coordinates swapped. */
  function TransposedAll(s: seq<Cell>): (r: seq<Cell>)
    ensures |r| == |s| && forall i :: 0 <= i < |s| ==> r[i] == Transposed(s[i])
  {
    if s == [] then [] else [Transposed(s[0])] + TransposedAll(s[1..])
  }

  /** The same stripe loop run along rows visits the transposes of the cells it visits
      along columns, in the same order. */
  lemma {:induction false} StripesTransposed(col: int, columns: int, rows: int, opens: seq<int>)
    ensures Stripes(false, col, columns, rows, opens) == TransposedAll(Stripes(true, col, columns, rows, opens))
    decreases |opens|
  {
    if col < columns - 1 && opens != [] {
      UpLineTransposed(col, 0, rows, opens[0]);
      StripesTransposed(col + 3, columns, rows, opens[1..]);
    }
  }

  /** Transposing twice gives the cells back. */
  lemma TransposedTwice(s: seq<Cell>)
    ensures TransposedAll(TransposedAll(s)) == s
  {
  }

  lemma {:induction false} UpLineTransposed(fixed: int, lo: int, hi: int, open: int)
    ensures UpLine(false, fixed, lo, hi, open, true) == TransposedAll(UpLine(true, fixed, lo, hi, open, true))
    decreases hi - lo
  {
    if hi > lo {
      UpLineTransposed(fixed, lo, hi - 1, open);
    }
  }
}
