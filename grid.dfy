/** Board cells and the rectangular blocks of cells that the board generator walks
    with its nested `for` loops (x outer, y inner). */
module Grid {
  import opened Lists

  /** A board position. The game keeps positions as `Vector3` values whose x and y are
      always whole numbers and whose z is 0; only x and y are kept here. */
  datatype Cell = Cell(x: int, y: int)

  /** The cells (x, y) for y = ylo, ..., yhi - 1: one pass of an inner `for y` loop. */
  function Column(x: int, ylo: int, yhi: int): seq<Cell>
    decreases yhi - ylo
  {
    if yhi <= ylo then [] else Column(x, ylo, yhi - 1) + [Cell(x, yhi - 1)]
  }

  /** The cells of [xlo, xhi) x [ylo, yhi), column after column: a whole nested loop. */
  function Block(xlo: int, xhi: int, ylo: int, yhi: int): seq<Cell>
    decreases xhi - xlo
  {
    if xhi <= xlo then [] else Block(xlo, xhi - 1, ylo, yhi) + Column(xhi - 1, ylo, yhi)
  }

  /** A column has one entry per y in [ylo, yhi). */
  lemma {:induction false} ColumnLength(x: int, ylo: int, yhi: int)
    ensures |Column(x, ylo, yhi)| == if yhi <= ylo then 0 else yhi - ylo
    decreases yhi - ylo
  {
    if yhi > ylo {
      ColumnLength(x, ylo, yhi - 1);
    }
  }

  /** A column holds each cell (x, y) with y in [ylo, yhi) exactly once, and nothing else. */
  lemma {:induction false} ColumnSpec(x: int, ylo: int, yhi: int)
    ensures forall c :: c in Column(x, ylo, yhi) <==> c.x == x && ylo <= c.y < yhi
    ensures Distinct(Column(x, ylo, yhi))
    decreases yhi - ylo
  {
    if yhi > ylo {
      ColumnSpec(x, ylo, yhi - 1);
      var prev := Column(x, ylo, yhi - 1);
      assert multiset(Column(x, ylo, yhi)) == multiset(prev) + multiset{Cell(x, yhi - 1)};
      assert Cell(x, yhi - 1) !in prev;
    }
  }

  /** A block has width times height entries. */
  lemma {:induction false} BlockLength(xlo: int, xhi: int, ylo: int, yhi: int)
    requires xlo <= xhi && ylo <= yhi
    ensures |Block(xlo, xhi, ylo, yhi)| == (xhi - xlo) * (yhi - ylo)
    decreases xhi - xlo
  {
    if xhi > xlo {
      BlockLength(xlo, xhi - 1, ylo, yhi);
      ColumnLength(xhi - 1, ylo, yhi);
      var w, h := xhi - xlo, yhi - ylo;
      assert (w - 1) * h == w * h - h;
    }
  }

  /** A block holds each cell of its rectangle exactly once, and nothing else. */
  lemma {:induction false} BlockCells(xlo: int, xhi: int, ylo: int, yhi: int)
    ensures forall c :: c in Block(xlo, xhi, ylo, yhi) <==> xlo <= c.x < xhi && ylo <= c.y < yhi
    ensures Distinct(Block(xlo, xhi, ylo, yhi))
    decreases xhi - xlo
  {
    if xhi > xlo {
      BlockCells(xlo, xhi - 1, ylo, yhi);
      ColumnSpec(xhi - 1, ylo, yhi);
      var prev, col := Block(xlo, xhi - 1, ylo, yhi), Column(xhi - 1, ylo, yhi);
      forall c | c in prev + col ensures multiset(prev + col)[c] <= 1 {
        assert multiset(prev + col)[c] == multiset(prev)[c] + multiset(col)[c];
        if c in col {
          assert c !in prev;
        }
      }
    }
  }
}
