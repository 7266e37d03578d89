/** The pure part of a turn: the step the player's input asks for, which way a sprite
    faces after a step, and the step an enemy chooses when it chases the player. */
module Moves {
  import opened Options
  import opened Grid

  /** A step (xDir, yDir) handed to `AttemptMove`. */
  datatype Step = Step(x: int, y: int)

  /** The step `Player.Update` attempts for the (already truncated) axis readings
      `horizontal` and `vertical`: a horizontal reading wins over a vertical one, and no
      step is attempted when both are 0. */
  function Normalise(horizontal: int, vertical: int): (r: Option<Step>)
  {
    var v := if horizontal != 0 then 0 else vertical;
    if horizontal != 0 || v != 0 then Some(Step(horizontal, v)) else None
  }

  /** Exactly one axis moves in an attempted step: the horizontal reading when it is not
      0, the vertical one otherwise; without either reading there is no step. */
  lemma NormaliseOneAxis(horizontal: int, vertical: int)
    ensures Normalise(horizontal, vertical).None? <==> horizontal == 0 && vertical == 0
    ensures Normalise(horizontal, vertical).Some? ==>
      var s := Normalise(horizontal, vertical).value;
      (s.x == 0) != (s.y == 0) &&
      (horizontal != 0 ==> s == Step(horizontal, 0)) &&
      (horizontal == 0 ==> s == Step(0, vertical))
  {
  }

  /** The sprite's `flipX` after a step with horizontal component `dir`: the code compares
      the int with the floats 0.01 and -0.01. */
  function Facing(flipX: bool, dir: int): bool {
    if (dir as real) > 0.01 then false
    else if (dir as real) < -0.01 then true
    else flipX
  }

  /** A sprite faces right (no flip) after a step to the right, left after a step to the
      left, and keeps its facing after a vertical step. */
  lemma FacingSign(flipX: bool, dir: int)
    ensures Facing(flipX, dir) == if dir > 0 then false else if dir < 0 then true else flipX
  {
    assert (dir as real) > 0.01 <==> dir >= 1;
    assert (dir as real) < -0.01 <==> dir <= -1;
  }

  function Abs(a: int): nat {
    if a < 0 then -a else a
  }

  /** +1 when the target coordinate is greater, -1 otherwise (also when they are equal). */
  function Toward(own: int, target: int): int {
    if target > own then 1 else -1
  }

  /** The step `Enemy.MoveEnemy` chooses at `own` with the player at `target` and the
      draw `rng`: toward the player along the axis of the larger distance (y on a tie);
      above 0.75 along the other axis instead, still toward the player; below 0.1 the
      opposite way. */
  function ChaseStep(own: Cell, target: Cell, rng: real): (d: Step)
  {
    var first := if Abs(target.x - own.x) > Abs(target.y - own.y)
                 then Step(Toward(own.x, target.x), 0) else Step(0, Toward(own.y, target.y));
    var turned := if rng > 0.75 then
                    (if first.x == 0 then Step(Toward(own.x, target.x), 0) else Step(0, Toward(own.y, target.y)))
                  else first;
    if rng < 0.1 then Step(-turned.x, -turned.y) else turned
  }

  /** The cell one step away. */
  function Moved(c: Cell, d: Step): Cell {
    Cell(c.x + d.x, c.y + d.y)
  }

  function Distance(a: Cell, b: Cell): nat {
    Abs(a.x - b.x) + Abs(a.y - b.y)
  }

  /** Every chase step moves along exactly one axis, by exactly one cell. */
  lemma ChaseUnitStep(own: Cell, target: Cell, rng: real)
    ensures var d := ChaseStep(own, target, rng);
      (d.x == 0 && (d.y == 1 || d.y == -1)) || (d.y == 0 && (d.x == 1 || d.x == -1))
  {
  }

  /** Without a deviation (0.1 <= rng <= 0.75) the enemy steps toward the player along x
      exactly when the x distance is the larger one. */
  lemma ChaseDirect(own: Cell, target: Cell, rng: real)
    requires 0.1 <= rng <= 0.75
    ensures Abs(target.x - own.x) > Abs(target.y - own.y) ==>
      ChaseStep(own, target, rng) == Step(Toward(own.x, target.x), 0)
    ensures Abs(target.x - own.x) <= Abs(target.y - own.y) ==>
      ChaseStep(own, target, rng) == Step(0, Toward(own.y, target.y))
  {
  }

  /** Above 0.75 the enemy takes the other axis than the direct step would, still with the
      sign toward the player. */
  lemma ChaseWrongAxis(own: Cell, target: Cell, rng: real)
    requires rng > 0.75
    ensures var direct, d := ChaseStep(own, target, 0.5), ChaseStep(own, target, rng);
      (direct.x == 0 <==> d.x != 0) &&
      (d.x != 0 ==> d.x == Toward(own.x, target.x)) &&
      (d.y != 0 ==> d.y == Toward(own.y, target.y))
  {
  }

  /** Below 0.1 the enemy takes exactly the opposite of its direct step. */
  lemma ChaseWrongDirection(own: Cell, target: Cell, rng: real)
    requires rng < 0.1
    ensures var direct, d := ChaseStep(own, target, 0.5), ChaseStep(own, target, rng);
      d == Step(-direct.x, -direct.y)
  {
  }

  /** A direct step from a cell other than the player's brings the enemy one cell closer
      (in steps along the grid); a step the wrong way takes it one cell further. On the
      player's own cell the direct step goes down (-1 in y). */
  lemma ChaseDistance(own: Cell, target: Cell, rng: real)
    ensures own != target && 0.1 <= rng <= 0.75 ==>
      Distance(Moved(own, ChaseStep(own, target, rng)), target) == Distance(own, target) - 1
    ensures own != target && rng < 0.1 ==>
      Distance(Moved(own, ChaseStep(own, target, rng)), target) == Distance(own, target) + 1
    ensures own == target && 0.1 <= rng <= 0.75 ==> ChaseStep(own, target, rng) == Step(0, -1)
  {
    var dx, dy := target.x - own.x, target.y - own.y;
    if own != target {
      if Abs(dx) > Abs(dy) {
        assert dx != 0;
      } else {
        assert dy != 0;
      }
    }
  }
}
