/** The table grid on which a batch of new crystals is laid out: relative positions that
    advance along a row by a fixed distance and wrap to the next row at the right margin. */
module TableGrid {

  /** The grid's start point (also the left and, mirrored, the right margin) and spacing. */
  datatype Grid = Grid(startX: real, startY: real, distance: real)

  datatype Position = Position(x: real, y: real)

  /** Past the right margin (1 - startX) the position returns to startX, one row lower. */
  function Wrap(g: Grid, p: Position): (r: Position)
    ensures r.x <= 1.0 - g.startX || r.x == g.startX
    ensures p.x <= 1.0 - g.startX ==> r == p
    ensures r.y == p.y || r.y == p.y + g.distance
  {
    if p.x > 1.0 - g.startX then Position(g.startX, p.y + g.distance) else p
  }

  /** The position of the i-th crystal of a batch: the first starts at the start point,
      each next one a grid distance to the right of the previous, wrapped. */
  function GridPosition(g: Grid, i: nat): (p: Position)
    ensures p.x <= 1.0 - g.startX || p.x == g.startX
    decreases i
  {
    if i == 0 then Wrap(g, Position(g.startX, g.startY))
    else
      var p := GridPosition(g, i - 1);
      Wrap(g, Position(p.x + g.distance, p.y))
  }

  /** Reading order on the table: an earlier row, or the same row further left. */
  predicate Before(p: Position, q: Position) {
    p.y < q.y || (p.y == q.y && p.x < q.x)
  }

  /** Every position lies right of the left margin, and within the right margin unless the
      row is only its start point. */
  lemma {:induction false} GridWithinMargins(g: Grid, i: nat)
    requires g.distance > 0.0
    ensures g.startX <= GridPosition(g, i).x
    ensures GridPosition(g, i).x <= 1.0 - g.startX || GridPosition(g, i).x == g.startX
    ensures GridPosition(g, i).y >= g.startY
  {
    if i > 0 {
      GridWithinMargins(g, i - 1);
    }
  }

  /** Each crystal lies strictly after the previous one: same row further right, or the
      next row (one grid distance lower) at the left margin. This is one unfolding of
      `GridPosition`, kept as its own lemma because `GridOrdered` chains it step by step. */
  lemma GridStep(g: Grid, i: nat)
    requires g.distance > 0.0
    ensures Before(GridPosition(g, i), GridPosition(g, i + 1))
    ensures var p, q := GridPosition(g, i), GridPosition(g, i + 1);
      (q.y == p.y && q.x == p.x + g.distance) || (q.y == p.y + g.distance && q.x == g.startX)
  {
  }

  /** With a positive spacing, positions strictly increase in reading order, so no two
      crystals of a batch share a cell. */
  lemma {:induction false} GridOrdered(g: Grid, i: nat, j: nat)
    requires g.distance > 0.0
    requires i < j
    ensures Before(GridPosition(g, i), GridPosition(g, j))
    decreases j - i
  {
    GridStep(g, i);
    if i + 1 < j {
      GridOrdered(g, i + 1, j);
    }
  }

  lemma GridDistinct(g: Grid, i: nat, j: nat)
    requires g.distance > 0.0
    requires i != j
    ensures GridPosition(g, i) != GridPosition(g, j)
  {
    if i < j {
      GridOrdered(g, i, j);
    } else {
      GridOrdered(g, j, i);
    }
  }
}
