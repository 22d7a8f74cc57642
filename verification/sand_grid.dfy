/**
 * The falling-sand board of main.py: a rectangular 0/1 grid of ints, the
 * row-major list of occupied cells that `np.where(grid)` reports, and the
 * number of grains on the board.
 */
module SandGrid {

  /** A numpy 2-D int array, row by row. */
  type Grid = seq<seq<int>>

  /** A (row, column) coordinate, in the order `np.where` reports them. */
  datatype Cell = Cell(row: int, col: int)

  /** `np.shape(g) == (h, w)`. */
  predicate Shaped(g: Grid, h: int, w: int)
  {
    |g| == h && forall r :: 0 <= r < |g| ==> |g[r]| == w
  }

  /** Every numpy 2-D array is rectangular. */
  predicate Rectangular(g: Grid)
  {
    |g| == 0 || Shaped(g, |g|, |g[0]|)
  }

  /** The number of columns of a rectangular grid (`np.shape(g)[1]`). */
  function Width(g: Grid): nat
  {
    if |g| == 0 then 0 else |g[0]|
  }

  predicate InGrid(h: int, w: int, p: Cell)
  {
    0 <= p.row < h && 0 <= p.col < w
  }

  predicate Inside(g: Grid, p: Cell)
  {
    0 <= p.row < |g| && 0 <= p.col < |g[p.row]|
  }

  function At(g: Grid, p: Cell): int
    requires Inside(g, p)
  {
    g[p.row][p.col]
  }

  /** Writes `v` into cell `p`: `grid[p.row, p.col] = v`. */
  function SetCell(g: Grid, p: Cell, v: int): (g': Grid)
    requires Inside(g, p)
    ensures |g'| == |g| && forall r :: 0 <= r < |g| ==> |g'[r]| == |g[r]|
    ensures At(g', p) == v
    ensures forall q :: Inside(g, q) && q != p ==> At(g', q) == At(g, q)
  {
    g[p.row := g[p.row][p.col := v]]
  }

  /** Every cell holds 0 or 1, as in the board main.py creates with `randint(0, 2, ...)`. */
  predicate Binary(g: Grid)
  {
    forall r, c :: 0 <= r < |g| && 0 <= c < |g[r]| ==> g[r][c] == 0 || g[r][c] == 1
  }

  /** Row-major order on cells: the order in which `np.where` lists them. */
  predicate Before(p: Cell, q: Cell)
  {
    p.row < q.row || (p.row == q.row && p.col < q.col)
  }

  // ---------------------------------------------------------------------------
  //  The snapshot `np.where(grid)`
  // ---------------------------------------------------------------------------

  /** The non-zero cells of row `r` (whose contents are `row`) from column `c` on, left to right. */
  function RowOccupied(row: seq<int>, r: int, c: nat): (s: seq<Cell>)
    ensures forall i :: 0 <= i < |s| ==> s[i].row == r && c <= s[i].col < |row| && row[s[i].col] != 0
    ensures forall k :: c <= k < |row| && row[k] != 0 ==> Cell(r, k) in s
    ensures forall i, j :: 0 <= i < j < |s| ==> s[i].col < s[j].col
    decreases |row| - c
  {
    if c >= |row| then []
    else (if row[c] != 0 then [Cell(r, c)] else []) + RowOccupied(row, r, c + 1)
  }

  /** The non-zero cells of rows `r..` of `g`, in row-major order. */
  function OccupiedFrom(g: Grid, r: nat): (s: seq<Cell>)
    ensures forall i :: 0 <= i < |s| ==> r <= s[i].row && Inside(g, s[i]) && At(g, s[i]) != 0
    ensures forall p :: Inside(g, p) && r <= p.row && At(g, p) != 0 ==> p in s
    ensures forall i, j :: 0 <= i < j < |s| ==> Before(s[i], s[j])
    decreases |g| - r
  {
    if r >= |g| then []
    else
      var here := RowOccupied(g[r], r, 0);
      var rest := OccupiedFrom(g, r + 1);
      assert forall p :: Inside(g, p) && p.row == r && At(g, p) != 0 ==> p in here by {
        forall p | Inside(g, p) && p.row == r && At(g, p) != 0
          ensures p in here
        {
          assert p == Cell(r, p.col);
        }
      }
      here + rest
  }

  /**
   * `np.where(g)`: every non-zero cell exactly once, in row-major order. This
   * is the snapshot main.py's `update` takes before it moves any grain.
   */
  function Occupied(g: Grid): (s: seq<Cell>)
    ensures forall i :: 0 <= i < |s| ==> Inside(g, s[i]) && At(g, s[i]) != 0
    ensures forall p :: Inside(g, p) && At(g, p) != 0 ==> p in s
    ensures forall i, j :: 0 <= i < j < |s| ==> Before(s[i], s[j])
  {
    OccupiedFrom(g, 0)
  }

  // ---------------------------------------------------------------------------
  //  Grain count
  // ---------------------------------------------------------------------------

  function Indicator(v: int): nat
  {
    if v != 0 then 1 else 0
  }

  /** The number of non-zero entries of `row` from column `c` on. */
  function RowCount(row: seq<int>, c: nat): nat
    decreases |row| - c
  {
    if c >= |row| then 0 else Indicator(row[c]) + RowCount(row, c + 1)
  }

  /** The number of non-zero cells in rows `r..` of `g`. */
  function GridCount(g: Grid, r: nat): nat
    decreases |g| - r
  {
    if r >= |g| then 0 else RowCount(g[r], 0) + GridCount(g, r + 1)
  }

  /** The number of grains on the board. */
  function Count(g: Grid): nat
  {
    GridCount(g, 0)
  }

  /** Overwriting one entry of a row changes its count by the difference of the two indicators. */
  lemma {:induction false} RowCountSet(row: seq<int>, c: nat, k: nat, v: int)
    requires k < |row|
    ensures RowCount(row[k := v], c)
         == RowCount(row, c) + (if c <= k then Indicator(v) - Indicator(row[k]) else 0)
    decreases |row| - c
  {
    if c < |row| {
      RowCountSet(row, c + 1, k, v);
    }
  }

  lemma {:induction false} GridCountSet(g: Grid, r: nat, p: Cell, v: int)
    requires Inside(g, p)
    ensures GridCount(SetCell(g, p, v), r)
         == GridCount(g, r) + (if r <= p.row then Indicator(v) - Indicator(At(g, p)) else 0)
    decreases |g| - r
  {
    if r < |g| {
      GridCountSet(g, r + 1, p, v);
      if r == p.row {
        RowCountSet(g[r], 0, p.col, v);
      }
    }
  }

  /** Writing `v` into one cell changes the grain count by the difference of the two indicators. */
  lemma CountSet(g: Grid, p: Cell, v: int)
    requires Inside(g, p)
    ensures Count(SetCell(g, p, v)) == Count(g) + Indicator(v) - Indicator(At(g, p))
  {
    GridCountSet(g, 0, p, v);
  }

  lemma {:induction false} RowOccupiedCount(row: seq<int>, r: int, c: nat)
    ensures |RowOccupied(row, r, c)| == RowCount(row, c)
    decreases |row| - c
  {
    if c < |row| {
      RowOccupiedCount(row, r, c + 1);
    }
  }

  lemma {:induction false} OccupiedFromCount(g: Grid, r: nat)
    ensures |OccupiedFrom(g, r)| == GridCount(g, r)
    decreases |g| - r
  {
    if r < |g| {
      OccupiedFromCount(g, r + 1);
      RowOccupiedCount(g[r], r, 0);
    }
  }

  /** The snapshot lists exactly as many cells as there are grains. */
  lemma OccupiedCount(g: Grid)
    ensures |Occupied(g)| == Count(g)
  {
    OccupiedFromCount(g, 0);
  }
}
