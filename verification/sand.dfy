/**
 * One step of the falling-sand automaton of main.py (`update(grid)`).
 *
 * Every grain of the row-major snapshot tries, in this order, the cell below,
 * the cell below-right and the cell below-left; all three coordinates are
 * clipped into the board, so on the bottom row "below" is the grain itself
 * and the two diagonal targets are its same-row neighbours. The free tests
 * read the board as it is at that moment, after the moves of the grains
 * processed before.
 */
module Sand {
  import opened Results
  import opened SandGrid

  /** `np.clip(v, lo, hi)` on one integer. */
  function Clip(v: int, lo: int, hi: int): (r: int)
    requires lo <= hi
    ensures lo <= r <= hi
    ensures lo <= v <= hi ==> r == v
    ensures v < lo ==> r == lo
    ensures hi < v ==> r == hi
  {
    if v < lo then lo else if hi < v then hi else v
  }

  /** The three targets of the grain at `p`, in the order they are tried: under, under-right, under-left. */
  function Targets(h: int, w: int, p: Cell): (t: seq<Cell>)
    requires InGrid(h, w, p)
    ensures |t| == 3
    ensures forall i :: 0 <= i < 3 ==> InGrid(h, w, t[i])
    ensures forall i :: 0 <= i < 3 ==> t[i].row == if p.row < h - 1 then p.row + 1 else p.row
    ensures t[0].col == p.col
    ensures t[1].col == if p.col < w - 1 then p.col + 1 else p.col
    ensures t[2].col == if 0 < p.col then p.col - 1 else p.col
  {
    var row := Clip(p.row + 1, 0, h - 1);
    [Cell(row, Clip(p.col, 0, w - 1)),
     Cell(row, Clip(p.col + 1, 0, w - 1)),
     Cell(row, Clip(p.col - 1, 0, w - 1))]
  }

  /** `1 - grid[t]` is truthy: the cell does not hold exactly 1. */
  predicate Free(g: Grid, t: Cell)
    requires Inside(g, t)
  {
    At(g, t) != 1
  }

  /** The position of the first free cell of `ts`, if any. */
  function FirstFree(g: Grid, ts: seq<Cell>): (k: Option<nat>)
    requires forall i :: 0 <= i < |ts| ==> Inside(g, ts[i])
    ensures k.None? ==> forall i :: 0 <= i < |ts| ==> !Free(g, ts[i])
    ensures k.Some? ==> k.value < |ts| && Free(g, ts[k.value])
    ensures k.Some? ==> forall i :: 0 <= i < k.value ==> !Free(g, ts[i])
  {
    if |ts| == 0 then None
    else if Free(g, ts[0]) then Some(0)
    else match FirstFree(g, ts[1..])
      case None => None
      case Some(k) => Some(k + 1)
  }

  /** The grain at `p` has somewhere to go. */
  predicate Moves(g: Grid, h: int, w: int, p: Cell)
    requires Shaped(g, h, w) && InGrid(h, w, p)
  {
    var t := Targets(h, w, p);
    Free(g, t[0]) || Free(g, t[1]) || Free(g, t[2])
  }

  /**
   * The cell a grain moves down one step: one row down (or, on the bottom row,
   * the same row), at most one column sideways; a grain away from the bottom
   * row that stays in its row has not moved at all.
   */
  predicate Downhill(h: int, p: Cell, q: Cell)
  {
    && p.row <= q.row <= p.row + 1
    && p.col - 1 <= q.col <= p.col + 1
    && (q.row == p.row ==> p.row == h - 1 || q == p)
  }

  /** Where the grain at `p` ends up in this iteration. */
  function Landing(g: Grid, h: int, w: int, p: Cell): (q: Cell)
    requires Shaped(g, h, w) && InGrid(h, w, p)
    ensures InGrid(h, w, q)
    ensures Downhill(h, p, q)
    ensures var t := Targets(h, w, p);
      && (Free(g, t[0]) ==> q == t[0])
      && (!Free(g, t[0]) && Free(g, t[1]) ==> q == t[1])
      && (!Free(g, t[0]) && !Free(g, t[1]) && Free(g, t[2]) ==> q == t[2])
    ensures Moves(g, h, w, p) ==> Free(g, q)
    ensures !Moves(g, h, w, p) ==> q == p
  {
    var t := Targets(h, w, p);
    match FirstFree(g, t)
    case None => p
    case Some(k) => t[k]
  }

  /** One iteration of the loop of `update`: the grain at `p` moves to its landing cell, if any is free. */
  function MoveGrain(g: Grid, h: int, w: int, p: Cell): (g': Grid)
    requires Shaped(g, h, w) && InGrid(h, w, p)
    ensures Shaped(g', h, w)
    ensures !Moves(g, h, w, p) ==> g' == g
    ensures Moves(g, h, w, p) ==> var q := Landing(g, h, w, p);
      At(g', q) == 1 && (q != p ==> At(g', p) == 0)
    ensures forall c {:trigger At(g', c)} :: InGrid(h, w, c) && c != p && c != Landing(g, h, w, p) ==> At(g', c) == At(g, c)
  {
    if Moves(g, h, w, p) then SetCell(SetCell(g, p, 0), Landing(g, h, w, p), 1) else g
  }

  /** A move only ever writes 0 and 1, so a 0/1 board stays a 0/1 board. */
  lemma MoveGrainBinary(g: Grid, h: int, w: int, p: Cell)
    requires Shaped(g, h, w) && InGrid(h, w, p)
    requires Binary(g)
    ensures Binary(MoveGrain(g, h, w, p))
  {
    var g' := MoveGrain(g, h, w, p);
    forall r, c | 0 <= r < |g'| && 0 <= c < |g'[r]|
      ensures g'[r][c] == 0 || g'[r][c] == 1
    {
      assert At(g', Cell(r, c)) == g'[r][c];
    }
  }

  /** On a 0/1 board, moving a grain that is really there neither creates nor destroys grains. */
  lemma MoveGrainConserves(g: Grid, h: int, w: int, p: Cell)
    requires Shaped(g, h, w) && InGrid(h, w, p)
    requires Binary(g) && At(g, p) == 1
    ensures Count(MoveGrain(g, h, w, p)) == Count(g)
  {
    if Moves(g, h, w, p) {
      var q := Landing(g, h, w, p);
      assert At(g, q) == 0 && q != p;
      var g1 := SetCell(g, p, 0);
      CountSet(g, p, 0);
      CountSet(g1, q, 1);
    }
  }

  /** Every cell of `cells` lies on the h-by-w board. */
  predicate AllInGrid(h: int, w: int, cells: seq<Cell>)
  {
    forall k :: 0 <= k < |cells| ==> InGrid(h, w, cells[k])
  }

  /**
   * The board once grains `i..` of the snapshot `occupied` have each had
   * their move, in snapshot order, every move reading the board the moves
   * before it left.
   */
  function Settle(g: Grid, h: int, w: int, occupied: seq<Cell>, i: nat): (g': Grid)
    requires Shaped(g, h, w) && AllInGrid(h, w, occupied) && i <= |occupied|
    ensures Shaped(g', h, w)
    decreases |occupied| - i
  {
    if i == |occupied| then g else Settle(MoveGrain(g, h, w, occupied[i]), h, w, occupied, i + 1)
  }

  /**
   * Where grains `i..` of the snapshot land, in snapshot order: each grain's
   * landing is chosen on the board the moves of the grains before it left.
   */
  function LandingsFrom(g: Grid, h: int, w: int, occupied: seq<Cell>, i: nat): (ls: seq<Cell>)
    requires Shaped(g, h, w) && AllInGrid(h, w, occupied) && i <= |occupied|
    ensures |ls| == |occupied| - i
    decreases |occupied| - i
  {
    if i == |occupied| then []
    else [Landing(g, h, w, occupied[i])] + LandingsFrom(MoveGrain(g, h, w, occupied[i]), h, w, occupied, i + 1)
  }

  /**
   * Proof step: appending to or after nothing leaves a list of landings as it
   * was. Stated on its own because the solver does not find this identity
   * quickly next to the board contracts of `Update` and the run lemmas.
   */
  lemma EmptyEnds(ls: seq<Cell>)
    ensures [] + ls == ls && ls + [] == ls
  {
  }

  /**
   * Proof step for `Update`, `RunDownhill` and `RunSettled`: the definitions
   * of `Settle` and `LandingsFrom` unfolded once at grain `i`, with the
   * landings regrouped.
   */
  lemma SettleStep(g: Grid, h: int, w: int, occupied: seq<Cell>, i: nat, landings: seq<Cell>)
    requires Shaped(g, h, w) && AllInGrid(h, w, occupied) && i < |occupied|
    ensures var g' := MoveGrain(g, h, w, occupied[i]);
      && Settle(g, h, w, occupied, i) == Settle(g', h, w, occupied, i + 1)
      && landings + LandingsFrom(g, h, w, occupied, i)
         == (landings + [Landing(g, h, w, occupied[i])]) + LandingsFrom(g', h, w, occupied, i + 1)
  {
    var g' := MoveGrain(g, h, w, occupied[i]);
    var q := Landing(g, h, w, occupied[i]);
    var rest := LandingsFrom(g', h, w, occupied, i + 1);
    assert LandingsFrom(g, h, w, occupied, i) == [q] + rest;
    assert landings + ([q] + rest) == (landings + [q]) + rest;
  }

  /**
   * What a run of the moves keeps true on a 0/1 board after `idx` grains of
   * the snapshot `occupied` have been processed: the board is still 0/1, every
   * grain not yet processed is still in its cell, every processed grain sits on
   * its landing cell, and no two grains share a cell.
   */
  predicate Settled(next: Grid, occupied: seq<Cell>, landings: seq<Cell>, idx: int)
    requires 0 <= idx <= |occupied| && |landings| == idx
  {
    && Binary(next)
    && (forall k :: idx <= k < |occupied| ==> Inside(next, occupied[k]) && At(next, occupied[k]) == 1)
    && (forall j :: 0 <= j < idx ==> Inside(next, landings[j]) && At(next, landings[j]) == 1)
    && (forall j, k :: 0 <= j < idx <= k < |occupied| ==> landings[j] != occupied[k])
    && (forall j, k :: 0 <= j < k < idx ==> landings[j] != landings[k])
  }

  /** Recording one more landing below its grain keeps every landing downhill of its grain. */
  lemma LandingsExtend(h: int, w: int, occupied: seq<Cell>, landings: seq<Cell>, q: Cell)
    requires |landings| < |occupied|
    requires forall k :: 0 <= k < |landings| ==> InGrid(h, w, landings[k]) && Downhill(h, occupied[k], landings[k])
    requires InGrid(h, w, q) && Downhill(h, occupied[|landings|], q)
    ensures forall k :: 0 <= k < |landings| + 1 ==>
      InGrid(h, w, (landings + [q])[k]) && Downhill(h, occupied[k], (landings + [q])[k])
  {
  }

  /** Before the loop, a binary grid is settled with no grain processed. */
  lemma SettledAtStart(grid: Grid)
    requires Rectangular(grid) && Binary(grid)
    ensures Settled(grid, Occupied(grid), [], 0)
  {
    var occupied := Occupied(grid);
    forall k | 0 <= k < |occupied| ensures Inside(grid, occupied[k]) && At(grid, occupied[k]) == 1 {
      var p := occupied[k];
      assert InGrid(|grid|, Width(grid), p);
      assert grid[p.row][p.col] == 0 || grid[p.row][p.col] == 1;
    }
  }

  /** One iteration of the loop keeps `Settled` and the grain count. */
  lemma SettledStep(next: Grid, h: int, w: int, occupied: seq<Cell>, landings: seq<Cell>, idx: int)
    requires Shaped(next, h, w)
    requires 0 <= idx < |occupied| && |landings| == idx
    requires forall k :: 0 <= k < |occupied| ==> InGrid(h, w, occupied[k])
    requires forall i, j :: 0 <= i < j < |occupied| ==> Before(occupied[i], occupied[j])
    requires Settled(next, occupied, landings, idx)
    ensures Settled(MoveGrain(next, h, w, occupied[idx]), occupied,
                    landings + [Landing(next, h, w, occupied[idx])], idx + 1)
    ensures Count(MoveGrain(next, h, w, occupied[idx])) == Count(next)
  {
    var p := occupied[idx];
    var q := Landing(next, h, w, p);
    var next' := MoveGrain(next, h, w, p);
    var landings' := landings + [q];
    MoveGrainBinary(next, h, w, p);
    MoveGrainConserves(next, h, w, p);
    assert q == p || At(next, q) == 0;
    forall k | idx < k < |occupied|
      ensures occupied[k] != p && occupied[k] != q && At(next', occupied[k]) == 1
    {
      assert Before(p, occupied[k]);
    }
    forall j | 0 <= j < idx + 1
      ensures Inside(next', landings'[j]) && At(next', landings'[j]) == 1
    {
      if j < idx {
        assert landings'[j] != p && landings'[j] != q;
      }
    }
  }

  /** Every grain of a run lands on the board, downhill of where it was. */
  lemma {:induction false} RunDownhill(g: Grid, h: int, w: int, occupied: seq<Cell>, landings: seq<Cell>, i: nat)
    requires Shaped(g, h, w) && AllInGrid(h, w, occupied) && i <= |occupied| && |landings| == i
    requires forall k :: 0 <= k < i ==> InGrid(h, w, landings[k]) && Downhill(h, occupied[k], landings[k])
    ensures var ls := landings + LandingsFrom(g, h, w, occupied, i);
      forall k :: 0 <= k < |ls| ==> InGrid(h, w, ls[k]) && Downhill(h, occupied[k], ls[k])
    decreases |occupied| - i
  {
    if i == |occupied| {
      EmptyEnds(landings);
    } else {
      var q := Landing(g, h, w, occupied[i]);
      LandingsExtend(h, w, occupied, landings, q);
      RunDownhill(MoveGrain(g, h, w, occupied[i]), h, w, occupied, landings + [q], i + 1);
      SettleStep(g, h, w, occupied, i, landings);
    }
  }

  /**
   * On a 0/1 board, a run of the remaining grains keeps the loop invariant
   * all the way to the end of the snapshot, and keeps the grain count.
   */
  lemma {:induction false} RunSettled(g: Grid, h: int, w: int, occupied: seq<Cell>, landings: seq<Cell>, i: nat)
    requires Shaped(g, h, w) && AllInGrid(h, w, occupied) && i <= |occupied| && |landings| == i
    requires forall a, b :: 0 <= a < b < |occupied| ==> Before(occupied[a], occupied[b])
    requires Settled(g, occupied, landings, i)
    ensures Settled(Settle(g, h, w, occupied, i), occupied, landings + LandingsFrom(g, h, w, occupied, i), |occupied|)
    ensures Count(Settle(g, h, w, occupied, i)) == Count(g)
    decreases |occupied| - i
  {
    if i == |occupied| {
      EmptyEnds(landings);
    } else {
      var q := Landing(g, h, w, occupied[i]);
      SettledStep(g, h, w, occupied, landings, i);
      RunSettled(MoveGrain(g, h, w, occupied[i]), h, w, occupied, landings + [q], i + 1);
      SettleStep(g, h, w, occupied, i, landings);
    }
  }

  /**
   * What a whole run over the snapshot guarantees: every grain lands on the
   * board, downhill of its cell, and on a 0/1 board the result is 0/1, has as
   * many grains, and every grain sits on its own landing cell.
   */
  lemma RunOutcome(grid: Grid)
    requires Rectangular(grid)
    ensures var h, w, occupied := |grid|, Width(grid), Occupied(grid);
      && AllInGrid(h, w, occupied)
      && var next, landings := Settle(grid, h, w, occupied, 0), LandingsFrom(grid, h, w, occupied, 0);
      && (forall k :: 0 <= k < |landings| ==> InGrid(h, w, landings[k]) && Downhill(h, occupied[k], landings[k]))
      && (Binary(grid) ==> Binary(next))
      && (Binary(grid) ==> Count(next) == Count(grid) && |Occupied(next)| == |occupied|)
      && (Binary(grid) ==> forall k :: 0 <= k < |landings| ==> Inside(next, landings[k]) && At(next, landings[k]) == 1)
      && (Binary(grid) ==> forall j, k :: 0 <= j < k < |landings| ==> landings[j] != landings[k])
  {
    var h, w, occupied := |grid|, Width(grid), Occupied(grid);
    assert AllInGrid(h, w, occupied);
    EmptyEnds(LandingsFrom(grid, h, w, occupied, 0));
    RunDownhill(grid, h, w, occupied, [], 0);
    if Binary(grid) {
      SettledAtStart(grid);
      RunSettled(grid, h, w, occupied, [], 0);
      OccupiedCount(grid);
      OccupiedCount(Settle(grid, h, w, occupied, 0));
    }
  }

  /**
   * main.py's `update(grid)`: the board after every grain of the snapshot has
   * been given its one chance to move. `landings[k]` is where the k-th grain
   * of the snapshot ended up.
   */
  method Update(grid: Grid) returns (next: Grid, landings: seq<Cell>)
    requires Rectangular(grid)
    ensures Shaped(next, |grid|, Width(grid))
    ensures |landings| == |Occupied(grid)|
    ensures forall k :: 0 <= k < |landings| ==>
      InGrid(|grid|, Width(grid), landings[k]) && Downhill(|grid|, Occupied(grid)[k], landings[k])
    ensures next == Settle(grid, |grid|, Width(grid), Occupied(grid), 0)
    ensures landings == LandingsFrom(grid, |grid|, Width(grid), Occupied(grid), 0)
    ensures Binary(grid) ==> Binary(next)
    ensures Binary(grid) ==> Count(next) == Count(grid) && |Occupied(next)| == |Occupied(grid)|
    ensures Binary(grid) ==> forall k :: 0 <= k < |landings| ==> Inside(next, landings[k]) && At(next, landings[k]) == 1
    ensures Binary(grid) ==> forall j, k :: 0 <= j < k < |landings| ==> landings[j] != landings[k]
  {
    var h, w := |grid|, Width(grid);
    var occupied := Occupied(grid);
    assert AllInGrid(h, w, occupied);
    next, landings := grid, [];
    EmptyEnds(LandingsFrom(grid, h, w, occupied, 0));
    var idx := 0;
    while idx < |occupied|
      invariant 0 <= idx <= |occupied| && |landings| == idx
      invariant Shaped(next, h, w)
      invariant Settle(next, h, w, occupied, idx) == Settle(grid, h, w, occupied, 0)
      invariant landings + LandingsFrom(next, h, w, occupied, idx) == LandingsFrom(grid, h, w, occupied, 0)
    {
      var p := occupied[idx];
      var q := Landing(next, h, w, p);
      SettleStep(next, h, w, occupied, idx, landings);
      next := MoveGrain(next, h, w, p);
      landings := landings + [q];
      idx := idx + 1;
    }
    EmptyEnds(landings);
    RunOutcome(grid);
  }

  /** On a one-row board a grain cannot fall, but clipping turns its diagonal targets into sideways moves. */
  lemma FloorGrainSlides()
    ensures MoveGrain([[1, 0]], 1, 2, Cell(0, 0)) == [[0, 1]]
    ensures MoveGrain([[0, 1]], 1, 2, Cell(0, 1)) == [[1, 0]]
  {
    assert Targets(1, 2, Cell(0, 0)) == [Cell(0, 0), Cell(0, 1), Cell(0, 0)];
    assert Landing([[1, 0]], 1, 2, Cell(0, 0)) == Cell(0, 1);
    assert [1, 0][0 := 0] == [0, 0];
    assert [0, 0][1 := 1] == [0, 1];
    assert Targets(1, 2, Cell(0, 1)) == [Cell(0, 1), Cell(0, 1), Cell(0, 0)];
    assert Landing([[0, 1]], 1, 2, Cell(0, 1)) == Cell(0, 0);
    assert [0, 1][1 := 0] == [0, 0];
    assert [0, 0][0 := 1] == [1, 0];
  }

  /**
   * The free tests see earlier moves: on [[1, 1], [1, 0]] the first grain takes
   * the free cell below-right, so the second grain finds it taken and stays.
   */
  lemma LaterGrainSeesEarlierMove()
    ensures var g1 := MoveGrain([[1, 1], [1, 0]], 2, 2, Cell(0, 0));
      g1 == [[0, 1], [1, 1]] && MoveGrain(g1, 2, 2, Cell(0, 1)) == g1
  {
    assert Targets(2, 2, Cell(0, 0)) == [Cell(1, 0), Cell(1, 1), Cell(1, 0)];
    assert Landing([[1, 1], [1, 0]], 2, 2, Cell(0, 0)) == Cell(1, 1);
    assert [1, 1][0 := 0] == [0, 1];
    assert [1, 0][1 := 1] == [1, 1];
    assert Targets(2, 2, Cell(0, 1)) == [Cell(1, 1), Cell(1, 1), Cell(1, 0)];
    assert !Moves([[0, 1], [1, 1]], 2, 2, Cell(0, 1));
  }
}
