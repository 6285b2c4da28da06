/** The navigation grid of an office floor: which cells the widest body fits in, and which cells touch. */
module Grid {
  import opened Wrappers
  import opened Plane
  import opened Floor
  import opened Bfs

  const NAV_CELL: real := 0.5
  const NAV_COLS: nat := 32
  const NAV_ROWS: nat := 44
  const CELLS: nat := 1408
  const RINGS: nat := 4

  /** Right, left, down, up: the fixed order every tie is broken by. */
  const DIRECTIONS: seq<(int, int)> := [(1, 0), (-1, 0), (0, 1), (0, -1)]

  predicate OnGrid(col: int, row: int) { 0 <= col < NAV_COLS && 0 <= row < NAV_ROWS }

  function CellAt(col: int, row: int): (n: nat)
    requires OnGrid(col, row)
    ensures n < CELLS && ColOf(n) == col && RowOf(n) == row
  {
    row * NAV_COLS + col
  }

  function ColOf(n: nat): int { n % NAV_COLS }

  function RowOf(n: nat): int { n / NAV_COLS }

  lemma CellOfParts(n: nat)
    requires n < CELLS
    ensures OnGrid(ColOf(n), RowOf(n)) && CellAt(ColOf(n), RowOf(n)) == n
  {}

  function NavCentre(col: int, row: int): Vec2 {
    Vec2((col as real + 0.5) * NAV_CELL, (row as real + 0.5) * NAV_CELL)
  }

  /** A conversion to an integer that drops the fraction, towards zero. */
  function Truncate(v: real): int {
    if v >= 0.0 then v.Floor else -((-v).Floor)
  }

  function ClampInt(v: int, lo: int, hi: int): int {
    if v < lo then lo else if v > hi then hi else v
  }

  function NavCellOf(p: Vec2): (c: (int, int))
    ensures OnGrid(c.0, c.1)
  {
    (ClampInt(Truncate(p.x / NAV_CELL), 0, NAV_COLS - 1), ClampInt(Truncate(p.y / NAV_CELL), 0, NAV_ROWS - 1))
  }

  /** The widest body fits with its centre in the middle of the cell. */
  predicate CellFree(rects: seq<Rect>, col: int, row: int) {
    var at := NavCentre(col, row);
    OnFloor(at, BOSS_RADIUS) && forall i :: 0 <= i < |rects| ==> !InsideRect(rects[i], at, BOSS_RADIUS)
  }

  function NavGrid(rects: seq<Rect>): (free: seq<bool>)
    ensures |free| == CELLS
  {
    seq(CELLS, n requires 0 <= n < CELLS => CellFree(rects, ColOf(n), RowOf(n)))
  }

  method BuildNavGrid(rects: seq<Rect>) returns (nav: seq<bool>)
    ensures nav == NavGrid(rects)
  {
    var free := new bool[CELLS];
    for r := 0 to NAV_ROWS
      invariant forall n :: 0 <= n < r * NAV_COLS ==> free[n] == CellFree(rects, ColOf(n), RowOf(n))
    {
      for c := 0 to NAV_COLS
        invariant forall n :: 0 <= n < r * NAV_COLS + c ==> free[n] == CellFree(rects, ColOf(n), RowOf(n))
      {
        var at := NavCentre(c, r);
        var ok := OnFloor(at, BOSS_RADIUS);
        var i := 0;
        while i < |rects|
          invariant 0 <= i <= |rects|
          invariant ok <==> OnFloor(at, BOSS_RADIUS) && forall j :: 0 <= j < i ==>
                    !InsideRect(rects[j], at, BOSS_RADIUS)
        {
          if InsideRect(rects[i], at, BOSS_RADIUS) {
            ok := false;
            break;
          }
          i := i + 1;
        }
        var n := CellAt(c, r);
        free[n] := ok;
      }
    }
    nav := free[..];
  }

  // ---- Neighbours ----

  /** The cell one step away in direction d, if the grid has one. */
  function Neighbour(n: nat, d: nat): (r: Option<nat>)
    requires n < CELLS && d < 4
    ensures r.Some? ==> r.value < CELLS
  {
    var nc, nr := ColOf(n) + DIRECTIONS[d].0, RowOf(n) + DIRECTIONS[d].1;
    if OnGrid(nc, nr) then Some(CellAt(nc, nr)) else None
  }

  predicate Touching(u: nat, v: nat) {
    u < CELLS && v < CELLS &&
    ((RowOf(u) == RowOf(v) && (ColOf(v) == ColOf(u) + 1 || ColOf(v) == ColOf(u) - 1)) ||
     (ColOf(u) == ColOf(v) && (RowOf(v) == RowOf(u) + 1 || RowOf(v) == RowOf(u) - 1)))
  }

  /** Four-way steps between free cells. */
  predicate Edge(free: seq<bool>, u: nat, v: nat) {
    |free| == CELLS && Touching(u, v) && free[u] && free[v]
  }

  function Steps(free: seq<bool>): Graph {
    (u: nat, v: nat) => Edge(free, u, v)
  }

  lemma StepsSymmetric(free: seq<bool>)
    ensures Symmetric(Steps(free), CELLS)
  {}

  /** The free neighbours of a free cell are its steps in the four directions. */
  lemma NeighboursAreEdges(free: seq<bool>, n: nat, v: nat)
    requires |free| == CELLS && n < CELLS && free[n] && v < CELLS
    ensures Edge(free, n, v) <==> free[v] && exists d :: 0 <= d < 4 && Neighbour(n, d) == Some(v)
  {
    CellOfParts(n);
    CellOfParts(v);
    if Touching(n, v) {
      var d := if ColOf(v) == ColOf(n) + 1 then 0 else if ColOf(v) == ColOf(n) - 1 then 1
               else if RowOf(v) == RowOf(n) + 1 then 2 else 3;
      assert Neighbour(n, d) == Some(v);
    }
  }

  // ---- The nearest free cell, ring by ring ----

  function ScanRow(free: seq<bool>, col: int, row: int, k: int, dr: int, dc: int): Option<nat>
    requires |free| == CELLS
    decreases k - dc
  {
    if dc > k then None
    else if (AbsI(dr) == k || AbsI(dc) == k) && OnGrid(col + dc, row + dr) && free[CellAt(col + dc, row + dr)]
    then Some(CellAt(col + dc, row + dr))
    else ScanRow(free, col, row, k, dr, dc + 1)
  }

  function ScanRing(free: seq<bool>, col: int, row: int, k: int, dr: int): Option<nat>
    requires |free| == CELLS
    decreases k - dr
  {
    if dr > k then None
    else
      var hit := ScanRow(free, col, row, k, dr, -k);
      if hit.Some? then hit else ScanRing(free, col, row, k, dr + 1)
  }

  function ScanRings(free: seq<bool>, col: int, row: int, k: int): Option<nat>
    requires |free| == CELLS
    decreases RINGS - k
  {
    if k > RINGS then None
    else
      var hit := ScanRing(free, col, row, k, -k);
      if hit.Some? then hit else ScanRings(free, col, row, k + 1)
  }

  function NearestFree(free: seq<bool>, col: int, row: int): Option<nat>
    requires |free| == CELLS
  {
    ScanRings(free, col, row, 1)
  }

  function AbsI(v: int): int { if v >= 0 then v else -v }

  method FindInRow(free: seq<bool>, col: int, row: int, k: int, dr: int) returns (r: Option<nat>)
    requires |free| == CELLS && k >= 0
    ensures r == ScanRow(free, col, row, k, dr, -k)
  {
    for dc := -k to k + 1
      invariant ScanRow(free, col, row, k, dr, -k) == ScanRow(free, col, row, k, dr, dc)
    {
      if AbsI(dr) != k && AbsI(dc) != k { continue; }
      if !OnGrid(col + dc, row + dr) { continue; }
      var n := CellAt(col + dc, row + dr);
      if free[n] { return Some(n); }
    }
    r := None;
  }

  method FindNearestFree(free: seq<bool>, col: int, row: int) returns (r: Option<nat>)
    requires |free| == CELLS
    ensures r == NearestFree(free, col, row)
  {
    for k := 1 to RINGS + 1
      invariant NearestFree(free, col, row) == ScanRings(free, col, row, k)
    {
      for dr := -k to k + 1
        invariant ScanRing(free, col, row, k, -k) == ScanRing(free, col, row, k, dr)
      {
        r := FindInRow(free, col, row, k, dr);
        if r.Some? { return; }
      }
    }
    r := None;
  }

  /** How many rings out a cell lies. */
  function Ring(n: nat, col: int, row: int): int {
    if AbsI(ColOf(n) - col) >= AbsI(RowOf(n) - row) then AbsI(ColOf(n) - col) else AbsI(RowOf(n) - row)
  }

  lemma {:induction false} ScanRowFinds(free: seq<bool>, col: int, row: int, k: int, dr: int, dc: int)
    requires |free| == CELLS && -k <= dc <= k + 1 && AbsI(dr) <= k
    ensures var r := ScanRow(free, col, row, k, dr, dc);
            && (r.Some? ==> r.value < CELLS && free[r.value] && Ring(r.value, col, row) == k)
            && (r.None? ==> forall n :: 0 <= n < CELLS && free[n] && RowOf(n) == row + dr && ColOf(n) >= col + dc ==>
                Ring(n, col, row) != k)
    decreases k - dc
  {
    if dc <= k {
      ScanRowFinds(free, col, row, k, dr, dc + 1);
      forall n | 0 <= n < CELLS && free[n] && RowOf(n) == row + dr && ColOf(n) == col + dc && Ring(n, col, row) == k
        ensures ScanRow(free, col, row, k, dr, dc) == Some(n)
      {
        CellOfParts(n);
      }
    }
  }

  lemma {:induction false} ScanRingFinds(free: seq<bool>, col: int, row: int, k: int, dr: int)
    requires |free| == CELLS && -k <= dr <= k + 1 && k >= 0
    ensures var r := ScanRing(free, col, row, k, dr);
            && (r.Some? ==> r.value < CELLS && free[r.value] && Ring(r.value, col, row) == k)
            && (r.None? ==> forall n :: 0 <= n < CELLS && free[n] && RowOf(n) >= row + dr ==> Ring(n, col, row) != k)
    decreases k - dr
  {
    if dr <= k {
      ScanRowFinds(free, col, row, k, dr, -k);
      ScanRingFinds(free, col, row, k, dr + 1);
    }
  }

  lemma {:induction false} ScanRingsFind(free: seq<bool>, col: int, row: int, k: int)
    requires |free| == CELLS && 1 <= k <= RINGS + 1
    ensures var r := ScanRings(free, col, row, k);
            && (r.Some? ==> r.value < CELLS && free[r.value] && k <= Ring(r.value, col, row) <= RINGS)
            && (r.Some? ==> forall n :: 0 <= n < CELLS && free[n] && k <= Ring(n, col, row) ==>
                Ring(r.value, col, row) <= Ring(n, col, row))
            && (r.None? ==> forall n :: 0 <= n < CELLS && free[n] && k <= Ring(n, col, row) ==>
                Ring(n, col, row) > RINGS)
    decreases RINGS - k
  {
    if k <= RINGS {
      ScanRingFinds(free, col, row, k, -k);
      ScanRingsFind(free, col, row, k + 1);
    }
  }

  /** The nudge is to a nearest free cell, no further than four rings, and it fails only when there is none. */
  lemma NearestFreeIsNearest(free: seq<bool>, col: int, row: int)
    requires |free| == CELLS && OnGrid(col, row) && !free[CellAt(col, row)]
    ensures var r := NearestFree(free, col, row);
            && (r.Some? ==> r.value < CELLS && free[r.value] && Ring(r.value, col, row) <= 4)
            && (r.Some? ==> forall n :: 0 <= n < CELLS && free[n] ==> Ring(r.value, col, row) <= Ring(n, col, row))
            && (r.None? ==> forall n :: 0 <= n < CELLS && free[n] ==> Ring(n, col, row) > 4)
  {
    hide ScanRings, ScanRing, ScanRow;
    ScanRingsFind(free, col, row, 1);
    forall n | 0 <= n < CELLS && free[n] ensures Ring(n, col, row) >= 1 {
      ElsewhereIsARing(n, col, row);
    }
  }

  lemma ElsewhereIsARing(n: nat, col: int, row: int)
    requires n < CELLS && OnGrid(col, row) && n != CellAt(col, row)
    ensures Ring(n, col, row) >= 1
  {
    CellOfParts(n);
  }

  /** The cell a point falls in, or its nearest free neighbour. */
  function StartCell(free: seq<bool>, at: Vec2): Option<nat>
    requires |free| == CELLS
  {
    var (c, r) := NavCellOf(at);
    if free[CellAt(c, r)] then Some(CellAt(c, r)) else NearestFree(free, c, r)
  }

  lemma StartCellIsFree(free: seq<bool>, at: Vec2)
    requires |free| == CELLS
    ensures var s := StartCell(free, at); s.Some? ==> s.value < CELLS && free[s.value]
  {
    var (c, r) := NavCellOf(at);
    ScanRingsFind(free, c, r, 1);
  }
}
