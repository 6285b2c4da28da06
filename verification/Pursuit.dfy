/** The chase on a legal floor: when the antagonist is routed, and when he is not. */
module Pursuit {
  import opened Wrappers
  import opened Plane
  import opened Floor
  import opened Bfs
  import opened Sight
  import opened Grid
  import opened Navigate
  import opened Validate
  import opened OnePass
  import opened OneFloor

  /** Somewhere a player's body stands: on the floor and inside no furniture. */
  predicate Standing(rects: seq<Rect>, p: Vec2) {
    OnFloor(p, PLAYER_RADIUS) && Clear(rects, p, PLAYER_RADIUS)
  }

  lemma CellOfStanding(p: Vec2)
    requires OnFloor(p, PLAYER_RADIUS)
    ensures var (c, r) := NavCellOf(p);
            && c as real * NAV_CELL <= p.x < (c + 1) as real * NAV_CELL
            && r as real * NAV_CELL <= p.y < (r + 1) as real * NAV_CELL
  {
    assert p.x / NAV_CELL == p.x * 2.0 && p.y / NAV_CELL == p.y * 2.0;
  }

  /** A blocked cell with a player standing in it has a free cell beside it, because he is outside the rectangle. */
  lemma FreeCellBesideHim(rects: seq<Rect>, p: Vec2, i: nat) returns (c': int, r': int)
    requires Spaced(rects, MIN_GAP) && Standing(rects, p) && i < |rects|
    requires var (c, r) := NavCellOf(p); Blocks(rects[i], c, r)
    ensures var (c, r) := NavCellOf(p); -1 <= c' - c <= 1 && -1 <= r' - r <= 1
    ensures InBand(c', r') && CellFree(rects, c', r')
  {
    hide SepAxis, WallGap, CellFree, NavCellOf;
    var (c, r) := NavCellOf(p);
    CellOfStanding(p);
    var d := rects[i];
    assert !Overlaps(d, p, PLAYER_RADIUS);
    c', r' := c, r;
    if p.x <= d.x - PLAYER_RADIUS { c' := c - 1; }
    else if p.x >= d.x + d.w + PLAYER_RADIUS { c' := c + 1; }
    else if p.y <= d.y - PLAYER_RADIUS { r' := r - 1; }
    else { r' := r + 1; }
    FreeBeside(rects, i, c, r, c', r');
  }

  predicate NearWall(col: int, row: int) { col <= 1 || col >= 30 || row <= 1 || row >= 42 }

  lemma WallCellsFree(rects: seq<Rect>, col: int, row: int)
    requires Spaced(rects, MIN_GAP) && InBand(col, row) && NearWall(col, row)
    ensures CellFree(rects, col, row)
  {
    hide SepAxis, WallGap;
    BandIsTheFloor(rects, col, row);
    forall i | 0 <= i < |rects| ensures !Blocks(rects[i], col, row) {
      if Blocks(rects[i], col, row) { BlockedIsInland(rects[i], col, row); }
    }
  }

  /** The nudge is never more than one ring: wherever a player can stand, the flood starts in his cell or beside it. */
  lemma FloodStartsBesideHim(rects: seq<Rect>, p: Vec2)
    requires Spaced(rects, MIN_GAP) && Standing(rects, p)
    ensures var start := StartCell(NavGrid(rects), p);
            start.Some? && Ring(start.value, NavCellOf(p).0, NavCellOf(p).1) <= 1
  {
    hide SepAxis, WallGap, CellFree, NavCellOf, NearestFree, Standing;
    var free := NavGrid(rects);
    var (c, r) := NavCellOf(p);
    if !free[CellAt(c, r)] {
      var c', r' := ClampInt(c, 1, 30), ClampInt(r, 1, 42);
      BandIsTheFloor(rects, c, r);
      if InBand(c, r) {
        var i :| 0 <= i < |rects| && Blocks(rects[i], c, r);
        c', r' := FreeCellBesideHim(rects, p, i);
      } else {
        WallCellsFree(rects, c', r');
      }
      assert free[CellAt(c', r')] && Ring(CellAt(c', r'), c, r) <= 1;
      NearestFreeIsNearest(free, c, r);
    }
  }

  lemma NoWayOffTheGrid(free: seq<bool>, start: nat, here: nat)
    requires |free| == CELLS && start < CELLS && here < CELLS && start != here && !free[here]
    ensures !Reaches(Steps(free), CELLS, start, here)
  {
    hide Touching;
    if k: nat :| Within(Steps(free), CELLS, start, here, k) {
      NoStepIn(free, start, here, k);
    }
  }

  lemma {:induction false} NoStepIn(free: seq<bool>, start: nat, here: nat, k: nat)
    requires |free| == CELLS && start != here && here < CELLS && !free[here]
    ensures !Within(Steps(free), CELLS, start, here, k)
    decreases k
  {
    if k > 0 { NoStepIn(free, start, here, k - 1); }
  }

  /** On a legal floor he is routed exactly when the line is blocked, he and his prey are in different cells, and
      his own cell is free and is not already the one the flood starts from: nothing else can go wrong. */
  lemma RoutedExactlyWhen(p: Plan, from: Vec2, to: Vec2)
    requires Derived(p) && Spaced(p.rects, MIN_GAP) && Standing(p.rects, to)
    ensures MustRoute(p, from, to) <==>
      && !LineOfSight(p.rects, from, to, BOSS_RADIUS) && NavCellOf(from) != NavCellOf(to)
      && p.nav[CellOfPoint(from)] && StartCell(p.nav, to) != Some(CellOfPoint(from))
  {
    hide SepAxis, WallGap, NavCellOf, StartCell, LineOfSight, Reaches, Spaced, Standing;
    FloodStartsBesideHim(p.rects, to);
    StartCellIsFree(p.nav, to);
    var start, here := StartCell(p.nav, to).value, CellOfPoint(from);
    if start != here {
      if p.nav[here] {
        FreeCellsJoin(p.rects, start, here);
      } else {
        NoWayOffTheGrid(p.nav, start, here);
      }
    }
  }

  /** Any two free cells of a spaced floor are joined. */
  lemma FreeCellsJoin(rects: seq<Rect>, a: nat, b: nat)
    requires Spaced(rects, MIN_GAP) && a < CELLS && b < CELLS && NavGrid(rects)[a] && NavGrid(rects)[b]
    ensures Reaches(Steps(NavGrid(rects)), CELLS, a, b)
  {
    hide StartCell, Reaches, Spaced, CellFree;
    var free := NavGrid(rects);
    var g := Steps(free);
    SpacedFloorIsOnePlace(rects);
    StepsSymmetric(free);
    StartCellIsFree(free, BOSS_SPAWN);
    var s := StartCell(free, BOSS_SPAWN).value;
    ReachesBack(g, CELLS, s, a);
    ReachesTrans(g, CELLS, a, s, b);
  }

  /** On a spaced floor, from the middle of any free cell to a prey standing anywhere: the aim rule repeated cell by
      cell is a shortest walk to the cell the flood starts from, his own or one beside it. */
  lemma EveryFreeCellWalksToHim(p: Plan, to: Vec2, here: nat) returns (walk: seq<nat>)
    requires Derived(p) && Spaced(p.rects, MIN_GAP) && Standing(p.rects, to) && here < CELLS && p.nav[here]
    ensures walk != [] && walk[0] == here && StartCell(p.nav, to) == Some(walk[|walk|-1])
    ensures Ring(walk[|walk|-1], NavCellOf(to).0, NavCellOf(to).1) <= 1
    ensures IsDist(Steps(p.nav), CELLS, walk[|walk|-1], here, |walk| - 1)
    ensures forall i, j :: 0 <= i < |walk| - 1 && j == i + 1 ==>
            walk[i] < CELLS && walk[j] < CELLS && Leg(p, to, walk[i], walk[j])
  {
    hide NavGrid, NavCellOf, StartCell, Reaches, Spaced, Standing, Steps, IsDist, Leg;
    FloodStartsBesideHim(p.rects, to);
    StartCellIsFree(p.nav, to);
    var start := StartCell(p.nav, to).value;
    FreeCellsJoin(p.rects, start, here);
    var k := WalkLength(Steps(p.nav), start, here);
    var d := DistExists(Steps(p.nav), CELLS, start, here, k);
    walk := AimingCellByCellArrives(p, to, here, d);
  }

  lemma WalkLength(g: Graph, src: nat, v: nat) returns (k: nat)
    requires Reaches(g, CELLS, src, v)
    ensures Within(g, CELLS, src, v, k)
  {
    k :| Within(g, CELLS, src, v, k);
  }

  /** Where the claim fails: hugging a desk, he stands clear of it in a cell whose middle is not, so he is not routed
      although his prey is a walk away; one step straight at the prey is pushed back to where he stood. */
  lemma HuggingADeskHeGrinds(desk: Rect, p: Plan, from: Vec2, to: Vec2)
    requires desk == Rect(4.0, 4.0, 2.6, 1.0) && p == Plan([desk], NavGrid([desk]))
    requires from == Vec2(3.6, 4.5) && to == Vec2(7.5, 4.5)
    ensures Spaced(p.rects, MIN_GAP) && OnFloor(from, BOSS_RADIUS) && Clear(p.rects, from, BOSS_RADIUS)
    ensures Standing(p.rects, to) && !LineOfSight(p.rects, from, to, BOSS_RADIUS)
    ensures !MustRoute(p, from, to)
    ensures Sweep(p.rects, ClampToFloor(Vec2(from.x + 0.2, from.y), BOSS_RADIUS), BOSS_RADIUS) == from
  {
    assert NavCellOf(from) == (7, 9) && CellOfPoint(from) == 295;
    assert ColOf(295) == 7 && RowOf(295) == 9;
    assert InsideRect(desk, NavCentre(7, 9), BOSS_RADIUS);
    assert !CellFree(p.rects, 7, 9) by { assert p.rects[0] == desk; }
    assert Touches(desk, PointAt(from, to, 0.5), BOSS_RADIUS) by { assert Along(to.x - from.x, 0.5) == 1.95; }
    assert Meets(from, to, p.rects[0], BOSS_RADIUS);
    RoutedExactlyWhen(p, from, to);
    assert p.rects[1..] == [];
    assert PushOut(desk, Vec2(3.8, 4.5), BOSS_RADIUS) == from;
  }
}
