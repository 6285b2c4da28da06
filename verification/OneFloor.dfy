/** The gap rule alone makes the floor one place: the flood fill of the validator never refuses a spaced floor. */
module OneFloor {
  import opened Plane
  import opened Floor
  import opened Bfs
  import opened Grid
  import opened Validate
  import opened OnePass

  // ---- What the furniture blocks ----

  predicate Blocks(d: Rect, col: int, row: int) { InsideRect(d, NavCentre(col, row), BOSS_RADIUS) }

  predicate BlocksRow(d: Rect, row: int) {
    var y := NavCentre(0, row).y;
    d.y - BOSS_RADIUS + 0.000000001 < y < d.y + d.h + BOSS_RADIUS - 0.000000001
  }

  predicate InBand(col: int, row: int) { 1 <= col <= 30 && 1 <= row <= 42 }

  lemma BandIsTheFloor(rects: seq<Rect>, col: int, row: int)
    ensures OnFloor(NavCentre(col, row), BOSS_RADIUS) <==> InBand(col, row)
    ensures CellFree(rects, col, row) <==> InBand(col, row) && forall i :: 0 <= i < |rects| ==>
            !Blocks(rects[i], col, row)
  {}

  /** A rectangle the wall rule admits blocks nothing next to a wall. */
  lemma BlockedIsInland(d: Rect, col: int, row: int)
    requires WallGap(d) >= MIN_GAP && Blocks(d, col, row)
    ensures 2 <= col <= 29 && 2 <= row <= 41
  {}

  /** Two rectangles the gap rule admits never block cells that touch, not even at a corner. */
  lemma BlockedApart(a: Rect, b: Rect, c: int, r: int, c': int, r': int)
    requires SepAxis(a, b) >= MIN_GAP && Proper(a) && Proper(b) && Blocks(a, c, r) && Blocks(b, c', r')
    ensures c' - c >= 2 || c - c' >= 2 || r' - r >= 2 || r - r' >= 2
  {}

  /** A cell touching one that rectangle i blocks is free, unless rectangle i blocks it too. */
  lemma FreeBeside(rects: seq<Rect>, i: nat, c: int, r: int, c': int, r': int)
    requires Spaced(rects, MIN_GAP) && i < |rects| && Blocks(rects[i], c, r)
    requires -1 <= c' - c <= 1 && -1 <= r' - r <= 1 && !Blocks(rects[i], c', r')
    ensures InBand(c', r') && CellFree(rects, c', r')
  {
    hide Blocks, SepAxis, WallGap, CellFree;
    BlockedIsInland(rects[i], c, r);
    forall j | 0 <= j < |rects| ensures !Blocks(rects[j], c', r') {
      if j != i && Blocks(rects[j], c', r') {
        if i < j {
          BlockedApart(rects[i], rects[j], c, r, c', r');
        } else {
          BlockedApart(rects[j], rects[i], c', r', c, r);
        }
      }
    }
    BandIsTheFloor(rects, c', r');
  }

  // ---- Every free cell walks to the left wall ----

  /** The cells of two free grid positions are joined. */
  ghost predicate Joined(rects: seq<Rect>, c: int, r: int, c': int, r': int)
    requires OnGrid(c, r) && OnGrid(c', r')
  {
    Reaches(Steps(NavGrid(rects)), CELLS, CellAt(c, r), CellAt(c', r'))
  }

  lemma FreeStep(rects: seq<Rect>, c: int, r: int, c': int, r': int)
    requires OnGrid(c, r) && OnGrid(c', r') && CellFree(rects, c, r) && CellFree(rects, c', r')
    requires (c == c' && (r' == r + 1 || r' == r - 1)) || (r == r' && (c' == c + 1 || c' == c - 1))
    ensures Joined(rects, c, r, c', r')
  {
    hide CellFree, Reaches;
    ReachesEdge(Steps(NavGrid(rects)), CELLS, CellAt(c, r), CellAt(c', r'));
  }

  lemma JoinedTrans(rects: seq<Rect>, c: int, r: int, c1: int, r1: int, c2: int, r2: int)
    requires OnGrid(c, r) && OnGrid(c1, r1) && OnGrid(c2, r2)
    requires Joined(rects, c, r, c1, r1) && Joined(rects, c1, r1, c2, r2)
    ensures Joined(rects, c, r, c2, r2)
  {
    ReachesTrans(Steps(NavGrid(rects)), CELLS, CellAt(c, r), CellAt(c1, r1), CellAt(c2, r2));
  }

  /** Standing right of a blocked cell: climb along the rectangle until it ends, then step left above it. */
  lemma {:induction false} RoundTheDesk(rects: seq<Rect>, i: nat, c: int, r: int) returns (above: int)
    requires Spaced(rects, MIN_GAP) && i < |rects|
    requires InBand(c, r) && CellFree(rects, c, r) && Blocks(rects[i], c - 1, r)
    ensures InBand(c - 1, above) && CellFree(rects, c - 1, above) && Joined(rects, c, r, c - 1, above)
    decreases r
  {
    hide SepAxis, WallGap, CellFree, Joined;
    var d := rects[i];
    BlockedIsInland(d, c - 1, r);
    BandIsTheFloor(rects, c, r);
    if BlocksRow(d, r - 1) {
      assert Blocks(d, c - 1, r - 1) && !Blocks(d, c, r - 1);
      FreeBeside(rects, i, c - 1, r - 1, c, r - 1);
      FreeStep(rects, c, r, c, r - 1);
      above := RoundTheDesk(rects, i, c, r - 1);
      JoinedTrans(rects, c, r, c, r - 1, c - 1, above);
    } else {
      above := r - 1;
      FreeBeside(rects, i, c - 1, r, c, r - 1);
      FreeBeside(rects, i, c - 1, r, c - 1, r - 1);
      FreeStep(rects, c, r, c, r - 1);
      FreeStep(rects, c, r - 1, c - 1, r - 1);
      JoinedTrans(rects, c, r, c, r - 1, c - 1, r - 1);
    }
  }

  lemma LeftColumnFree(rects: seq<Rect>, r: int)
    requires Spaced(rects, MIN_GAP) && 1 <= r <= 42
    ensures CellFree(rects, 1, r)
  {
    hide SepAxis, WallGap;
    BandIsTheFloor(rects, 1, r);
    forall i | 0 <= i < |rects| ensures !Blocks(rects[i], 1, r) {
      if Blocks(rects[i], 1, r) { BlockedIsInland(rects[i], 1, r); }
    }
  }

  lemma {:induction false} DownTheLeftWall(rects: seq<Rect>, r: int)
    requires Spaced(rects, MIN_GAP) && 1 <= r <= 42
    ensures Joined(rects, 1, r, 1, 1)
    decreases r
  {
    hide SepAxis, WallGap, CellFree;
    LeftColumnFree(rects, r);
    if r == 1 {
      assert Within(Steps(NavGrid(rects)), CELLS, CellAt(1, 1), CellAt(1, 1), 0);
    } else {
      LeftColumnFree(rects, r - 1);
      FreeStep(rects, 1, r, 1, r - 1);
      DownTheLeftWall(rects, r - 1);
      JoinedTrans(rects, 1, r, 1, r - 1, 1, 1);
    }
  }

  /** From any free cell at all, the corner can be walked to. */
  lemma {:induction false} WalksToTheCorner(rects: seq<Rect>, c: int, r: int)
    requires Spaced(rects, MIN_GAP) && InBand(c, r) && CellFree(rects, c, r)
    ensures Joined(rects, c, r, 1, 1)
    decreases c
  {
    hide SepAxis, WallGap, CellFree, Joined;
    if c == 1 {
      DownTheLeftWall(rects, r);
    } else {
      var above := r;
      BandIsTheFloor(rects, c - 1, r);
      if CellFree(rects, c - 1, r) {
        FreeStep(rects, c, r, c - 1, r);
      } else {
        var i :| 0 <= i < |rects| && Blocks(rects[i], c - 1, r);
        above := RoundTheDesk(rects, i, c, r);
      }
      WalksToTheCorner(rects, c - 1, above);
      JoinedTrans(rects, c, r, c - 1, above, 1, 1);
    }
  }

  /** The spawn's own cell, or the one below it, is always free: no rectangle comes that close to the far wall. */
  lemma StartIsFound(rects: seq<Rect>)
    requires Spaced(rects, MIN_GAP)
    ensures StartCell(NavGrid(rects), BOSS_SPAWN).Some?
  {
    hide SepAxis, WallGap, NearestFree;
    var free := NavGrid(rects);
    assert NavCellOf(BOSS_SPAWN) == (16, 41);
    if !free[CellAt(16, 41)] {
      BandIsTheFloor(rects, 16, 42);
      forall i | 0 <= i < |rects| ensures !Blocks(rects[i], 16, 42) {
        if Blocks(rects[i], 16, 42) { BlockedIsInland(rects[i], 16, 42); }
      }
      assert free[CellAt(16, 42)] && Ring(CellAt(16, 42), 16, 41) == 1;
      NearestFreeIsNearest(free, 16, 41);
    }
  }

  /** The spacing rule makes the floor one place: every free cell can be walked to from the start of the flood. */
  lemma SpacedFloorIsOnePlace(rects: seq<Rect>)
    requires Spaced(rects, MIN_GAP)
    ensures OnePlace(NavGrid(rects))
  {
    hide Spaced, NearestFree, Reaches, StartCell, CellFree;
    var free := NavGrid(rects);
    var g := Steps(free);
    StartIsFound(rects);
    StartCellIsFree(free, BOSS_SPAWN);
    StepsSymmetric(free);
    var s := StartCell(free, BOSS_SPAWN).value;
    forall v: nat | v < CELLS && free[v] ensures Reaches(g, CELLS, v, CellAt(1, 1)) {
      CellOfParts(v);
      BandIsTheFloor(rects, ColOf(v), RowOf(v));
      WalksToTheCorner(rects, ColOf(v), RowOf(v));
    }
    forall v: nat | v < CELLS && free[v] ensures Reaches(g, CELLS, s, v) {
      ReachesBack(g, CELLS, v, CellAt(1, 1));
      ReachesTrans(g, CELLS, s, CellAt(1, 1), v);
    }
  }

  /** Legality without the flood fill: the local rules are already the whole of it. */
  predicate LocallyLegal(l: Layout) {
    && |l.solids| <= MAX_SOLIDS && |l.windows| <= MAX_WINDOWS
    && Sane(l) && Spaced(Rects(l), MIN_GAP) && SpotsClear(Rects(l)) && GlazingFits(l.windows)
  }

  /** The split-floor check never decides anything the gap rule has not decided. */
  lemma LegalIsLocal(l: Layout)
    ensures Legal(l) <==> LocallyLegal(l)
  {
    hide OnePlace, NavGrid, SepAxis, WallGap, PointGapSquared;
    if LocallyLegal(l) { SpacedFloorIsOnePlace(Rects(l)); }
  }

  // ---- What legality is for ----

  lemma WiderIsNarrower(rects: seq<Rect>, wide: real, narrow: real)
    requires Spaced(rects, wide) && narrow <= wide
    ensures Spaced(rects, narrow)
  {
    hide SepAxis, WallGap;
  }

  /** On every floor the validator passes, any body up to the widest ends one clamp and one sweep in the room and in no
      furniture, wherever it was pushed from. */
  lemma OnePassSufficesOnALegalFloor(l: Layout, p: Vec2, r: real)
    requires Legal(l) && 0.0 < r <= BOSS_RADIUS
    ensures var q := Sweep(Rects(l), ClampToFloor(p, r), r); OnFloor(q, r) && Clear(Rects(l), q, r)
  {
    hide Spaced, Sweep, ClampToFloor, OnePlace, SpotsClear, GlazingFits;
    WiderIsNarrower(Rects(l), MIN_GAP, 2.0 * r);
    OnePassSuffices(Rects(l), p, r);
  }
}
