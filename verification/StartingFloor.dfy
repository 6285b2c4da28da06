/** The floor a fresh database opens on. */
module StartingFloor {
  import opened Wrappers
  import opened Plane
  import opened Floor
  import opened Validate
  import opened OneFloor

  function Desk(x: real, y: real): Solid { Solid(Finite(x), Finite(y), Finite(2.6), Finite(1.0), "desk") }

  function Glass(wall: string, at: real, len: real): Window { Window(wall, Finite(at), Finite(len)) }

  /** Two columns of four desks, a ficus and a flowerpot, and seven panes. */
  const STARTING_LAYOUT: Layout := Layout(
    [Desk(2.8, 3.0), Desk(2.8, 7.0), Desk(2.8, 11.0), Desk(2.8, 15.0),
     Desk(10.6, 3.0), Desk(10.6, 7.0), Desk(10.6, 11.0), Desk(10.6, 15.0),
     Solid(Finite(11.0), Finite(17.6), Finite(1.2), Finite(1.2), "tree"),
     Solid(Finite(3.0), Finite(18.0), Finite(0.8), Finite(0.8), "flower")],
    [Glass("top", 1.0, 3.0), Glass("top", 6.5, 3.0), Glass("top", 12.0, 3.0),
     Glass("left", 4.0, 4.0), Glass("left", 12.0, 4.0), Glass("right", 4.0, 4.0), Glass("right", 12.0, 4.0)])

  lemma StartingGlazing()
    ensures GlazingFits(STARTING_LAYOUT.windows)
  {
    assert WALLS[0] == "top" && WALLS[1] == "left" && WALLS[2] == "right";
    assert "top"[0] == 't' && "left"[0] == 'l' && "right"[0] == 'r';
  }

  lemma StartingRects() returns (rects: seq<Rect>)
    ensures Sane(STARTING_LAYOUT) && rects == Rects(STARTING_LAYOUT)
    ensures |rects| == 10 && rects[8] == Rect(11.0, 17.6, 1.2, 1.2) && rects[9] == Rect(3.0, 18.0, 0.8, 0.8)
    ensures forall i :: 0 <= i < 4 ==> rects[i] == Rect(2.8, 3.0 + i as real * 4.0, 2.6, 1.0)
    ensures forall i :: 4 <= i < 8 ==> rects[i] == Rect(10.6, 3.0 + (i - 4) as real * 4.0, 2.6, 1.0)
  {
    assert KINDS[0] == "desk" && KINDS[1] == "flower" && KINDS[2] == "tree";
    assert Sane(STARTING_LAYOUT);
    rects := Rects(STARTING_LAYOUT);
  }

  lemma StartingSpacing(rects: seq<Rect>)
    requires |rects| == 10 && rects[8] == Rect(11.0, 17.6, 1.2, 1.2) && rects[9] == Rect(3.0, 18.0, 0.8, 0.8)
    requires forall i :: 0 <= i < 4 ==> rects[i] == Rect(2.8, 3.0 + i as real * 4.0, 2.6, 1.0)
    requires forall i :: 4 <= i < 8 ==> rects[i] == Rect(10.6, 3.0 + (i - 4) as real * 4.0, 2.6, 1.0)
    ensures Spaced(rects, MIN_GAP)
  {
    forall i, j | 0 <= i < j < |rects| ensures SepAxis(rects[i], rects[j]) >= MIN_GAP {}
  }

  lemma FarOnOneAxis(d: Rect, at: Vec2)
    requires at.x <= d.x - 0.5 || at.x >= d.x + d.w + 0.5 || at.y <= d.y - 0.5 || at.y >= d.y + d.h + 0.5
    ensures PointGapSquared(d, at) >= SPOT_CLEAR * SPOT_CLEAR
  {
    var dx := MaxR(0.0, MaxR(d.x - at.x, at.x - (d.x + d.w)));
    var dy := MaxR(0.0, MaxR(d.y - at.y, at.y - (d.y + d.h)));
    assert dx * dx >= 0.0 && dy * dy >= 0.0;
    if dx >= 0.5 { assert dx * dx >= 0.5 * 0.5; } else { assert dy >= 0.5 && dy * dy >= 0.5 * 0.5; }
  }

  lemma StartingSpots(rects: seq<Rect>)
    requires |rects| == 10 && rects[8] == Rect(11.0, 17.6, 1.2, 1.2) && rects[9] == Rect(3.0, 18.0, 0.8, 0.8)
    requires forall i :: 0 <= i < 4 ==> rects[i] == Rect(2.8, 3.0 + i as real * 4.0, 2.6, 1.0)
    requires forall i :: 4 <= i < 8 ==> rects[i] == Rect(10.6, 3.0 + (i - 4) as real * 4.0, 2.6, 1.0)
    ensures SpotsClear(rects)
  {
    hide PointGapSquared;
    forall i, k | 0 <= i < |rects| && 0 <= k < |FIXED_POINTS|
      ensures PointGapSquared(rects[i], FIXED_POINTS[k]) >= SPOT_CLEAR * SPOT_CLEAR
    {
      FarOnOneAxis(rects[i], FIXED_POINTS[k]);
    }
  }

  /** Every rule the validator has holds of the floor the game shipped with. */
  lemma StartingLayoutIsLegal()
    ensures Legal(STARTING_LAYOUT)
  {
    StartingGlazing();
    var rects := StartingRects();
    StartingSpacing(rects);
    StartingSpots(rects);
    LegalIsLocal(STARTING_LAYOUT);
  }
}
