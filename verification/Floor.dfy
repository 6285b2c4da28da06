/** The office floor: rectangles, the distances its rules are measured in, and the push that resolves a collision. */
module Floor {
  import opened Wrappers
  import opened Plane

  datatype Rect = Rect(x: real, y: real, w: real, h: real)

  const OFFICE_W: real := 16.0
  const OFFICE_H: real := 22.0
  const PLAYER_RADIUS: real := 0.35
  const BOSS_RADIUS: real := 0.40
  const CLEARANCE: real := BOSS_RADIUS
  const RESOLVER_FLOOR: real := 2.0 * CLEARANCE
  const MIN_GAP: real := 1.5
  const SPOT_CLEAR: real := PLAYER_RADIUS + 0.15

  /** The separation of two rectangles, per axis: the larger of the two axis gaps. */
  function SepAxis(a: Rect, b: Rect): real {
    var dx := MaxR(0.0, MaxR(b.x - (a.x + a.w), a.x - (b.x + b.w)));
    var dy := MaxR(0.0, MaxR(b.y - (a.y + a.h), a.y - (b.y + b.h)));
    MaxR(dx, dy)
  }

  /** How far a rectangle is from the nearest wall. */
  function WallGap(r: Rect): real {
    MinR(MinR(r.x, r.y), MinR(OFFICE_W - (r.x + r.w), OFFICE_H - (r.y + r.h)))
  }

  /** The square of a point's distance from a rectangle, zero inside it. */
  function PointGapSquared(r: Rect, at: Vec2): real {
    var dx := MaxR(0.0, MaxR(r.x - at.x, at.x - (r.x + r.w)));
    var dy := MaxR(0.0, MaxR(r.y - at.y, at.y - (r.y + r.h)));
    dx * dx + dy * dy
  }

  function ClampR(v: real, lo: real, hi: real): real { MaxR(lo, MinR(hi, v)) }

  function ClampToFloor(p: Vec2, r: real): Vec2 {
    Vec2(ClampR(p.x, r, OFFICE_W - r), ClampR(p.y, r, OFFICE_H - r))
  }

  /** Strictly inside a rectangle grown by r on every side. */
  predicate Overlaps(d: Rect, p: Vec2, r: real) {
    d.x - r < p.x < d.x + d.w + r && d.y - r < p.y < d.y + d.h + r
  }

  /** The same test with the program's slack, which a spawn and the navigation grid use. */
  predicate InsideRect(d: Rect, p: Vec2, r: real) {
    var eps := 0.000000001;
    d.x - r + eps < p.x < d.x + d.w + r - eps && d.y - r + eps < p.y < d.y + d.h + r - eps
  }

  /** Out along the axis of least penetration, ties in the order left, right, up, down. */
  function PushOut(d: Rect, p: Vec2, r: real): Vec2 {
    if !Overlaps(d, p, r) then p
    else
      var left, right := p.x - (d.x - r), d.x + d.w + r - p.x;
      var up, down := p.y - (d.y - r), d.y + d.h + r - p.y;
      var least := MinR(MinR(left, right), MinR(up, down));
      if least == left then p.(x := d.x - r)
      else if least == right then p.(x := d.x + d.w + r)
      else if least == up then p.(y := d.y - r)
      else p.(y := d.y + d.h + r)
  }

  /** One pass over the furniture, in layout order. */
  function Sweep(rects: seq<Rect>, p: Vec2, r: real): Vec2
    decreases |rects|
  {
    if rects == [] then p else Sweep(rects[1..], PushOut(rects[0], p, r), r)
  }

  method SweepOnce(rects: seq<Rect>, from: Vec2, r: real) returns (p: Vec2)
    ensures p == Sweep(rects, from, r)
  {
    p := from;
    for i := 0 to |rects|
      invariant Sweep(rects[i..], p, r) == Sweep(rects, from, r)
    {
      assert rects[i..][1..] == rects[i+1..];
      p := PushOut(rects[i], p, r);
    }
  }

  predicate OnFloor(p: Vec2, r: real) {
    r <= p.x <= OFFICE_W - r && r <= p.y <= OFFICE_H - r
  }

  predicate Proper(d: Rect) { d.w > 0.0 && d.h > 0.0 }

  /** Every rectangle keeps `gap` from every wall and, per axis, from every other rectangle. */
  predicate Spaced(rects: seq<Rect>, gap: real) {
    && (forall i :: 0 <= i < |rects| ==> Proper(rects[i]) && WallGap(rects[i]) >= gap)
    && (forall i, j :: 0 <= i < j < |rects| ==> SepAxis(rects[i], rects[j]) >= gap)
  }
}
