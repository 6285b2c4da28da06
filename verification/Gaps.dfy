/** What the floor's measurements measure: the distance to a piece of furniture, to a wall, and to a thing in reach. */
module Gaps {
  import opened Wrappers
  import opened Plane
  import opened Floor
  import opened Props

  function Square(a: real): real { a * a }

  function DistanceSquared(p: Vec2, q: Vec2): real { Square(p.x - q.x) + Square(p.y - q.y) }

  predicate Within(d: Rect, p: Vec2) { d.x <= p.x <= d.x + d.w && d.y <= p.y <= d.y + d.h }

  lemma SquareOfNearer(a: real, b: real)
    requires AbsR(a) <= AbsR(b)
    ensures Square(a) <= Square(b)
  {
    hide Square;
    SquareOfEither(AbsR(a), a);
    SquareOfEither(AbsR(b), b);
    SquareGrows(AbsR(a), AbsR(b));
  }

  lemma SquareOfEither(a: real, b: real)
    requires a == b || a == -b
    ensures Square(a) == Square(b) == a * a
  {}

  lemma SquareGrows(x: real, y: real)
    requires 0.0 <= x <= y
    ensures Square(x) <= Square(y)
  {
    ProductGrows(x, y, x);
    ProductGrows(x, y, y);
    assert x * y == y * x;
  }

  lemma ProductGrows(x: real, y: real, k: real)
    requires x <= y && k >= 0.0
    ensures x * k <= y * k
  {}

  /** The gap is to the nearest point of the furniture: no point of it is nearer, and one is as near. */
  lemma TheGapIsToTheNearestPoint(d: Rect, at: Vec2)
    requires d.w >= 0.0 && d.h >= 0.0
    ensures forall q: Vec2 :: Within(d, q) ==> PointGapSquared(d, at) <= DistanceSquared(at, q)
    ensures exists q: Vec2 :: Within(d, q) && PointGapSquared(d, at) == DistanceSquared(at, q)
  {
    hide Square;
    var near := Vec2(MaxR(d.x, MinR(d.x + d.w, at.x)), MaxR(d.y, MinR(d.y + d.h, at.y)));
    GapIsTo(d, at, near);
    assert Within(d, near);
    forall q: Vec2 | Within(d, q) ensures PointGapSquared(d, at) <= DistanceSquared(at, q) {
      SquareOfNearer(at.x - near.x, at.x - q.x);
      SquareOfNearer(at.y - near.y, at.y - q.y);
    }
  }

  lemma GapIsTo(d: Rect, at: Vec2, near: Vec2)
    requires d.w >= 0.0 && d.h >= 0.0
    requires near == Vec2(MaxR(d.x, MinR(d.x + d.w, at.x)), MaxR(d.y, MinR(d.y + d.h, at.y)))
    ensures PointGapSquared(d, at) == DistanceSquared(at, near)
  {
    var dx := MaxR(0.0, MaxR(d.x - at.x, at.x - (d.x + d.w)));
    var dy := MaxR(0.0, MaxR(d.y - at.y, at.y - (d.y + d.h)));
    assert dx == at.x - near.x || dx == near.x - at.x;
    assert dy == at.y - near.y || dy == near.y - at.y;
    SquareOfEither(dx, at.x - near.x);
    SquareOfEither(dy, at.y - near.y);
  }

  /** A rectangle keeps a gap from every wall exactly when it stands in the room drawn in by as much on every side. */
  lemma TheWallGapIsABand(d: Rect, gap: real)
    ensures WallGap(d) >= gap <==>
            gap <= d.x && d.x + d.w <= 16.0 - gap && gap <= d.y && d.y + d.h <= 22.0 - gap
  {}

  /** The program's slack is a body narrower by as much. */
  lemma InsideIsASlimmerOverlap(d: Rect, p: Vec2, r: real)
    ensures InsideRect(d, p, r) <==> Overlaps(d, p, r - 0.000000001)
  {}

  // ---- Reach ----

  predicate Disc(centre: Vec2, r: real, p: Vec2) { DistanceSquared(centre, p) <= Square(r) }

  /** A thing is in reach of somebody alive exactly when the disc about it touches the disc of his body. */
  lemma ReachIsATouch(b: Body, at: Vec2, reach: real)
    requires reach >= 0.0
    ensures InReach(b, at, reach) <==> b.alive && exists p: Vec2 :: Disc(at, reach, p) && Disc(b.pos, 0.35, p)
  {
    hide DistanceSquared;
    InReachIs(b, at, reach);
    if b.alive && InReach(b, at, reach) { TouchingPoint(b.pos, at, reach, 0.35); }
    if p: Vec2 :| Disc(at, reach, p) && Disc(b.pos, 0.35, p) { TouchIsNear(b.pos, at, p, reach, 0.35); }
  }

  lemma InReachIs(b: Body, at: Vec2, reach: real)
    ensures InReach(b, at, reach) <==> b.alive && DistanceSquared(b.pos, at) <= Square(reach + 0.35)
  {}

  /** The point that divides the way between the centres as the radii do lies in both discs. */
  lemma TouchingPoint(a: Vec2, b: Vec2, r: real, s: real)
    requires r >= 0.0 && s > 0.0 && DistanceSquared(a, b) <= Square(r + s)
    ensures exists p: Vec2 :: Disc(b, r, p) && Disc(a, s, p)
  {
    hide Square;
    var both := r + s;
    var t := r / both;
    var u, x, y := 1.0 - t, a.x - b.x, a.y - b.y;
    var p := Vec2(b.x + t * x, b.y + t * y);
    assert t * both == r;
    assert u * both == both - t * both;
    assert u * both == s;
    assert u * x == x - t * x && u * y == y - t * y;
    Shrunk(x, y, t, both);
    Shrunk(x, y, u, both);
    assert Square(t * both) == Square(r) && Square(u * both) == Square(s);
    InDisc(b, p, t * x, t * y, r);
    InDisc(a, p, u * x, u * y, s);
  }

  lemma InDisc(c: Vec2, p: Vec2, dx: real, dy: real, r: real)
    requires (c.x - p.x == dx || c.x - p.x == -dx) && (c.y - p.y == dy || c.y - p.y == -dy)
    requires Square(dx) + Square(dy) <= Square(r)
    ensures Disc(c, r, p)
  {
    hide Square;
    SquareOfEither(c.x - p.x, dx);
    SquareOfEither(c.y - p.y, dy);
  }

  lemma Negated(a: real)
    ensures Square(-a) == Square(a)
  {}

  lemma Shrunk(x: real, y: real, t: real, r: real)
    requires Square(x) + Square(y) <= Square(r)
    ensures Square(t * x) + Square(t * y) <= Square(t * r)
  {
    Factored(t, x);
    Factored(t, y);
    Factored(t, r);
    var k := Square(t);
    assert k >= 0.0 by { NotNegative(t); }
    assert k * Square(x) + k * Square(y) == k * (Square(x) + Square(y));
    ProductGrows(Square(x) + Square(y), Square(r), k);
  }

  lemma NotNegative(t: real)
    ensures Square(t) >= 0.0
  {}

  lemma Factored(t: real, x: real)
    ensures Square(t * x) == Square(t) * Square(x)
  {
    assert (t * x) * (t * x) == (t * t) * (x * x);
  }

  /** Two discs with a point in common: their centres are no further apart than their radii together. */
  lemma TouchIsNear(a: Vec2, b: Vec2, p: Vec2, r: real, s: real)
    requires r >= 0.0 && s > 0.0 && DistanceSquared(b, p) <= Square(r) && DistanceSquared(a, p) <= Square(s)
    ensures DistanceSquared(a, b) <= Square(r + s)
  {
    hide Square;
    var ux, uy, vx, vy := p.x - b.x, p.y - b.y, a.x - p.x, a.y - p.y;
    Negated(ux);
    Negated(uy);
    assert Square(-ux) + Square(-uy) <= Square(r);
    Summed(ux, vx);
    Summed(uy, vy);
    Summed(r, s);
    InnerProduct(ux, uy, vx, vy, r, s);
    assert a.x - b.x == ux + vx && a.y - b.y == uy + vy;
  }

  lemma Summed(a: real, b: real)
    ensures Square(a + b) == Square(a) + Square(b) + 2.0 * (a * b)
  {}

  lemma InnerProduct(ux: real, uy: real, vx: real, vy: real, r: real, s: real)
    requires r >= 0.0 && s > 0.0
    requires Square(ux) + Square(uy) <= Square(r) && Square(vx) + Square(vy) <= Square(s)
    ensures ux * vx + uy * vy <= r * s
  {
    hide Square;
    if r == 0.0 {
      NothingLong(ux, uy);
    } else {
      Shrunk(ux, uy, s, r);
      Shrunk(vx, vy, r, s);
      Mixed(s * ux, r * vx);
      Mixed(s * uy, r * vy);
      Squares(r, s);
      var dot := ux * vx + uy * vy;
      assert (s * ux) * (r * vx) == (r * s) * (ux * vx) && (s * uy) * (r * vy) == (r * s) * (uy * vy);
      assert (r * s) * (ux * vx) + (r * s) * (uy * vy) == (r * s) * dot;
      Cancel(r * s, dot, r * s);
    }
  }

  lemma NothingLong(x: real, y: real)
    requires Square(x) + Square(y) <= Square(0.0)
    ensures x == 0.0 && y == 0.0
  {
    NotNegative(x);
    NotNegative(y);
    OnlyNothing(x);
    OnlyNothing(y);
  }

  lemma OnlyNothing(x: real)
    ensures x != 0.0 ==> Square(x) > 0.0
  {
    hide Square;
    SquareOfEither(AbsR(x), x);
    if x != 0.0 { PositiveSquare(AbsR(x)); }
  }

  function Product(a: real, b: real): real { a * b }

  lemma PositiveSquare(x: real)
    requires x > 0.0
    ensures Square(x) > 0.0
  {
    hide Square, Product;
    SquareIsProduct(x);
    PositiveProduct(x, x);
  }

  lemma SquareIsProduct(x: real)
    ensures Square(x) == Product(x, x)
  {}

  lemma PositiveProduct(a: real, b: real)
    requires a > 0.0 && b > 0.0
    ensures Product(a, b) > 0.0
  {}

  lemma Positive(a: real, b: real)
    requires a > 0.0 && b > 0.0
    ensures a * b > 0.0
  {}

  lemma Mixed(a: real, b: real)
    ensures 2.0 * (a * b) <= Square(a) + Square(b)
  {
    assert (a - b) * (a - b) >= 0.0 by { NotNegative(a - b); }
  }

  lemma Squares(r: real, s: real)
    requires r > 0.0 && s > 0.0
    ensures Square(s * r) == (r * s) * (r * s) && Square(r * s) == (r * s) * (r * s) && r * s > 0.0
  {
    assert s * r == r * s;
  }

  lemma Cancel(k: real, a: real, b: real)
    requires k > 0.0
    ensures a > b ==> k * a > k * b
  {
    if a > b {
      Positive(k, a - b);
      assert k * (a - b) == k * a - k * b;
    }
  }
}
