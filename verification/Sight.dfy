/** The straight line: the segment clip against a grown rectangle is exact, with no sampling. */
module Sight {
  import opened Wrappers
  import opened Plane
  import opened Floor

  /** The value of one linear edge function a fraction t along the segment. */
  function Along(p: real, t: real): real { p * t }

  function Quotient(q: real, p: real): real
    requires p != 0.0
  {
    q / p
  }

  /** The four half-planes of the grown rectangle, each as Along(p, t) <= q. */
  function Edges(a: Vec2, b: Vec2, d: Rect, r: real): (e: seq<(real, real)>)
    ensures |e| == 4
  {
    var dx, dy := b.x - a.x, b.y - a.y;
    [(-dx, a.x - (d.x - r)), (dx, d.x + d.w + r - a.x), (-dy, a.y - (d.y - r)), (dy, d.y + d.h + r - a.y)]
  }

  function PointAt(a: Vec2, b: Vec2, t: real): Vec2 {
    Vec2(a.x + Along(b.x - a.x, t), a.y + Along(b.y - a.y, t))
  }

  /** The closed rectangle grown by r. */
  predicate Touches(d: Rect, p: Vec2, r: real) {
    d.x - r <= p.x <= d.x + d.w + r && d.y - r <= p.y <= d.y + d.h + r
  }

  /** Some point of the segment lies in the grown rectangle. */
  ghost predicate Meets(a: Vec2, b: Vec2, d: Rect, r: real) {
    exists t :: 0.0 <= t <= 1.0 && Touches(d, PointAt(a, b, t), r)
  }

  predicate Satisfies(e: seq<(real, real)>, n: nat, t: real)
    requires n <= |e|
  {
    forall j :: 0 <= j < n ==> Along(e[j].0, t) <= e[j].1
  }

  lemma EdgesBoundTheBox(a: Vec2, b: Vec2, d: Rect, r: real, t: real)
    ensures Satisfies(Edges(a, b, d, r), 4, t) <==> Touches(d, PointAt(a, b, t), r)
  {
    var e := Edges(a, b, d, r);
    assert Along(-(b.x - a.x), t) == -Along(b.x - a.x, t) && Along(-(b.y - a.y), t) == -Along(b.y - a.y, t) by {
      NegativeAlong(b.x - a.x, t);
      NegativeAlong(b.y - a.y, t);
    }
    hide Along;
    assert e[0].0 == -(b.x - a.x) && e[1].0 == b.x - a.x && e[2].0 == -(b.y - a.y) && e[3].0 == b.y - a.y;
    if Touches(d, PointAt(a, b, t), r) {
      forall j | 0 <= j < 4 ensures Along(e[j].0, t) <= e[j].1 {}
    }
  }

  lemma NegativeAlong(p: real, t: real)
    ensures Along(-p, t) == -Along(p, t)
  {}

  lemma AlongIsBound(p: real, q: real, t: real)
    ensures p < 0.0 ==> (Along(p, t) <= q <==> t >= Quotient(q, p))
    ensures p > 0.0 ==> (Along(p, t) <= q <==> t <= Quotient(q, p))
    ensures p == 0.0 ==> (Along(p, t) <= q <==> 0.0 <= q)
  {
    if p != 0.0 {
      var k := Quotient(q, p);
      assert p * k == q;
      if p > 0.0 {
        if t < k { Strict(p, t, k); } else if t > k { Strict(p, k, t); }
      } else {
        if t < k { Strict(-p, t, k); } else if t > k { Strict(-p, k, t); }
      }
    }
  }

  lemma Strict(k: real, a: real, b: real)
    requires k > 0.0 && a < b
    ensures k * a < k * b
  {}

  /** The fractions of the unit segment that satisfy the first n edges are exactly [lo, hi]. */
  ghost predicate Clipped(e: seq<(real, real)>, n: nat, lo: real, hi: real)
    requires n <= |e|
  {
    && 0.0 <= lo <= hi <= 1.0
    && forall t :: 0.0 <= t <= 1.0 ==> (Satisfies(e, n, t) <==> lo <= t <= hi)
  }

  lemma ClipStep(e: seq<(real, real)>, n: nat, lo: real, hi: real, lo': real, hi': real)
    requires n < |e| && Clipped(e, n, lo, hi)
    requires var (p, q) := e[n];
             && (p == 0.0 ==> q >= 0.0 && lo' == lo && hi' == hi)
             && (p < 0.0 ==> Quotient(q, p) <= hi && lo' == MaxR(lo, Quotient(q, p)) && hi' == hi)
             && (p > 0.0 ==> Quotient(q, p) >= lo && hi' == MinR(hi, Quotient(q, p)) && lo' == lo)
    ensures Clipped(e, n + 1, lo', hi')
  {
    hide Along, Quotient;
    var p, q, m := e[n].0, e[n].1, n + 1;
    forall t | 0.0 <= t <= 1.0 ensures Satisfies(e, m, t) <==> lo' <= t <= hi' {
      AlongIsBound(p, q, t);
      assert Satisfies(e, m, t) <==> Satisfies(e, n, t) && Along(p, t) <= q;
    }
  }

  /** An edge that excludes the whole of what is left excludes the segment. */
  lemma ClipMisses(e: seq<(real, real)>, n: nat, lo: real, hi: real)
    requires n < |e| && Clipped(e, n, lo, hi)
    requires var (p, q) := e[n];
             || (p == 0.0 && q < 0.0)
             || (p < 0.0 && Quotient(q, p) > hi)
             || (p > 0.0 && Quotient(q, p) < lo)
    ensures forall t :: 0.0 <= t <= 1.0 ==> !Satisfies(e, |e|, t)
  {
    hide Along, Quotient;
    forall t | 0.0 <= t <= 1.0 ensures !Satisfies(e, |e|, t) {
      AlongIsBound(e[n].0, e[n].1, t);
      if Satisfies(e, |e|, t) { OneEdge(e, n, t); }
    }
  }

  lemma OneEdge(e: seq<(real, real)>, n: nat, t: real)
    requires n < |e| && Satisfies(e, |e|, t)
    ensures Satisfies(e, n, t) && Along(e[n].0, t) <= e[n].1
  {}

  method SegmentHitsRect(a: Vec2, b: Vec2, d: Rect, r: real) returns (hit: bool)
    ensures hit <==> Meets(a, b, d, r)
  {
    hide Along, Quotient, Touches, Satisfies;
    var t0, t1 := 0.0, 1.0;
    var edges := Edges(a, b, d, r);
    forall t ensures Satisfies(edges, 4, t) <==> Touches(d, PointAt(a, b, t), r) { EdgesBoundTheBox(a, b, d, r, t); }
    NothingClipped(edges);
    for i := 0 to 4
      invariant Clipped(edges, i, t0, t1)
    {
      var (p, q) := edges[i];
      if p == 0.0 {
        if q < 0.0 { ClipMisses(edges, i, t0, t1); return false; }
        ClipStep(edges, i, t0, t1, t0, t1);
        continue;
      }
      var t := Quotient(q, p);
      if p < 0.0 {
        if t > t1 { ClipMisses(edges, i, t0, t1); return false; }
        ClipStep(edges, i, t0, t1, MaxR(t0, t), t1);
        if t > t0 { t0 := t; }
      } else {
        if t < t0 { ClipMisses(edges, i, t0, t1); return false; }
        ClipStep(edges, i, t0, t1, t0, MinR(t1, t));
        if t < t1 { t1 := t; }
      }
    }
    assert Satisfies(edges, 4, t0);
    hit := true;
  }

  lemma NothingClipped(e: seq<(real, real)>)
    ensures Clipped(e, 0, 0.0, 1.0)
  {}

  /** Nothing stands between the two points for a body of radius r. */
  ghost predicate LineOfSight(rects: seq<Rect>, a: Vec2, b: Vec2, r: real) {
    forall i :: 0 <= i < |rects| ==> !Meets(a, b, rects[i], r)
  }

  method ClearLine(rects: seq<Rect>, a: Vec2, b: Vec2, r: real) returns (clear: bool)
    ensures clear <==> LineOfSight(rects, a, b, r)
  {
    for i := 0 to |rects|
      invariant forall j :: 0 <= j < i ==> !Meets(a, b, rects[j], r)
    {
      var hit := SegmentHitsRect(a, b, rects[i], r);
      if hit { return false; }
    }
    clear := true;
  }
}
