/** One pass of the resolver is enough, and it is the spacing rule that makes it so. */
module OnePass {
  import opened Wrappers
  import opened Plane
  import opened Floor

  /** Two grown rectangles have no point in common exactly when the per-axis gap is two radii. */
  lemma GrownDisjointIffSpaced(a: Rect, b: Rect, r: real)
    requires Proper(a) && Proper(b) && r > 0.0
    ensures (forall p :: !(Overlaps(a, p, r) && Overlaps(b, p, r))) <==> SepAxis(a, b) >= 2.0 * r
  {
    if SepAxis(a, b) < 2.0 * r {
      var p := Vec2(
        (MaxR(a.x, b.x) - r + MinR(a.x + a.w, b.x + b.w) + r) / 2.0,
        (MaxR(a.y, b.y) - r + MinR(a.y + a.h, b.y + b.h) + r) / 2.0);
      assert Overlaps(a, p, r) && Overlaps(b, p, r);
    }
  }

  /** What a push leaves: clear of its own rectangle, still grown-box close to it, and still on the floor. */
  lemma PushClears(d: Rect, p: Vec2, r: real)
    requires Proper(d) && r >= 0.0
    ensures !Overlaps(d, PushOut(d, p, r), r)
    ensures OnFloor(p, r) && WallGap(d) >= 2.0 * r ==> OnFloor(PushOut(d, p, r), r)
  {}

  /** No way out of the grown rectangle is shorter than the push. */
  lemma PushIsShortest(d: Rect, p: Vec2, r: real, q: Vec2)
    requires Proper(d) && r >= 0.0 && !Overlaps(d, q, r)
    ensures Squared(p, PushOut(d, p, r)) <= Squared(p, q)
  {
    hide Squared;
    if Overlaps(d, p, r) {
      var left, right := p.x - (d.x - r), d.x + d.w + r - p.x;
      var up, down := p.y - (d.y - r), d.y + d.h + r - p.y;
      var least := MinR(MinR(left, right), MinR(up, down));
      assert AbsR(p.x - q.x) >= least || AbsR(p.y - q.y) >= least;
      SquaredAtLeast(p, q, least);
      AxisMove(p, PushOut(d, p, r), least);
    } else {
      AxisMove(p, p, 0.0);
      SquaredAtLeast(p, q, 0.0);
    }
  }

  function Squared(p: Vec2, q: Vec2): real {
    (p.x - q.x) * (p.x - q.x) + (p.y - q.y) * (p.y - q.y)
  }

  lemma SquareGrows(a: real, b: real)
    requires 0.0 <= a <= b
    ensures a * a <= b * b
  {}

  lemma SquaredAtLeast(p: Vec2, q: Vec2, least: real)
    requires least >= 0.0 && (AbsR(p.x - q.x) >= least || AbsR(p.y - q.y) >= least)
    ensures Squared(p, q) >= least * least
  {
    var dx, dy := AbsR(p.x - q.x), AbsR(p.y - q.y);
    assert Squared(p, q) == dx * dx + dy * dy;
    SquareGrows(least, if dx >= least then dx else dy);
    SquareGrows(0.0, dx);
    SquareGrows(0.0, dy);
  }

  lemma AxisMove(p: Vec2, q: Vec2, least: real)
    requires (AbsR(p.x - q.x) == least && p.y == q.y) || (p.x == q.x && AbsR(p.y - q.y) == least)
    ensures Squared(p, q) == least * least
  {}

  predicate Clear(rects: seq<Rect>, p: Vec2, r: real) {
    forall i :: 0 <= i < |rects| ==> !Overlaps(rects[i], p, r)
  }

  lemma {:induction false} ClearStays(rects: seq<Rect>, p: Vec2, r: real)
    requires Clear(rects, p, r)
    ensures Sweep(rects, p, r) == p
    decreases |rects|
  {
    if rects != [] { ClearStays(rects[1..], p, r); }
  }

  /** A push out of one rectangle of a spaced floor cannot land inside another. */
  lemma PushMissesTheRest(a: Rect, b: Rect, p: Vec2, r: real)
    requires Proper(a) && Proper(b) && r > 0.0 && SepAxis(a, b) >= 2.0 * r && Overlaps(a, p, r)
    ensures !Overlaps(b, p, r) && !Overlaps(b, PushOut(a, p, r), r)
  {}

  lemma SepAxisSymmetric(a: Rect, b: Rect)
    ensures SepAxis(a, b) == SepAxis(b, a)
  {}

  /** A spaced floor pushes at most once: out of the one rectangle the body stands in, if there is one. */
  lemma {:induction false} SweepIsOnePush(rects: seq<Rect>, p: Vec2, r: real, k: nat)
    requires r > 0.0 && Spaced(rects, 2.0 * r)
    requires k < |rects| && Overlaps(rects[k], p, r)
    ensures Sweep(rects, p, r) == PushOut(rects[k], p, r)
    ensures Clear(rects, PushOut(rects[k], p, r), r)
    decreases |rects|
  {
    var q := PushOut(rects[k], p, r);
    PushClears(rects[k], p, r);
    forall i | 0 <= i < |rects| && i != k ensures !Overlaps(rects[i], p, r) && !Overlaps(rects[i], q, r) {
      SepAxisSymmetric(rects[i], rects[k]);
      PushMissesTheRest(rects[k], rects[i], p, r);
    }
    if k == 0 {
      ClearStays(rects[1..], q, r);
    } else {
      SweepIsOnePush(rects[1..], p, r, k - 1);
    }
  }

  /** The single pass: from anywhere at all, the clamp and one sweep end inside the room and inside nothing. */
  lemma OnePassSuffices(rects: seq<Rect>, p: Vec2, r: real)
    requires 0.0 < r <= OFFICE_W / 2.0 && Spaced(rects, 2.0 * r)
    ensures var q := Sweep(rects, ClampToFloor(p, r), r);
            OnFloor(q, r) && Clear(rects, q, r)
  {
    var c := ClampToFloor(p, r);
    assert OnFloor(c, r);
    if k :| 0 <= k < |rects| && Overlaps(rects[k], c, r) {
      SweepIsOnePush(rects, c, r, k);
      PushClears(rects[k], c, r);
    } else {
      ClearStays(rects, c, r);
    }
  }

  /** On a spaced floor the layout order, which is otherwise a contract, cannot matter. */
  lemma OrderDoesNotMatter(rects: seq<Rect>, shuffled: seq<Rect>, p: Vec2, r: real)
    requires r > 0.0 && Spaced(rects, 2.0 * r) && Spaced(shuffled, 2.0 * r)
    requires forall d :: d in rects <==> d in shuffled
    ensures Sweep(rects, p, r) == Sweep(shuffled, p, r)
  {
    if k :| 0 <= k < |rects| && Overlaps(rects[k], p, r) {
      SweepIsOnePush(rects, p, r, k);
      assert rects[k] in rects && rects[k] in shuffled;
      var j :| 0 <= j < |shuffled| && shuffled[j] == rects[k];
      SweepIsOnePush(shuffled, p, r, j);
    } else {
      forall i | 0 <= i < |shuffled| ensures !Overlaps(shuffled[i], p, r) {
        assert shuffled[i] in rects;
      }
      ClearStays(rects, p, r);
      ClearStays(shuffled, p, r);
    }
  }

  /** Why the gap is measured per axis: two desks 0.5 m apart on one axis and 0.7 m on the other are 0.86 m apart as the
      crow flies, more than two of the widest body, and the sweep hands that body out of one and back into the other. */
  lemma CrowFliesGapIsNotEnough(a: Rect, b: Rect, p: Vec2)
    requires a == Rect(4.0, 4.0, 2.0, 2.0) && b == Rect(6.5, 6.7, 2.0, 2.0) && p == Vec2(6.3, 6.35)
    ensures 0.5 * 0.5 + 0.7 * 0.7 > RESOLVER_FLOOR * RESOLVER_FLOOR && SepAxis(a, b) < RESOLVER_FLOOR
    ensures Overlaps(a, Sweep([a, b], p, BOSS_RADIUS), BOSS_RADIUS)
  {
    assert [a, b][1..] == [b] && [b][1..] == [];
    var q := PushOut(a, p, BOSS_RADIUS);
    var z := PushOut(b, q, BOSS_RADIUS);
    assert q == Vec2(6.3, 6.4) && z == Vec2(6.3, 6.3);
    assert Sweep([b], q, BOSS_RADIUS) == z;
  }

  /** Why the gap is kept from the walls too: a desk 0.5 m from the wall pushes the widest body out of the room. */
  lemma NarrowWallSlotIsNotEnough(d: Rect, p: Vec2)
    requires d == Rect(0.5, 4.0, 2.0, 2.0) && p == Vec2(0.4, 5.0)
    ensures WallGap(d) < RESOLVER_FLOOR && OnFloor(p, BOSS_RADIUS)
    ensures !OnFloor(Sweep([d], p, BOSS_RADIUS), BOSS_RADIUS)
  {
    assert [d][1..] == [];
    assert PushOut(d, p, BOSS_RADIUS) == Vec2(0.1, 5.0);
  }
}
