/** What an office that may be played in looks like, in metres and without any of the validator's own terms. */
module Playable {
  import opened Plane
  import opened Floor
  import opened Validate
  import opened OneFloor
  import opened Gaps

  /** An object: furniture of a known kind, sixty centimetres to six metres either way, a metre and a half from every
      wall. */
  predicate Object(s: Solid) {
    && (s.kind == "desk" || s.kind == "flower" || s.kind == "tree")
    && s.x.Finite? && s.y.Finite? && s.w.Finite? && s.h.Finite?
    && 0.6 <= s.w.v <= 6.0 && 0.6 <= s.h.v <= 6.0
    && 1.5 <= s.x.v && s.x.v + s.w.v <= 14.5 && 1.5 <= s.y.v && s.y.v + s.h.v <= 20.5
  }

  /** One stands a metre and a half past the other, one way or another. */
  predicate Apart(a: Solid, b: Solid)
    requires FiniteSolid(a) && FiniteSolid(b)
  {
    || a.x.v + a.w.v + 1.5 <= b.x.v || b.x.v + b.w.v + 1.5 <= a.x.v
    || a.y.v + a.h.v + 1.5 <= b.y.v || b.y.v + b.h.v + 1.5 <= a.y.v
  }

  /** No point of it is within half a metre of a place that must stay clear. */
  ghost predicate LeavesClear(s: Solid, spot: Vec2)
    requires FiniteSolid(s)
  {
    forall q: Vec2 :: s.x.v <= q.x <= s.x.v + s.w.v && s.y.v <= q.y <= s.y.v + s.h.v ==>
        DistanceSquared(spot, q) >= 0.25
  }

  /** A pane: in one of the three walls that have any, over a metre long, sixty centimetres from either end. */
  predicate Pane(w: Window) {
    && (w.wall == "top" || w.wall == "left" || w.wall == "right") && w.at.Finite? && w.len.Finite?
    && w.len.v >= 1.2 && 0.6 <= w.at.v && w.at.v + w.len.v <= (if w.wall == "top" then 15.4 else 21.4)
  }

  predicate PanesApart(a: Window, b: Window)
    requires Pane(a) && Pane(b)
  {
    a.wall != b.wall || a.at.v + a.len.v + 0.6 <= b.at.v || b.at.v + b.len.v + 0.6 <= a.at.v
  }

  ghost predicate Furniture(solids: seq<Solid>) {
    && |solids| <= 40 && (forall i :: 0 <= i < |solids| ==> Object(solids[i]))
    && (forall i, j :: 0 <= i < j < |solids| ==> Apart(solids[i], solids[j]))
    && forall i, k :: 0 <= i < |solids| && 0 <= k < |FIXED_POINTS| ==> LeavesClear(solids[i], FIXED_POINTS[k])
  }

  predicate Windows(windows: seq<Window>) {
    && |windows| <= 12 && (forall i :: 0 <= i < |windows| ==> Pane(windows[i]))
    && forall i, j :: 0 <= i < j < |windows| ==> PanesApart(windows[i], windows[j])
  }

  lemma ObjectIs(s: Solid)
    ensures Object(s) <==> SolidFits(s)
  {
    if FiniteSolid(s) { TheWallGapIsABand(RectOf(s), 1.5); }
    assert s.kind in KINDS <==> s.kind == KINDS[0] || s.kind == KINDS[1] || s.kind == KINDS[2];
  }

  lemma ApartIs(a: Solid, b: Solid)
    requires FiniteSolid(a) && FiniteSolid(b)
    ensures Apart(a, b) <==> SepAxis(RectOf(a), RectOf(b)) >= MIN_GAP
  {}

  lemma LeavesClearIs(s: Solid, spot: Vec2)
    requires FiniteSolid(s) && s.w.v >= 0.0 && s.h.v >= 0.0
    ensures LeavesClear(s, spot) <==> PointGapSquared(RectOf(s), spot) >= SPOT_CLEAR * SPOT_CLEAR
  {
    hide PointGapSquared, DistanceSquared;
    var d := RectOf(s);
    TheGapIsToTheNearestPoint(d, spot);
    var near: Vec2 :| Within(d, near) && PointGapSquared(d, spot) == DistanceSquared(spot, near);
    if LeavesClear(s, spot) { assert DistanceSquared(spot, near) >= 0.25; }
    assert SPOT_CLEAR * SPOT_CLEAR == 0.25;
  }

  lemma PaneIs(w: Window)
    ensures Pane(w) <==> WindowFits(w)
  {
    assert w.wall in WALLS <==> w.wall == WALLS[0] || w.wall == WALLS[1] || w.wall == WALLS[2];
  }

  lemma WindowsAre(windows: seq<Window>)
    ensures Windows(windows) <==> |windows| <= MAX_WINDOWS && GlazingFits(windows)
  {
    hide Pane, WindowFits;
    forall i | 0 <= i < |windows| ensures Pane(windows[i]) <==> WindowFits(windows[i]) { PaneIs(windows[i]); }
    forall i, j | 0 <= i < j < |windows| && Pane(windows[i]) && Pane(windows[j])
      ensures PanesApart(windows[i], windows[j]) <==> !PanesCollide(windows[i], windows[j])
    {
      PanesApartIs(windows[i], windows[j]);
    }
  }

  lemma PanesApartIs(a: Window, b: Window)
    requires Pane(a) && Pane(b)
    ensures PanesApart(a, b) <==> !PanesCollide(a, b)
  {}

  lemma FurnitureIs(l: Layout)
    ensures Furniture(l.solids) <==>
            |l.solids| <= MAX_SOLIDS && Sane(l) && Spaced(Rects(l), MIN_GAP) && SpotsClear(Rects(l))
  {
    hide Object, SolidFits, Apart, SepAxis, LeavesClear, PointGapSquared, WallGap;
    var s := l.solids;
    forall i | 0 <= i < |s| ensures Object(s[i]) <==> SolidFits(s[i]) { ObjectIs(s[i]); }
    if Sane(l) {
      forall i | 0 <= i < |s| ensures Fits(s[i]) { FitsWhat(s[i]); }
      forall i, j | 0 <= i < j < |s| ensures Apart(s[i], s[j]) <==> SepAxis(Rects(l)[i], Rects(l)[j]) >= MIN_GAP {
        ApartIs(s[i], s[j]);
      }
      forall i, k | 0 <= i < |s| && 0 <= k < |FIXED_POINTS|
        ensures LeavesClear(s[i], FIXED_POINTS[k])
                <==> PointGapSquared(Rects(l)[i], FIXED_POINTS[k]) >= SPOT_CLEAR * SPOT_CLEAR
      {
        LeavesClearIs(s[i], FIXED_POINTS[k]);
      }
    }
  }

  predicate Fits(s: Solid) { FiniteSolid(s) && Proper(RectOf(s)) && WallGap(RectOf(s)) >= MIN_GAP }

  lemma FitsWhat(s: Solid)
    requires SolidFits(s)
    ensures Fits(s)
  {}

  /** An office is legal exactly when its furniture and its windows are as they should be: forty objects and twelve
      panes at most, each of them sound, apart from one another, and clear of the places somebody has to stand. That
      the floor is then in one piece need not be asked. */
  lemma LegalIsPlayable(l: Layout)
    ensures Legal(l) <==> Furniture(l.solids) && Windows(l.windows)
  {
    hide Legal, Furniture, Windows, Spaced, SpotsClear, GlazingFits, Sane;
    LegalIsLocal(l);
    FurnitureIs(l);
    WindowsAre(l.windows);
  }
}
