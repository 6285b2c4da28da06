/** Where an office comes from when nobody has drawn one: a stream of draws, and the floor that falls out of it.

    The pseudo-random source is an arbitrary infinite stream of fractions; every theorem holds for all of them. */
module OfficeGenerate {
  import opened Wrappers
  import opened Draws
  import opened Floor
  import opened Grid
  import opened Validate
  import opened OneFloor

  const PLACE_STEP: real := 0.25
  const PLACE_TRIES: nat := 24
  const MIN_SOLIDS: nat := 8
  const TAIL_MIN: nat := 9
  const TAIL_MAX: nat := 15
  const AISLE_MAX: real := 1.0
  const SLIDE_FRACTION: real := 0.4
  const ADJACENT_SHARE: real := 0.6
  const WINDOW_INSET: real := 0.75
  const WINDOW_GAP: real := 0.75
  const PANE_MIN: real := 1.5
  const PANE_MAX: real := 4.0
  const PANES_MIN: nat := 2
  const PANES_MAX: nat := 4

  datatype Class = Run | Desk | Flower | Tree

  datatype Lie = Drawn | Across | Down

  datatype Want = Want(what: Class, lie: Lie)

  datatype ThinFloor = ThinFloor

  function KindOf(c: Class): string {
    match c case Run => "desk" case Desk => "desk" case Flower => "flower" case Tree => "tree"
  }

  function LongSide(c: Class): (real, real) {
    match c case Run => (4.0, 6.0) case Desk => (1.5, 3.0) case Flower => (0.75, 1.0) case Tree => (1.25, 1.75)
  }

  const SHORT_SIDE: (real, real) := (0.75, 1.0)

  predicate Square(c: Class) { c == Flower || c == Tree }

  const TAIL_POOL: seq<Class> := [Run, Run, Desk, Desk, Desk, Desk, Flower, Tree]

  // ---- The lattice ----

  function SnapDown(v: real): real { (v / PLACE_STEP).Floor as real * PLACE_STEP }

  /** A whole number of quarter metres. */
  predicate OnLattice(v: real) { (v * 4.0).Floor as real == v * 4.0 }

  lemma LatticeFrom(v: real, k: int)
    requires v * 4.0 == k as real
    ensures OnLattice(v)
  {}

  lemma SnapLands(v: real)
    ensures OnLattice(SnapDown(v)) && v - PLACE_STEP < SnapDown(v) <= v
    ensures v >= 0.0 ==> SnapDown(v) >= 0.0
  {
    assert v / PLACE_STEP == v * 4.0;
    LatticeFrom(SnapDown(v), (v / PLACE_STEP).Floor);
  }

  lemma LatticeSum(a: real, b: real)
    requires OnLattice(a) && OnLattice(b)
    ensures OnLattice(a + b) && OnLattice(a - b)
  {
    LatticeFrom(a + b, (a * 4.0).Floor + (b * 4.0).Floor);
    LatticeFrom(a - b, (a * 4.0).Floor - (b * 4.0).Floor);
  }

  // ---- Draws ----

  function DrawSide(u: Stream, i: nat, span: (real, real)): real {
    span.0 + SnapDown(Part(u(i), span.1 - span.0))
  }

  lemma DrawSideInRange(u: Stream, i: nat, span: (real, real))
    requires span.0 < span.1 && OnLattice(span.0)
    ensures span.0 <= DrawSide(u, i, span) <= span.1 && OnLattice(DrawSide(u, i, span))
  {
    hide Part, OnLattice, SnapDown;
    FractionOf(u(i), span.1 - span.0);
    SnapLands(Part(u(i), span.1 - span.0));
    LatticeSum(span.0, SnapDown(Part(u(i), span.1 - span.0)));
  }

  function OnFloorAt(v: real, size: real, extent: real): real {
    MinR(MaxR(v, MIN_GAP), extent - MIN_GAP - size)
  }

  /** A spot against one face of something standing, and the stream position after the draws it took. */
  function Beside(u: Stream, i: nat, host: Rect, w: real, h: real): (real, real) {
    var aisle := MIN_GAP + SnapDown(Part(u(i), AISLE_MAX));
    match Intn(u, i + 1, 4)
    case 0 => (host.x + host.w + aisle, host.y + Slide(u(i + 2), host.h))
    case 1 => (host.x - aisle - w, host.y + Slide(u(i + 2), host.h))
    case 2 => (host.x + Slide(u(i + 2), host.w), host.y + host.h + aisle)
    case _ => (host.x + Slide(u(i + 2), host.w), host.y - aisle - h)
  }

  function Slide(f: real, span: real): real { SnapDown(Part(f * 2.0 - 1.0, Part(span, SLIDE_FRACTION))) }

  function Anywhere(u: Stream, i: nat, w: real, h: real): (real, real) {
    (MIN_GAP + SnapDown(Part(u(i), OFFICE_W - 2.0 * MIN_GAP - w)), MIN_GAP
        + SnapDown(Part(u(i + 1), OFFICE_H - 2.0 * MIN_GAP - h)))
  }

  /** A size and a way round. */
  function DrawSize(u: Stream, i: nat, want: Want): (r: (real, real, nat)) {
    var long := DrawSide(u, i, LongSide(want.what));
    var (short, j) := if Square(want.what) then (long, i + 1) else (DrawSide(u, i + 1, SHORT_SIDE), i + 2);
    match want.lie
    case Down => (short, long, j)
    case Across => (long, short, j)
    case Drawn => if Intn(u, j, 2) == 0 then (short, long, j + 1) else (long, short, j + 1)
  }

  function SolidAt(x: real, y: real, w: real, h: real, kind: string): Solid {
    Solid(Finite(OnFloorAt(x, w, OFFICE_W)), Finite(OnFloorAt(y, h, OFFICE_H)), Finite(w), Finite(h), kind)
  }

  predicate AllFinite(placed: seq<Solid>) { forall i :: 0 <= i < |placed| ==> FiniteSolid(placed[i]) }

  /** One proposal and the stream position after it. */
  function DrawSolid(u: Stream, i: nat, want: Want, placed: seq<Solid>): (Solid, nat)
    requires AllFinite(placed)
  {
    var (w, h, j) := DrawSize(u, i, want);
    if |placed| > 0 && u(j) < ADJACENT_SHARE then
      var host := RectOf(placed[Intn(u, j + 1, |placed|)]);
      var (x, y) := Beside(u, j + 2, host, w, h);
      (SolidAt(x, y, w, h, KindOf(want.what)), j + 5)
    else
      var k := if |placed| > 0 then j + 1 else j;
      var (x, y) := Anywhere(u, k, w, h);
      (SolidAt(x, y, w, h, KindOf(want.what)), k + 2)
  }

  predicate SolidOnLattice(s: Solid) {
    FiniteSolid(s) && OnLattice(s.x.v) && OnLattice(s.y.v) && OnLattice(s.w.v) && OnLattice(s.h.v)
  }

  predicate AllOnLattice(placed: seq<Solid>)
    ensures AllOnLattice(placed) ==> AllFinite(placed)
  {
    forall k :: 0 <= k < |placed| ==> SolidOnLattice(placed[k])
  }

  lemma DrawnSizeFits(u: Stream, i: nat, want: Want)
    ensures var (w, h, j) := DrawSize(u, i, want);
            && MIN_SOLID_SIDE <= w <= MAX_SOLID_SIDE && MIN_SOLID_SIDE <= h <= MAX_SOLID_SIDE
            && OnLattice(w) && OnLattice(h)
  {
    hide SnapDown, Intn;
    DrawSideInRange(u, i, LongSide(want.what));
    DrawSideInRange(u, i + 1, SHORT_SIDE);
  }

  /** The clamp puts any proposal inside the band the wall rule leaves, and never takes it off the lattice. */
  lemma ClampedFits(x: real, y: real, w: real, h: real, c: Class)
    requires MIN_SOLID_SIDE <= w <= MAX_SOLID_SIDE && MIN_SOLID_SIDE <= h <= MAX_SOLID_SIDE
    requires OnLattice(x) && OnLattice(y) && OnLattice(w) && OnLattice(h)
    ensures SolidFits(SolidAt(x, y, w, h, KindOf(c))) && SolidOnLattice(SolidAt(x, y, w, h, KindOf(c)))
  {
    hide OnLattice;
    ConstantsOnLattice();
    LatticeSum(OFFICE_W - MIN_GAP, w);
    LatticeSum(OFFICE_H - MIN_GAP, h);
    assert KindOf(c) == KINDS[match c case Run => 0 case Desk => 0 case Flower => 1 case Tree => 2];
  }

  lemma ConstantsOnLattice()
    ensures OnLattice(MIN_GAP) && OnLattice(OFFICE_W - MIN_GAP) && OnLattice(OFFICE_H - MIN_GAP)
  {}

  lemma BesideOnLattice(u: Stream, i: nat, host: Rect, w: real, h: real)
    requires OnLattice(host.x) && OnLattice(host.y) && OnLattice(host.w) && OnLattice(host.h) && OnLattice(w)
             && OnLattice(h)
    ensures var (x, y) := Beside(u, i, host, w, h); OnLattice(x) && OnLattice(y)
  {
    hide OnLattice, SnapDown, Intn, Part, Slide;
    ConstantsOnLattice();
    var aisle := MIN_GAP + SnapDown(Part(u(i), AISLE_MAX));
    SnapLands(Part(u(i), AISLE_MAX));
    LatticeSum(MIN_GAP, SnapDown(Part(u(i), AISLE_MAX)));
    SlideOnLattice(u(i + 2), host.h);
    SlideOnLattice(u(i + 2), host.w);
    FaceOnLattice(host.x, host.w, aisle, w, Slide(u(i + 2), host.w));
    FaceOnLattice(host.y, host.h, aisle, h, Slide(u(i + 2), host.h));
  }

  lemma SlideOnLattice(f: real, span: real)
    ensures OnLattice(Slide(f, span))
  {
    SnapLands(Part(f * 2.0 - 1.0, Part(span, SLIDE_FRACTION)));
  }

  lemma FaceOnLattice(at: real, side: real, aisle: real, size: real, slide: real)
    requires OnLattice(at) && OnLattice(side) && OnLattice(aisle) && OnLattice(size) && OnLattice(slide)
    ensures OnLattice(at + side + aisle) && OnLattice(at - aisle - size) && OnLattice(at + slide)
  {
    hide OnLattice;
    LatticeSum(at, side);
    LatticeSum(at + side, aisle);
    LatticeSum(at, aisle);
    LatticeSum(at - aisle, size);
    LatticeSum(at, slide);
  }

  /** Every proposal, whatever was drawn, is a known kind at a legal size in the band the wall rule leaves, all of it
      on the quarter-metre lattice. */
  lemma DrawnFits(u: Stream, i: nat, want: Want, placed: seq<Solid>)
    requires AllOnLattice(placed)
    ensures var (s, j) := DrawSolid(u, i, want, placed); SolidFits(s) && SolidOnLattice(s)
  {
    hide OnLattice, SnapDown, Intn, DrawSize, Beside, Anywhere, SolidFits, OnFloorAt, SolidAt, SolidOnLattice;
    var (w, h, j) := DrawSize(u, i, want);
    DrawnSizeFits(u, i, want);
    if |placed| > 0 && u(j) < ADJACENT_SHARE {
      var n := Intn(u, j + 1, |placed|);
      var (x, y) := Beside(u, j + 2, RectOf(placed[n]), w, h);
      OnLatticeRect(placed[n]);
      BesideOnLattice(u, j + 2, RectOf(placed[n]), w, h);
      ClampedFits(x, y, w, h, want.what);
    } else {
      var k := if |placed| > 0 then j + 1 else j;
      var (x, y) := Anywhere(u, k, w, h);
      AnywhereOnLattice(u, k, w, h);
      ClampedFits(x, y, w, h, want.what);
    }
  }

  lemma OnLatticeRect(s: Solid)
    requires SolidOnLattice(s)
    ensures var d := RectOf(s); OnLattice(d.x) && OnLattice(d.y) && OnLattice(d.w) && OnLattice(d.h)
  {}

  lemma AnywhereOnLattice(u: Stream, i: nat, w: real, h: real)
    ensures var (x, y) := Anywhere(u, i, w, h); OnLattice(x) && OnLattice(y)
  {
    hide OnLattice, SnapDown, Part;
    ConstantsOnLattice();
    var across, down := Part(u(i), OFFICE_W - 2.0 * MIN_GAP - w), Part(u(i + 1), OFFICE_H - 2.0 * MIN_GAP - h);
    SnapLands(across);
    SnapLands(down);
    LatticeSum(MIN_GAP, SnapDown(across));
    LatticeSum(MIN_GAP, SnapDown(down));
  }

  // ---- The glazing ----

  function PaneCount(u: Stream, i: nat): nat { PANES_MIN + Intn(u, i, PANES_MAX - PANES_MIN + 1) }

  /** n copies of a length. */
  function Copies(n: nat, length: real): real { n as real * length }

  lemma CopiesAre(length: real)
    ensures Copies(0, length) == 0.0 && Copies(1, length) == length && Copies(2, length) == length + length
    ensures Copies(3, length) == length + length + length && Copies(4, length) == length + length + length + length
  {}

  /** What n panes and their mullions leave for each pane. */
  function Share(wall: string, n: nat): real
    requires n > 0
  {
    (WallLength(wall) - 2.0 * WINDOW_INSET - Copies(n - 1, WINDOW_GAP)) / n as real
  }

  function PaneLength(u: Stream, i: nat, wall: string): real {
    MinR(DrawSide(u, i + 1, (PANE_MIN, PANE_MAX)), SnapDown(Share(wall, PaneCount(u, i))))
  }

  function FirstPane(wall: string, n: nat, pane: real): real
    requires n > 0
  {
    var run := Copies(n, pane) + Copies(n - 1, WINDOW_GAP);
    WINDOW_INSET + SnapDown((WallLength(wall) - 2.0 * WINDOW_INSET - run) / 2.0)
  }

  function PaneAt(wall: string, n: nat, pane: real, k: nat): Window
    requires n > 0
  {
    Window(wall, Finite(FirstPane(wall, n, pane) + Copies(k, pane + WINDOW_GAP)), Finite(pane))
  }

  /** The panes of one wall, left to right. */
  function Panes(u: Stream, i: nat, wall: string): (ws: seq<Window>)
    ensures |ws| == PaneCount(u, i)
  {
    var n := PaneCount(u, i);
    seq(n, k requires 0 <= k < n => PaneAt(wall, n, PaneLength(u, i, wall), k))
  }

  lemma ShareIsAPane(wall: string, n: nat)
    requires wall in WALLS && 2 <= n <= 4
    ensures Share(wall, n) >= 3.0
    ensures Copies(n, Share(wall, n)) + Copies(n - 1, WINDOW_GAP) == WallLength(wall) - 2.0 * WINDOW_INSET
  {
    var usable := WallLength(wall) - 2.0 * WINDOW_INSET;
    if n == 2 { assert Share(wall, 2) == (usable - 0.75) / 2.0; }
    else if n == 3 { assert Share(wall, 3) == (usable - 1.5) / 3.0; }
    else { assert Share(wall, 4) == (usable - 2.25) / 4.0; }
  }

  /** n panes of a length no more than their share fit the wall and keep their distance. */
  lemma WallOfPanes(wall: string, n: nat, pane: real, j: nat, k: nat)
    requires wall in WALLS && 2 <= n <= 4 && PANE_MIN <= pane <= Share(wall, n) && j < k < n
    ensures WindowFits(PaneAt(wall, n, pane, j)) && WindowFits(PaneAt(wall, n, pane, k))
    ensures !PanesCollide(PaneAt(wall, n, pane, j), PaneAt(wall, n, pane, k))
  {
    hide SnapDown, Copies, Share;
    ShareIsAPane(wall, n);
    CopiesAre(pane);
    CopiesAre(pane + WINDOW_GAP);
    CopiesAre(WINDOW_GAP);
    CopiesAre(Share(wall, n));
    SnapLands((WallLength(wall) - 2.0 * WINDOW_INSET - Copies(n, pane) - Copies(n - 1, WINDOW_GAP)) / 2.0);
  }

  lemma PaneLengthFits(u: Stream, i: nat, wall: string)
    requires wall in WALLS
    ensures PANE_MIN <= PaneLength(u, i, wall) <= Share(wall, PaneCount(u, i))
  {
    hide SnapDown, Copies, Share, DrawSide;
    DrawSideInRange(u, i + 1, (PANE_MIN, PANE_MAX));
    ShareIsAPane(wall, PaneCount(u, i));
    SnapLands(Share(wall, PaneCount(u, i)));
  }

  predicate OnWall(ws: seq<Window>, wall: string) { forall k :: 0 <= k < |ws| ==> ws[k].wall == wall }

  lemma PanesFit(u: Stream, i: nat, wall: string)
    requires wall in WALLS
    ensures GlazingFits(Panes(u, i, wall)) && OnWall(Panes(u, i, wall), wall)
    ensures PANES_MIN <= |Panes(u, i, wall)| <= PANES_MAX
  {
    hide WindowFits, PanesCollide, PaneAt, PaneLength, Share;
    var n, pane := PaneCount(u, i), PaneLength(u, i, wall);
    PaneLengthFits(u, i, wall);
    forall j, k | 0 <= j < k < n
      ensures WindowFits(PaneAt(wall, n, pane, j)) && WindowFits(PaneAt(wall, n, pane, k))
      ensures !PanesCollide(PaneAt(wall, n, pane, j), PaneAt(wall, n, pane, k))
    {
      WallOfPanes(wall, n, pane, j, k);
    }
    forall k | 0 <= k < n ensures WindowFits(Panes(u, i, wall)[k]) && Panes(u, i, wall)[k].wall == wall {
      WallOfPanes(wall, n, pane, if k == 0 then 0 else k - 1, if k == 0 then 1 else k);
      PaneWall(wall, n, pane, k);
    }
  }

  lemma PaneWall(wall: string, n: nat, pane: real, k: nat)
    requires n > 0
    ensures PaneAt(wall, n, pane, k).wall == wall
  {}

  function GlazingOf(u: Stream, i: nat): seq<Window> {
    Panes(u, i, WALLS[0]) + Panes(u, i + 2, WALLS[1]) + Panes(u, i + 4, WALLS[2])
  }

  /** Whatever is drawn, the three walls are glazed legally, with six to twelve panes. */
  lemma GlazingIsLegal(u: Stream, i: nat)
    ensures GlazingFits(GlazingOf(u, i)) && 3 * PANES_MIN <= |GlazingOf(u, i)| <= MAX_WINDOWS
  {
    hide Panes, WindowFits;
    PanesFit(u, i, WALLS[0]);
    PanesFit(u, i + 2, WALLS[1]);
    PanesFit(u, i + 4, WALLS[2]);
    assert WALLS[0][0] == 't' && WALLS[1][0] == 'l' && WALLS[2][0] == 'r';
    GlazingJoins(Panes(u, i, WALLS[0]), Panes(u, i + 2, WALLS[1]), WALLS[0], WALLS[1], WALLS[1]);
    GlazingJoins(Panes(u, i, WALLS[0]) + Panes(u, i + 2, WALLS[1]), Panes(u, i + 4, WALLS[2]), WALLS[0], WALLS[1],
        WALLS[2]);
  }

  lemma GlazingJoins(a: seq<Window>, b: seq<Window>, w1: string, w2: string, wall: string)
    requires GlazingFits(a) && GlazingFits(b) && OnWall(b, wall)
    requires forall k :: 0 <= k < |a| ==> a[k].wall != wall
    ensures GlazingFits(a + b)
  {
    hide WindowFits;
  }

  /** The panes of one wall, one after another. */
  method GlazeWall(u: Stream, i: nat, wall: string) returns (ws: seq<Window>)
    ensures ws == Panes(u, i, wall)
  {
    hide PaneLength, FirstPane, Copies;
    var n := PaneCount(u, i);
    var pane := PaneLength(u, i, wall);
    var at := FirstPane(wall, n, pane);
    ws := [];
    for k := 0 to n
      invariant |ws| == k && forall j :: 0 <= j < k ==> ws[j] == PaneAt(wall, n, pane, j)
    {
      ws := ws + [Window(wall, Finite(at + Copies(k, pane + WINDOW_GAP)), Finite(pane))];
    }
  }

  /** The panes of the first k walls. */
  function Glazed(u: Stream, i: nat, k: nat): seq<Window>
    requires k <= |WALLS|
  {
    if k == 0 then [] else Glazed(u, i, k - 1) + Panes(u, i + 2 * (k - 1), WALLS[k-1])
  }

  lemma GlazedIsTheGlazing(u: Stream, i: nat)
    ensures Glazed(u, i, |WALLS|) == GlazingOf(u, i)
  {
    hide Panes;
    assert Glazed(u, i, 1) == Panes(u, i, WALLS[0]);
    assert Glazed(u, i, 2) == Panes(u, i, WALLS[0]) + Panes(u, i + 2, WALLS[1]);
  }

  method Glazing(u: Stream, i: nat) returns (out: seq<Window>, next: nat)
    ensures out == GlazingOf(u, i) && next == i + 6
    ensures GlazingFits(out) && |out| <= MAX_WINDOWS
  {
    hide Panes, GlazingOf, GlazingFits;
    out, next := [], i;
    for w := 0 to |WALLS|
      invariant next == i + 2 * w && out == Glazed(u, i, w)
    {
      var panes := GlazeWall(u, next, WALLS[w]);
      out := out + panes;
      next := next + 2;
    }
    GlazedIsTheGlazing(u, i);
    GlazingIsLegal(u, i);
  }

  // ---- The wish list ----

  function TailWants(u: Stream, i: nat, n: nat): (ws: seq<Want>)
    ensures |ws| == n
  {
    seq(n, k requires 0 <= k < n => Want(TAIL_POOL[Intn(u, i + k, |TAIL_POOL|)], Drawn))
  }

  /** Four guaranteed objects while the floor is empty, then nine to fifteen drawn from the pool. */
  function WishList(u: Stream, i: nat): (r: (seq<Want>, nat))
    ensures 4 + TAIL_MIN <= |r.0| <= 4 + TAIL_MAX
  {
    var n := TAIL_MIN + Intn(u, i, TAIL_MAX - TAIL_MIN + 1);
    ([Want(Run, Across), Want(Run, Down), Want(Tree, Drawn), Want(Flower, Drawn)] + TailWants(u, i + 1, n), i + 1 + n)
  }

  // ---- Accepting a candidate ----

  /** The cheap half of the validator, asked of one candidate. */
  predicate RoomFor(placed: seq<Solid>, cand: Rect)
    requires AllFinite(placed)
  {
    && WallGap(cand) >= MIN_GAP
    && (forall i :: 0 <= i < |placed| ==> SepAxis(RectOf(placed[i]), cand) >= MIN_GAP)
    && (forall k :: 0 <= k < |FIXED_POINTS| ==> PointGapSquared(cand, FIXED_POINTS[k]) >= SPOT_CLEAR * SPOT_CLEAR)
  }

  method HasRoom(placed: seq<Solid>, cand: Rect) returns (ok: bool)
    requires AllFinite(placed)
    ensures ok <==> RoomFor(placed, cand)
  {
    hide WallGap, SepAxis, PointGapSquared;
    if WallGap(cand) < MIN_GAP { return false; }
    for i := 0 to |placed|
      invariant forall j :: 0 <= j < i ==> SepAxis(RectOf(placed[j]), cand) >= MIN_GAP
    {
      if SepAxis(RectOf(placed[i]), cand) < MIN_GAP { return false; }
    }
    for k := 0 to |FIXED_POINTS|
      invariant forall j :: 0 <= j < k ==> PointGapSquared(cand, FIXED_POINTS[j]) >= SPOT_CLEAR * SPOT_CLEAR
    {
      if PointGapSquared(cand, FIXED_POINTS[k]) < SPOT_CLEAR * SPOT_CLEAR { return false; }
    }
    ok := true;
  }

  function Grown(l: Layout, cand: Solid): Layout { l.(solids := l.solids + [cand]) }

  /** On a legal floor with room in the count, the cheap rules reject exactly what the whole validator rejects. */
  lemma RoomForIsExact(l: Layout, cand: Solid)
    requires Legal(l) && SolidFits(cand) && |l.solids| < MAX_SOLIDS
    ensures RoomFor(l.solids, RectOf(cand)) <==> Legal(Grown(l, cand))
  {
    hide WallGap, SepAxis, PointGapSquared, OnePlace, NavGrid, WindowFits;
    var grown, rects := Grown(l, cand), Rects(l);
    LegalIsLocal(l);
    LegalIsLocal(grown);
    assert Sane(grown);
    assert Rects(grown) == rects + [RectOf(cand)];
    var all, last := Rects(grown), |rects|;
    assert all[last] == RectOf(cand);
    if RoomFor(l.solids, RectOf(cand)) {
      forall i, j | 0 <= i < j < |all| ensures SepAxis(all[i], all[j]) >= MIN_GAP {}
      forall i, k | 0 <= i < |all| && 0 <= k < |FIXED_POINTS|
        ensures PointGapSquared(all[i], FIXED_POINTS[k]) >= SPOT_CLEAR * SPOT_CLEAR {}
    }
    if Legal(grown) { LegalLeavesRoom(l, cand); }
  }

  lemma LegalLeavesRoom(l: Layout, cand: Solid)
    requires Sane(l) && FiniteSolid(cand) && Legal(Grown(l, cand))
    ensures RoomFor(l.solids, RectOf(cand))
  {
    hide WallGap, SepAxis, PointGapSquared, OnePlace, NavGrid, WindowFits;
    var all, last := Rects(Grown(l, cand)), |l.solids|;
    assert all[last] == RectOf(cand);
    assert WallGap(all[last]) >= MIN_GAP;
    forall i | 0 <= i < |l.solids| ensures SepAxis(RectOf(l.solids[i]), RectOf(cand)) >= MIN_GAP {
      assert all[i] == RectOf(l.solids[i]);
      assert SepAxis(all[i], all[last]) >= MIN_GAP;
    }
    forall k | 0 <= k < |FIXED_POINTS|
        ensures PointGapSquared(RectOf(cand), FIXED_POINTS[k]) >= SPOT_CLEAR * SPOT_CLEAR {
      assert PointGapSquared(all[last], FIXED_POINTS[k]) >= SPOT_CLEAR * SPOT_CLEAR;
    }
  }

  /** What a candidate is put to: the shipped order, the validator alone, or the cheap rules alone. */
  datatype Check = RoomThenValidate | ValidateOnly | RoomOnly

  ghost predicate Accepts(check: Check, l: Layout, cand: Solid)
    requires AllFinite(l.solids) && FiniteSolid(cand)
  {
    match check
    case RoomThenValidate => RoomFor(l.solids, RectOf(cand)) && Legal(Grown(l, cand))
    case ValidateOnly => Legal(Grown(l, cand))
    case RoomOnly => RoomFor(l.solids, RectOf(cand))
  }

  /** One object of the wish list: up to `tries` proposals, the first accepted one kept. */
  ghost function PlaceOne(check: Check, u: Stream, i: nat, want: Want, l: Layout, tries: nat): (r: (Layout, nat))
    requires AllOnLattice(l.solids)
    ensures AllOnLattice(r.0.solids) && r.0.windows == l.windows && |r.0.solids| <= |l.solids| + 1
    decreases tries
  {
    if tries == 0 then (l, i)
    else
      var (cand, j) := DrawSolid(u, i, want, l.solids);
      DrawnFits(u, i, want, l.solids);
      if Accepts(check, l, cand) then (Grown(l, cand), j)
      else PlaceOne(check, u, j, want, l, tries - 1)
  }

  ghost function PlaceAll(check: Check, u: Stream, i: nat, wants: seq<Want>, l: Layout): (out: Layout)
    requires AllOnLattice(l.solids)
    ensures AllOnLattice(out.solids) && out.windows == l.windows && |out.solids| <= |l.solids| + |wants|
    decreases |wants|
  {
    if wants == [] then l
    else
      var (next, j) := PlaceOne(check, u, i, wants[0], l, PLACE_TRIES);
      PlaceAll(check, u, j, wants[1..], next)
  }

  ghost function Office(check: Check, u: Stream): Result<Layout, ThinFloor> {
    var (wants, i) := WishList(u, 6);
    var l := PlaceAll(check, u, i, wants, Layout([], GlazingOf(u, 0)));
    if |l.solids| < MIN_SOLIDS then Err(ThinFloor.ThinFloor) else Ok(l)
  }

  lemma {:induction false} PlaceOneAgrees(check: Check, u: Stream, i: nat, want: Want, l: Layout, tries: nat)
    requires AllOnLattice(l.solids) && Legal(l) && |l.solids| < MAX_SOLIDS
    ensures PlaceOne(check, u, i, want, l, tries) == PlaceOne(RoomThenValidate, u, i, want, l, tries)
    ensures Legal(PlaceOne(check, u, i, want, l, tries).0)
    decreases tries
  {
    hide Legal, RoomFor, DrawSolid, SolidFits;
    if tries > 0 {
      var (cand, j) := DrawSolid(u, i, want, l.solids);
      DrawnFits(u, i, want, l.solids);
      RoomForIsExact(l, cand);
      PlaceOneAgrees(check, u, j, want, l, tries - 1);
    }
  }

  lemma {:induction false} PlaceAllAgrees(check: Check, u: Stream, i: nat, wants: seq<Want>, l: Layout)
    requires AllOnLattice(l.solids) && Legal(l) && |l.solids| + |wants| <= MAX_SOLIDS
    ensures PlaceAll(check, u, i, wants, l) == PlaceAll(RoomThenValidate, u, i, wants, l)
    ensures Legal(PlaceAll(check, u, i, wants, l))
    decreases |wants|
  {
    hide Legal, PlaceOne;
    if wants != [] {
      PlaceOneAgrees(check, u, i, wants[0], l, PLACE_TRIES);
      var (next, j) := PlaceOne(check, u, i, wants[0], l, PLACE_TRIES);
      PlaceAllAgrees(check, u, j, wants[1..], next);
    }
  }

  lemma EmptyFloorIsLegal(u: Stream)
    ensures Legal(Layout([], GlazingOf(u, 0))) && AllOnLattice([])
  {
    hide GlazingOf, GlazingFits, OnePlace;
    GlazingIsLegal(u, 0);
    LegalIsLocal(Layout([], GlazingOf(u, 0)));
  }

  /** For every stream of draws: the shortcut, the validator alone and the cheap rules alone all build the same
      office, and an office that is returned is legal, has at least eight objects and stands on the lattice. */
  lemma ShortcutsAreExact(check: Check, u: Stream)
    ensures Office(check, u) == Office(RoomThenValidate, u)
    ensures Office(check, u).Ok? ==>
      var l := Office(check, u).value; Legal(l) && |l.solids| >= MIN_SOLIDS && AllOnLattice(l.solids)
  {
    hide Legal, PlaceAll, GlazingOf, AllOnLattice;
    EmptyFloorIsLegal(u);
    var (wants, i) := WishList(u, 6);
    PlaceAllAgrees(check, u, i, wants, Layout([], GlazingOf(u, 0)));
  }

  method TryPlace(u: Stream, i: nat, want: Want, l: Layout) returns (next: Layout, j: nat)
    requires AllOnLattice(l.solids)
    ensures (next, j) == PlaceOne(RoomThenValidate, u, i, want, l, PLACE_TRIES)
  {
    hide Legal, RoomFor, DrawSolid, SolidFits, SolidOnLattice;
    next, j := l, i;
    for try := 0 to PLACE_TRIES
      invariant next == l
      invariant PlaceOne(RoomThenValidate, u, i, want, l, PLACE_TRIES)
                == PlaceOne(RoomThenValidate, u, j, want, l, PLACE_TRIES - try)
    {
      DrawnFits(u, j, want, l.solids);
      var cand, k := DrawSolid(u, j, want, l.solids).0, DrawSolid(u, j, want, l.solids).1;
      FittingIsFinite(cand);
      j := k;
      var room := HasRoom(l.solids, RectOf(cand));
      if !room { continue; }
      var issues := ValidateLayout(Grown(l, cand));
      if |issues| > 0 { continue; }
      return Grown(l, cand), k;
    }
  }

  lemma FittingIsFinite(s: Solid)
    requires SolidFits(s)
    ensures FiniteSolid(s)
  {}

  /** Build an office from a stream of draws, or refuse a floor too thin to be one. */
  method Generate(u: Stream) returns (r: Result<Layout, ThinFloor>)
    ensures r == Office(RoomThenValidate, u)
    ensures r.Ok? ==> Legal(r.value) && |r.value.solids| >= MIN_SOLIDS && AllOnLattice(r.value.solids)
  {
    hide Legal, PlaceOne, GlazingOf, DrawSolid;
    ShortcutsAreExact(RoomThenValidate, u);
    var windows, i := Glazing(u, 0);
    var l := Layout([], windows);
    var wants, j := WishList(u, i).0, WishList(u, i).1;
    ghost var start, empty := j, l;
    for k := 0 to |wants|
      invariant AllOnLattice(l.solids)
      invariant PlaceAll(RoomThenValidate, u, start, wants, empty) == PlaceAll(RoomThenValidate, u, j, wants[k..], l)
    {
      assert wants[k..][1..] == wants[k+1..];
      l, j := TryPlace(u, j, wants[k], l);
    }
    if |l.solids| < MIN_SOLIDS { return Err(ThinFloor.ThinFloor); }
    r := Ok(l);
  }
}
