/** How an office is furnished: what one proposal is, and which of them end up on the floor. */
module Furnished {
  import opened Wrappers
  import opened Draws
  import opened Floor
  import opened Validate
  import opened OfficeGenerate

  // ---- One proposal ----

  /** A quarter of a metre, a whole number of times. */
  predicate Quarters(v: real, k: int) { v == k as real * 0.25 }

  lemma FloorIs(x: real, k: int)
    ensures x.Floor == k <==> k as real <= x < k as real + 1.0
  {}

  /** The lattice point a number is snapped to is the last one not beyond it. */
  lemma ASnapIsTheLastNotBeyond(v: real, k: int)
    ensures Quarters(SnapDown(v), k) <==> k as real * 0.25 <= v < k as real * 0.25 + 0.25
  {
    FloorIs(v / PLACE_STEP, k);
    var whole, at := v / PLACE_STEP, k as real;
    assert whole == v * 4.0;
    assert SnapDown(v) == whole.Floor as real * 0.25;
    assert Quarters(SnapDown(v), k) <==> whole.Floor as real == at;
    assert at <= whole < at + 1.0 <==> at * 0.25 <= v < at * 0.25 + 0.25;
  }

  /** A side drawn between two lengths: the least, and whole quarters of what the draw adds. */
  predicate SideDrawn(f: real, least: real, most: real, side: real) {
    least <= side && side - least <= f * (most - least) < side - least + 0.25 && OnLattice(side - least)
  }

  lemma DrawSideIs(u: Stream, i: nat, least: real, most: real)
    requires least <= most
    ensures SideDrawn(u(i), least, most, DrawSide(u, i, (least, most)))
  {
    var v := Part(u(i), most - least);
    assert v >= 0.0 by { PartIsNonNegative(u(i), most - least); }
    SnapLands(v);
  }

  lemma PartIsNonNegative(f: real, span: real)
    requires f >= 0.0 && span >= 0.0
    ensures Part(f, span) >= 0.0
  {}

  /** The long side of each kind of object, from its draw. */
  predicate LongDrawn(what: Class, f: real, long: real) {
    match what
    case Run => SideDrawn(f, 4.0, 6.0, long)
    case Desk => SideDrawn(f, 1.5, 3.0, long)
    case Flower => SideDrawn(f, 0.75, 1.0, long)
    case Tree => SideDrawn(f, 1.25, 1.75, long)
  }

  /** What stands in the way of a desk lies the way its wish says, or the way a coin falls; a plant is square. */
  predicate SizeDrawn(u: Stream, i: nat, want: Want, w: real, h: real, next: nat) {
    var plant := want.what == Flower || want.what == Tree;
    var j := if plant then i + 1 else i + 2;
    var long, short := MaxR(w, h), MinR(w, h);
    && LongDrawn(want.what, u(i), long)
    && (if plant then short == long else SideDrawn(u(i + 1), 0.75, 1.0, short))
    && (want.lie == Across ==> w >= h) && (want.lie == Down ==> w <= h)
    && (want.lie == Drawn ==> if u(j) < 0.5 then w <= h else w >= h)
    && next == if want.lie == Drawn then j + 1 else j
  }

  lemma ASizeIsAsDrawn(u: Stream, i: nat, want: Want)
    ensures var (w, h, j) := DrawSize(u, i, want); SizeDrawn(u, i, want, w, h, j)
  {
    hide DrawSide, SideDrawn, Intn;
    DrawSideIs(u, i, LongSide(want.what).0, LongSide(want.what).1);
    DrawSideIs(u, i + 1, 0.75, 1.0);
    DrawSideInRange(u, i, LongSide(want.what));
    DrawSideInRange(u, i + 1, SHORT_SIDE);
    var j := if Square(want.what) then i + 1 else i + 2;
    ACoin(u, j);
  }

  lemma ACoin(u: Stream, j: nat)
    ensures Intn(u, j, 2) == 0 <==> u(j) < 0.5
  {
    assert Part(u(j), 2.0) == u(j) * 2.0;
  }

  /** Where an object is first proposed along one axis: past a face of its host by an aisle of a metre and a half and
      up to one more, or slid along the host's face by up to four tenths of it either way; both in whole quarters. */
  predicate PastFace(f: real, at: real) { 1.5 <= at && at - 1.5 <= f < at - 1.25 && OnLattice(at) }

  predicate SlidAlong(f: real, side: real, off: real) {
    off <= (f * 2.0 - 1.0) * (side * 0.4) < off + 0.25 && OnLattice(off)
  }

  /** A spot against the host: side 0 is past its far end in x, 1 short of its near one, and 2 and 3 the same in y. */
  predicate BesideHost(u: Stream, i: nat, host: Rect, w: real, h: real, x: real, y: real) {
    match Intn(u, i + 1, 4)
    case 0 => PastFace(u(i), x - (host.x + host.w)) && SlidAlong(u(i + 2), host.h, y - host.y)
    case 1 => PastFace(u(i), host.x - (x + w)) && SlidAlong(u(i + 2), host.h, y - host.y)
    case 2 => PastFace(u(i), y - (host.y + host.h)) && SlidAlong(u(i + 2), host.w, x - host.x)
    case _ => PastFace(u(i), host.y - (y + h)) && SlidAlong(u(i + 2), host.w, x - host.x)
  }

  lemma BesideIs(u: Stream, i: nat, host: Rect, w: real, h: real)
    ensures var (x, y) := Beside(u, i, host, w, h); BesideHost(u, i, host, w, h, x, y)
  {
    hide Intn, OnLattice, SnapDown;
    SnapLands(u(i));
    ConstantsOnLattice();
    LatticeSum(MIN_GAP, SnapDown(u(i)));
    assert Part(u(i), AISLE_MAX) == u(i);
    SnapLands(Part(u(i + 2) * 2.0 - 1.0, Part(host.h, SLIDE_FRACTION)));
    SnapLands(Part(u(i + 2) * 2.0 - 1.0, Part(host.w, SLIDE_FRACTION)));
  }

  /** Anywhere an object of this size may stand: the metre and a half every wall is kept clear, and whole quarters of
      what the draw adds. */
  predicate DrawnAlong(f: real, extent: real, size: real, at: real) {
    at - 1.5 <= f * (extent - 3.0 - size) < at - 1.25 && OnLattice(at)
  }

  lemma AnywhereIs(u: Stream, i: nat, w: real, h: real)
    ensures var (x, y) := Anywhere(u, i, w, h); DrawnAlong(u(i), 16.0, w, x) && DrawnAlong(u(i + 1), 22.0, h, y)
  {
    hide OnLattice, SnapDown;
    ConstantsOnLattice();
    SnapLands(Part(u(i), OFFICE_W - 2.0 * MIN_GAP - w));
    SnapLands(Part(u(i + 1), OFFICE_H - 2.0 * MIN_GAP - h));
    LatticeSum(MIN_GAP, SnapDown(Part(u(i), OFFICE_W - 2.0 * MIN_GAP - w)));
    LatticeSum(MIN_GAP, SnapDown(Part(u(i + 1), OFFICE_H - 2.0 * MIN_GAP - h)));
  }

  /** A coordinate brought into the band the wall rule leaves an object: as it is inside it, and its nearer end
      outside. */
  predicate IntoBand(v: real, size: real, extent: real, at: real) {
    if v < 1.5 then at == 1.5 else if v > extent - 1.5 - size then at == extent - 1.5 - size else at == v
  }

  lemma OnFloorIs(v: real, size: real, extent: real)
    requires size + 3.0 <= extent
    ensures IntoBand(v, size, extent, OnFloorAt(v, size, extent))
  {}

  /** One proposal, from its draws: its size; on a floor that has anything, six times in ten a spot beside something
      drawn, and otherwise anywhere; brought onto the floor; of the kind wished for. */
  ghost predicate Proposed(u: Stream, i: nat, want: Want, placed: seq<Solid>, s: Solid, next: nat)
    requires AllFinite(placed)
  {
    && FiniteSolid(s) && s.kind == KindWished(want.what)
    && exists j, x, y :: SizeDrawn(u, i, want, s.w.v, s.h.v, j) && SpotDrawn(u, j, placed, s.w.v, s.h.v, x, y, next)
         && IntoBand(x, s.w.v, 16.0, s.x.v) && IntoBand(y, s.h.v, 22.0, s.y.v)
  }

  function KindWished(what: Class): string {
    if what == Flower then "flower" else if what == Tree then "tree" else "desk"
  }

  predicate SpotDrawn(u: Stream, j: nat, placed: seq<Solid>, w: real, h: real, x: real, y: real, next: nat)
    requires AllFinite(placed)
  {
    if placed == [] then next == j + 2 && DrawnAlong(u(j), 16.0, w, x) && DrawnAlong(u(j + 1), 22.0, h, y)
    else if u(j) < 0.6 then
      next == j + 5 && BesideHost(u, j + 2, RectOf(placed[Intn(u, j + 1, |placed|)]), w, h, x, y)
    else next == j + 3 && DrawnAlong(u(j + 1), 16.0, w, x) && DrawnAlong(u(j + 2), 22.0, h, y)
  }

  lemma AProposalIsAsDrawn(u: Stream, i: nat, want: Want, placed: seq<Solid>)
    requires AllFinite(placed)
    ensures var (s, next) := DrawSolid(u, i, want, placed); Proposed(u, i, want, placed, s, next)
  {
    hide DrawSize, Intn, Beside, Anywhere, BesideHost, DrawnAlong, SizeDrawn, IntoBand, OnFloorAt;
    var (w, h, j) := DrawSize(u, i, want);
    var (s, next) := DrawSolid(u, i, want, placed);
    ASizeIsAsDrawn(u, i, want);
    DrawnSizeFits(u, i, want);
    var x, y;
    if |placed| > 0 && u(j) < ADJACENT_SHARE {
      var host := RectOf(placed[Intn(u, j + 1, |placed|)]);
      x, y := Beside(u, j + 2, host, w, h).0, Beside(u, j + 2, host, w, h).1;
      BesideIs(u, j + 2, host, w, h);
    } else {
      var k := if |placed| > 0 then j + 1 else j;
      x, y := Anywhere(u, k, w, h).0, Anywhere(u, k, w, h).1;
      AnywhereIs(u, k, w, h);
    }
    OnFloorIs(x, w, OFFICE_W);
    OnFloorIs(y, h, OFFICE_H);
    assert SpotDrawn(u, j, placed, w, h, x, y, next);
  }

  // ---- Which proposals stand ----

  /** Where the stream stands after n proposals of one wish. */
  function Past(u: Stream, i: nat, want: Want, placed: seq<Solid>, n: nat): nat
    requires AllFinite(placed)
  {
    if n == 0 then i else DrawSolid(u, Past(u, i, want, placed, n - 1), want, placed).1
  }

  /** The floor with the proposal after n others. */
  function With(u: Stream, i: nat, want: Want, l: Layout, n: nat): Layout
    requires AllFinite(l.solids)
  {
    l.(solids := l.solids + [DrawSolid(u, Past(u, i, want, l.solids, n), want, l.solids).0])
  }

  /** One wish: the first of its twenty-four proposals that leaves a legal floor is kept, and none if none does. */
  ghost predicate Granted(u: Stream, i: nat, want: Want, l: Layout, m: Layout, next: nat, n: nat)
    requires AllFinite(l.solids)
  {
    && n <= 24 && (forall k :: 0 <= k < n ==> !Legal(With(u, i, want, l, k)))
    && if n == 24 then m == l && next == Past(u, i, want, l.solids, 24)
       else m == With(u, i, want, l, n) && Legal(m) && next == Past(u, i, want, l.solids, n + 1)
  }

  lemma {:induction false} PlaceOneGrants(u: Stream, i: nat, want: Want, l: Layout, tried: nat) returns (n: nat)
    requires AllOnLattice(l.solids) && Legal(l) && |l.solids| < MAX_SOLIDS && tried <= 24
    requires forall k :: 0 <= k < tried ==> !Legal(With(u, i, want, l, k))
    ensures var (m, next) := PlaceOne(RoomThenValidate, u, Past(u, i, want, l.solids, tried), want, l, 24 - tried);
            Granted(u, i, want, l, m, next, n)
    decreases 24 - tried
  {
    hide Legal, RoomFor, DrawSolid, SolidFits;
    n := tried;
    if tried < 24 {
      var at := Past(u, i, want, l.solids, tried);
      var (cand, j) := DrawSolid(u, at, want, l.solids);
      DrawnFits(u, at, want, l.solids);
      RoomForIsExact(l, cand);
      assert With(u, i, want, l, tried) == Grown(l, cand);
      if !Legal(Grown(l, cand)) { n := PlaceOneGrants(u, i, want, l, tried + 1); }
    }
  }

  /** What is wished for: a bank across, a bank along, a ficus and a pot, and then nine to fifteen more, two eighths
      banks, four desks, one pots and one ficuses. */
  predicate Wished(u: Stream, i: nat, wants: seq<Want>, next: nat) {
    && |wants| == 13 + Intn(u, i, 7) && next == i + |wants| - 3
    && wants[0] == Want(Run, Across) && wants[1] == Want(Run, Down)
    && wants[2] == Want(Tree, Drawn) && wants[3] == Want(Flower, Drawn)
    && forall k :: 4 <= k < |wants| ==>
         var d := Intn(u, i + k - 3, 8);
         wants[k] == Want(if d < 2 then Run else if d < 6 then Desk else if d == 6 then Flower else Tree, Drawn)
  }

  lemma TheWishesAre(u: Stream, i: nat)
    ensures var (wants, next) := WishList(u, i); Wished(u, i, wants, next)
  {
    hide Intn;
    var (wants, next) := WishList(u, i);
    forall k | 4 <= k < |wants|
      ensures var d := Intn(u, i + k - 3, 8);
              wants[k] == Want(if d < 2 then Run else if d < 6 then Desk else if d == 6 then Flower else Tree, Drawn)
    {
      assert wants[k] == TailWants(u, i + 1, |wants| - 4)[k - 4];
      assert i + 1 + (k - 4) == i + k - 3;
    }
  }

  /** Wish by wish, from the bare glazed floor. */
  ghost predicate Furnishing(u: Stream, wants: seq<Want>, floors: seq<Layout>, at: seq<nat>, tries: seq<nat>) {
    && |floors| == |at| == |wants| + 1 && |tries| == |wants|
    && forall k :: 0 <= k < |wants| ==>
         AllFinite(floors[k].solids) && Granted(u, at[k], wants[k], floors[k], floors[k+1], at[k+1], tries[k])
  }

  lemma {:induction false} FurnishesOn(u: Stream, i: nat, wants: seq<Want>, l: Layout)
    returns (floors: seq<Layout>, at: seq<nat>, tries: seq<nat>)
    requires AllOnLattice(l.solids) && Legal(l) && |l.solids| + |wants| <= MAX_SOLIDS
    ensures Furnishing(u, wants, floors, at, tries) && floors[0] == l && at[0] == i
    ensures floors[|wants|] == PlaceAll(RoomThenValidate, u, i, wants, l)
    decreases |wants|
  {
    hide Legal, PlaceOne, Granted, AllOnLattice;
    floors, at, tries := [l], [i], [];
    if wants != [] {
      PlaceOneAgrees(RoomThenValidate, u, i, wants[0], l, 24);
      var (next, j) := PlaceOne(RoomThenValidate, u, i, wants[0], l, 24);
      var n := PlaceOneGrants(u, i, wants[0], l, 0);
      var fs, as_, ts := FurnishesOn(u, j, wants[1..], next);
      floors, at, tries := [l] + fs, [i] + as_, [n] + ts;
      forall k | 0 <= k < |wants|
        ensures AllFinite(floors[k].solids) && Granted(u, at[k], wants[k], floors[k], floors[k+1], at[k+1], tries[k])
      {
        if k > 0 { assert Granted(u, as_[k-1], wants[1..][k-1], fs[k-1], fs[k], as_[k], ts[k-1]); }
      }
    }
  }

  /** An office from its draws: glazed, and then wish by wish, each granted the first of its proposals that fits;
      refused exactly when fewer than eight objects stand at the end. */
  ghost predicate Furnished(u: Stream, r: Result<Layout, ThinFloor>, wants: seq<Want>, floors: seq<Layout>,
                            at: seq<nat>, tries: seq<nat>)
  {
    && Furnishing(u, wants, floors, at, tries) && Wished(u, 6, wants, at[0])
    && floors[0] == Layout([], Panes(u, 0, "top") + Panes(u, 2, "left") + Panes(u, 4, "right"))
    && var l := floors[|wants|]; if |l.solids| < 8 then r.Err? else r == Ok(l)
  }

  lemma AnOfficeIsFurnishedWishByWish(u: Stream)
    ensures exists wants, floors, at, tries ::
              Furnished(u, Office(RoomThenValidate, u), wants, floors, at, tries)
  {
    hide Legal, PlaceAll, GlazingOf, Panes, AllOnLattice, Wished, Furnishing, WishList;
    EmptyFloorIsLegal(u);
    TheGlazingIsWallByWall(u, 0);
    TheWishesAre(u, 6);
    var (wants, i) := WishList(u, 6);
    WishesAreFew(u, 6);
    var floors, at, tries := FurnishesOn(u, i, wants, Layout([], GlazingOf(u, 0)));
    FurnishingHasFloors(u, wants, floors, at, tries);
    assert Furnished(u, Office(RoomThenValidate, u), wants, floors, at, tries);
  }

  lemma WishesAreFew(u: Stream, i: nat)
    ensures |WishList(u, i).0| <= MAX_SOLIDS
  {}

  lemma FurnishingHasFloors(u: Stream, wants: seq<Want>, floors: seq<Layout>, at: seq<nat>, tries: seq<nat>)
    requires Furnishing(u, wants, floors, at, tries)
    ensures |floors| == |at| == |wants| + 1
  {}

  // ---- The glazing ----

  /** The panes of one wall: two to four, all of one length, drawn from a metre and a half to four but no longer than
      the wall can give each of them, three quarters of a metre apart, and in the middle of the wall to within half a
      metre. */
  predicate WallGlazed(u: Stream, i: nat, wall: string, length: real, ws: seq<Window>, drawn: real) {
    var n := 2 + Intn(u, i, 3);
    && |ws| == n && (forall k :: 0 <= k < n ==> ws[k].wall == wall && ws[k].at.Finite? && ws[k].len == ws[0].len)
    && ws[0].len.Finite? && SideDrawn(u(i + 1), 1.5, 4.0, drawn)
    && var pane, spare := ws[0].len.v, length - 1.5 - (n - 1) as real * 0.75;
       && pane <= drawn && n as real * pane <= spare && (pane < drawn ==> n as real * (pane + 0.25) > spare)
       && (forall k :: 0 < k < n ==> ws[k].at.v == ws[k-1].at.v + pane + 0.75)
       && 0.0 <= (length - ws[n-1].at.v - pane) - ws[0].at.v < 0.5
  }

  lemma PaneIsDrawn(u: Stream, i: nat, wall: string, n: nat)
    requires wall in WALLS && n == PaneCount(u, i)
    ensures var pane, spare := PaneLength(u, i, wall), WallLength(wall) - 1.5 - (n - 1) as real * 0.75;
            && pane <= DrawSide(u, i + 1, (PANE_MIN, PANE_MAX)) && n as real * pane <= spare
            && (pane < DrawSide(u, i + 1, (PANE_MIN, PANE_MAX)) ==> n as real * (pane + 0.25) > spare)
  {
    hide DrawSide, SnapDown;
    ShareIsAPane(wall, n);
    SnapLands(Share(wall, n));
    CopiesAre(WINDOW_GAP);
    CopiesAre(Share(wall, n));
  }

  lemma RunIsCentred(wall: string, n: nat, pane: real)
    requires wall in WALLS && 2 <= n <= 4
    ensures var first := FirstPane(wall, n, pane);
            var last := first + Copies(n - 1, pane + WINDOW_GAP);
            0.0 <= (WallLength(wall) - last - pane) - first < 0.5
  {
    hide SnapDown, Copies;
    CopiesAre(pane);
    CopiesAre(pane + WINDOW_GAP);
    CopiesAre(WINDOW_GAP);
    SnapLands((WallLength(wall) - 2.0 * WINDOW_INSET - (Copies(n, pane) + Copies(n - 1, WINDOW_GAP))) / 2.0);
  }

  lemma PanesStepAlong(wall: string, n: nat, pane: real, k: nat)
    requires 0 < k < n
    ensures PaneAt(wall, n, pane, k).at.v == PaneAt(wall, n, pane, k - 1).at.v + pane + 0.75
  {
    hide FirstPane;
    assert k as real * (pane + WINDOW_GAP) == (k - 1) as real * (pane + WINDOW_GAP) + (pane + WINDOW_GAP);
  }

  lemma PanesAre(u: Stream, i: nat, wall: string)
    ensures var n, pane, ws := PaneCount(u, i), PaneLength(u, i, wall), Panes(u, i, wall);
            && |ws| == n >= 2 && ws[0].at.v == FirstPane(wall, n, pane)
            && ws[n-1].at.v == FirstPane(wall, n, pane) + Copies(n - 1, pane + WINDOW_GAP)
            && (forall k :: 0 <= k < n ==> ws[k].wall == wall && ws[k].at.Finite? && ws[k].len == Finite(pane))
            && forall k :: 0 < k < n ==> ws[k].at.v == ws[k-1].at.v + pane + 0.75
  {
    hide PaneLength, FirstPane;
    var n, pane, ws := PaneCount(u, i), PaneLength(u, i, wall), Panes(u, i, wall);
    forall k | 0 < k < n ensures ws[k].at.v == ws[k-1].at.v + pane + 0.75 { PanesStepAlong(wall, n, pane, k); }
  }

  /** Whichever of the glazed walls it is: sixteen metres at the top, and twenty-two on either side. */
  lemma AWallIsGlazed(u: Stream, i: nat, wall: string)
    requires wall in WALLS
    ensures WallGlazed(u, i, wall, if wall == "top" then 16.0 else 22.0, Panes(u, i, wall),
                       DrawSide(u, i + 1, (PANE_MIN, PANE_MAX)))
  {
    hide DrawSide, PaneLength, FirstPane, Copies, SideDrawn, Panes, Intn;
    var n := PaneCount(u, i);
    PanesAre(u, i, wall);
    DrawSideIs(u, i + 1, PANE_MIN, PANE_MAX);
    PaneIsDrawn(u, i, wall, n);
    RunIsCentred(wall, n, PaneLength(u, i, wall));
  }

  /** The top wall first, and then the left and the right. */
  lemma TheGlazingIsWallByWall(u: Stream, i: nat)
    ensures GlazingOf(u, i) == Panes(u, i, "top") + Panes(u, i + 2, "left") + Panes(u, i + 4, "right")
  {
    hide Panes;
  }
}
