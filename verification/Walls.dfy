/** The solid walls: every room's edges, minus the doorways. */
module Walls {
  import opened Wrappers
  import opened Plane
  import opened Levels

  datatype Wall = Wall(vertical: bool, at: real, lo: real, hi: real, sector: nat)

  // ---- One edge ----

  predicate Aligned(p: Portal, e: Wall) { p.vertical == e.vertical && AbsR(p.at - e.at) <= EPS }

  /** The opening leaves this piece whole. */
  predicate Misses(p: Portal, s: Wall) { p.hi <= s.lo + EPS || p.lo >= s.hi - EPS }

  /** A coordinate along the edge is solid. */
  predicate Covered(segs: seq<Wall>, x: real) { exists i :: 0 <= i < |segs| && segs[i].lo <= x <= segs[i].hi }

  /** In none of the aligned openings, to within the slack. */
  predicate OutsideAll(e: Wall, portals: seq<Portal>, x: real) {
    forall i :: 0 <= i < |portals| && Aligned(portals[i], e) ==> x <= portals[i].lo + EPS || x >= portals[i].hi - EPS
  }

  /** In none of the aligned openings, nor within the slack of one. */
  predicate ClearOfAll(e: Wall, portals: seq<Portal>, x: real) {
    forall i :: 0 <= i < |portals| && Aligned(portals[i], e) ==> x < portals[i].lo - EPS || x > portals[i].hi + EPS
  }

  /** A piece of the edge: same line, same room, within it, and longer than the slack if the edge is. */
  predicate PieceOf(s: Wall, e: Wall) {
    && s.vertical == e.vertical && s.at == e.at && s.sector == e.sector && e.lo <= s.lo && s.hi <= e.hi
    && (e.hi - e.lo > EPS ==> s.hi - s.lo > EPS)
  }

  /** What one opening leaves of one piece. */
  function Cut(p: Portal, s: Wall): seq<Wall> {
    if Misses(p, s) then [s]
    else
      (if p.lo > s.lo + EPS then [s.(hi := p.lo)] else [])
      + (if p.hi < s.hi - EPS then [s.(lo := p.hi)] else [])
  }

  function CutEach(p: Portal, segs: seq<Wall>): seq<Wall>
    decreases |segs|
  {
    if segs == [] then [] else Cut(p, segs[0]) + CutEach(p, segs[1..])
  }

  function Subtracted(e: Wall, portals: seq<Portal>): seq<Wall>
    decreases |portals|
  {
    if portals == [] then [e]
    else
      var p, segs := portals[|portals| - 1], Subtracted(e, portals[..|portals| - 1]);
      if Aligned(p, e) then CutEach(p, segs) else segs
  }

  lemma {:induction false} CutEachSnoc(p: Portal, segs: seq<Wall>, s: Wall)
    ensures CutEach(p, segs + [s]) == CutEach(p, segs) + Cut(p, s)
    decreases |segs|
  {
    hide Cut;
    if segs == [] {
      assert segs + [s] == [s] && [s][1..] == [];
    } else {
      CutEachSnoc(p, segs[1..], s);
      assert (segs + [s])[1..] == segs[1..] + [s];
    }
  }

  method SubtractPortals(e: Wall, portals: seq<Portal>) returns (segs: seq<Wall>)
    ensures segs == Subtracted(e, portals)
  {
    segs := [e];
    for i := 0 to |portals|
      invariant segs == Subtracted(e, portals[..i])
    {
      var p := portals[i];
      assert portals[..i+1][..i] == portals[..i];
      if !Aligned(p, e) { continue; }
      var next := [];
      for j := 0 to |segs|
        invariant next == CutEach(p, segs[..j])
      {
        var s := segs[j];
        assert segs[..j+1] == segs[..j] + [s];
        CutEachSnoc(p, segs[..j], s);
        if Misses(p, s) {
          next := next + [s];
          continue;
        }
        if p.lo > s.lo + EPS { next := next + [s.(hi := p.lo)]; }
        if p.hi < s.hi - EPS { next := next + [s.(lo := p.hi)]; }
      }
      assert segs[..|segs|] == segs;
      segs := next;
    }
    assert portals[..|portals|] == portals;
  }

  // ---- Edges minus doorways, exactly ----

  lemma CoveredEither(a: seq<Wall>, b: seq<Wall>, x: real)
    ensures Covered(a + b, x) <==> Covered(a, x) || Covered(b, x)
  {
    if Covered(a, x) {
      var i :| 0 <= i < |a| && a[i].lo <= x <= a[i].hi;
      assert (a + b)[i] == a[i];
    }
    if Covered(b, x) {
      var i :| 0 <= i < |b| && b[i].lo <= x <= b[i].hi;
      assert (a + b)[|a| + i] == b[i];
    }
  }

  lemma CutCovers(p: Portal, s: Wall, x: real)
    ensures Covered(Cut(p, s), x) ==> s.lo <= x <= s.hi && (x <= p.lo + EPS || x >= p.hi - EPS)
    ensures s.lo <= x <= s.hi && (x < p.lo - EPS || x > p.hi + EPS) ==> Covered(Cut(p, s), x)
  {
    var c := Cut(p, s);
    if s.lo <= x <= s.hi && (x < p.lo - EPS || x > p.hi + EPS) {
      if Misses(p, s) { assert c[0] == s; }
      else if x < p.lo - EPS { assert c[0] == s.(hi := p.lo); }
      else { assert c[|c| - 1] == s.(lo := p.hi); }
    }
  }

  lemma {:induction false} CutEachCovers(p: Portal, segs: seq<Wall>, x: real)
    ensures Covered(CutEach(p, segs), x) ==> Covered(segs, x) && (x <= p.lo + EPS || x >= p.hi - EPS)
    ensures Covered(segs, x) && (x < p.lo - EPS || x > p.hi + EPS) ==> Covered(CutEach(p, segs), x)
    decreases |segs|
  {
    hide Cut;
    if segs != [] {
      var s, rest := segs[0], segs[1..];
      CutCovers(p, s, x);
      CutEachCovers(p, rest, x);
      CoveredEither(Cut(p, s), CutEach(p, rest), x);
      CoveredEither([s], rest, x);
      assert [s] + rest == segs;
      assert Covered([s], x) <==> [s][0].lo <= x <= [s][0].hi;
    }
  }

  /** Solid exactly where no doorway is, for any list of openings, up to the slack on each end of each opening. */
  lemma {:induction false} WallsAreEdgesMinusDoorways(e: Wall, portals: seq<Portal>, x: real)
    ensures Covered(Subtracted(e, portals), x) ==> e.lo <= x <= e.hi && OutsideAll(e, portals, x)
    ensures e.lo <= x <= e.hi && ClearOfAll(e, portals, x) ==> Covered(Subtracted(e, portals), x)
    decreases |portals|
  {
    hide CutEach;
    if portals == [] {
      assert Subtracted(e, portals) == [e];
      assert Covered([e], x) <==> [e][0].lo <= x <= [e][0].hi;
    } else {
      var k := |portals| - 1;
      WallsAreEdgesMinusDoorways(e, portals[..k], x);
      CutEachCovers(portals[k], Subtracted(e, portals[..k]), x);
    }
  }

  lemma {:induction false} CutEachPieces(p: Portal, segs: seq<Wall>, e: Wall)
    requires forall i :: 0 <= i < |segs| ==> PieceOf(segs[i], e)
    ensures forall i :: 0 <= i < |CutEach(p, segs)| ==> PieceOf(CutEach(p, segs)[i], e)
    decreases |segs|
  {
    if segs != [] { CutEachPieces(p, segs[1..], e); }
  }

  /** Every output segment is a piece of its own edge, and none is a sliver. */
  lemma {:induction false} OnlyPieces(e: Wall, portals: seq<Portal>)
    ensures forall i :: 0 <= i < |Subtracted(e, portals)| ==> PieceOf(Subtracted(e, portals)[i], e)
    decreases |portals|
  {
    hide CutEach;
    if portals != [] {
      var k := |portals| - 1;
      OnlyPieces(e, portals[..k]);
      CutEachPieces(portals[k], Subtracted(e, portals[..k]), e);
    }
  }

  // ---- The whole building ----

  /** The edge of a room across one axis, on its low or its high side. */
  function EdgeOf(s: Sector, vertical: bool, high: bool): Wall {
    Wall(vertical, if high then High(s, vertical) else Low(s, vertical), Low(s, !vertical), High(s, !vertical), s.id)
  }

  function Edges(s: Sector): (r: seq<Wall>)
    ensures |r| == 4
  {
    [EdgeOf(s, true, false), EdgeOf(s, true, true), EdgeOf(s, false, false), EdgeOf(s, false, true)]
  }

  function SubtractedAll(edges: seq<Wall>, portals: seq<Portal>): seq<Wall>
    decreases |edges|
  {
    if edges == [] then []
    else SubtractedAll(edges[..|edges|-1], portals) + Subtracted(edges[|edges|-1], portals)
  }

  function WallsOf(sectors: seq<Sector>, portals: seq<Portal>): seq<Wall>
    decreases |sectors|
  {
    if sectors == [] then []
    else WallsOf(sectors[..|sectors|-1], portals) + SubtractedAll(Edges(sectors[|sectors|-1]), portals)
  }

  method BuildWalls(l: Level) returns (out: seq<Wall>)
    ensures out == WallsOf(l.sectors, l.portals)
  {
    hide Subtracted, Edges;
    out := [];
    for i := 0 to |l.sectors|
      invariant out == WallsOf(l.sectors[..i], l.portals)
    {
      assert l.sectors[..i+1][..i] == l.sectors[..i];
      var edges, before := Edges(l.sectors[i]), out;
      assert out == before + SubtractedAll(edges[..0], l.portals);
      for j := 0 to |edges|
        invariant out == before + SubtractedAll(edges[..j], l.portals)
      {
        assert edges[..j+1][..j] == edges[..j];
        var segs := SubtractPortals(edges[j], l.portals);
        out := out + segs;
      }
      assert edges[..|edges|] == edges;
    }
    assert l.sectors[..|l.sectors|] == l.sectors;
  }

  /** In a generated level a doorway leaves the walls of every third room alone, even those standing on its line. */
  lemma OpeningsCutOnlyTheirOwn(l: Level, i: nat, r: nat, high: bool)
    requires WellBuilt(l) && i < |l.portals| && r < |l.sectors| && r != l.portals[i].a && r != l.portals[i].b
    ensures var p := l.portals[i]; var e := EdgeOf(l.sectors[r], p.vertical, high); Aligned(p, e) ==> Misses(p, e)
  {
    var p := l.portals[i];
    var a, b, c, v := l.sectors[p.a], l.sectors[p.b], l.sectors[r], p.vertical;
    ApartEitherWay(l, p.a, r);
    ApartEitherWay(l, p.b, r);
    hide WellBuilt;
    assert Joins(p, a, b) && Sized(a) && Sized(b) && Sized(c) by { SizedAndJoined(l, i, r); }
    var e := EdgeOf(c, v, high);
    if Aligned(p, e) && !Misses(p, e) { ThirdRoomOverlaps(p, a, b, c, high); }
  }

  lemma SizedAndJoined(l: Level, i: nat, r: nat)
    requires WellBuilt(l) && i < |l.portals| && r < |l.sectors|
    ensures var p := l.portals[i]; p.a < |l.sectors| && p.b < |l.sectors| && p.b == i + 1
    ensures var p := l.portals[i]; Joins(p, l.sectors[p.a], l.sectors[p.b])
    ensures Sized(l.sectors[l.portals[i].a]) && Sized(l.sectors[l.portals[i].b]) && Sized(l.sectors[r])
  {}

  lemma ApartEitherWay(l: Level, i: nat, j: nat)
    requires WellBuilt(l) && i < |l.sectors| && j < |l.sectors| && i != j
    ensures !Overlap(l.sectors[i], l.sectors[j])
  {
    hide Sized, IsTree;
  }

  /** A third room with a wall on the doorway's line, across the opening, would share area with one of the two. */
  lemma ThirdRoomOverlaps(p: Portal, a: Sector, b: Sector, c: Sector, high: bool)
    requires Joins(p, a, b) && Sized(a) && Sized(b) && Sized(c)
    requires var e := EdgeOf(c, p.vertical, high); Aligned(p, e) && !Misses(p, e)
    ensures Overlap(a, c) || Overlap(b, c)
  {
    assert Low(a, true) == a.minX && Low(a, false) == a.minY && High(a, true) == a.maxX && High(a, false) == a.maxY;
    assert Low(b, true) == b.minX && Low(b, false) == b.minY && High(b, true) == b.maxX && High(b, false) == b.maxY;
    assert Low(c, true) == c.minX && Low(c, false) == c.minY && High(c, true) == c.maxX && High(c, false) == c.maxY;
  }

  /** The doorways of one room. */
  function Own(portals: seq<Portal>, r: nat): seq<Portal>
    decreases |portals|
  {
    if portals == [] then []
    else
      var p, rest := portals[|portals|-1], Own(portals[..|portals|-1], r);
      if p.a == r || p.b == r then rest + [p] else rest
  }

  lemma {:induction false} MissedPiecesStay(p: Portal, segs: seq<Wall>, e: Wall)
    requires Misses(p, e) && forall i :: 0 <= i < |segs| ==> PieceOf(segs[i], e)
    ensures CutEach(p, segs) == segs
    decreases |segs|
  {
    if segs != [] { MissedPiecesStay(p, segs[1..], e); }
  }

  lemma {:induction false} OnlyOwnCut(e: Wall, portals: seq<Portal>, r: nat)
    requires forall i :: 0 <= i < |portals| && portals[i].a != r && portals[i].b != r && Aligned(portals[i], e)
               ==> Misses(portals[i], e)
    ensures Subtracted(e, portals) == Subtracted(e, Own(portals, r))
    decreases |portals|
  {
    hide Aligned, Misses;
    if portals != [] {
      var k := |portals| - 1;
      OnlyOwnCut(e, portals[..k], r);
      var p, own := portals[k], Own(portals[..k], r);
      if p.a == r || p.b == r {
        assert Own(portals, r) == own + [p] && (own + [p])[..|own|] == own;
      } else if Aligned(p, e) {
        OnlyPieces(e, portals[..k]);
        MissedPiecesStay(p, Subtracted(e, portals[..k]), e);
      }
    }
  }

  /** The walls of a generated room are its edges minus its own doorways, and no other doorway of the building. */
  lemma RoomWallsAreExact(l: Level, r: nat, v: bool, high: bool, x: real)
    requires WellBuilt(l) && r < |l.sectors|
    ensures var e := EdgeOf(l.sectors[r], v, high);
            Covered(Subtracted(e, l.portals), x) ==> e.lo <= x <= e.hi && OutsideAll(e, Own(l.portals, r), x)
    ensures var e := EdgeOf(l.sectors[r], v, high);
            e.lo <= x <= e.hi && ClearOfAll(e, Own(l.portals, r), x) ==> Covered(Subtracted(e, l.portals), x)
  {
    hide Covered, Subtracted, WellBuilt, Misses;
    var e := EdgeOf(l.sectors[r], v, high);
    forall i | 0 <= i < |l.portals| && l.portals[i].a != r && l.portals[i].b != r && Aligned(l.portals[i], e)
      ensures Misses(l.portals[i], e)
    {
      OpeningsCutOnlyTheirOwn(l, i, r, high);
    }
    OnlyOwnCut(e, l.portals, r);
    WallsAreEdgesMinusDoorways(e, Own(l.portals, r), x);
  }

  /** Every doorway is really open in both rooms it joins: nothing solid stands inside it. */
  lemma DoorwaysAreOpen(l: Level, i: nat, r: nat, high: bool, x: real)
    requires WellBuilt(l) && i < |l.portals| && r < |l.sectors|
    requires var p := l.portals[i]; Aligned(p, EdgeOf(l.sectors[r], p.vertical, high)) && p.lo + EPS < x < p.hi - EPS
    ensures var e := EdgeOf(l.sectors[r], l.portals[i].vertical, high); !Covered(Subtracted(e, l.portals), x)
  {
    hide Covered, Subtracted, WellBuilt;
    WallsAreEdgesMinusDoorways(EdgeOf(l.sectors[r], l.portals[i].vertical, high), l.portals, x);
  }

  // ---- The walls of a building, point by point ----

  /** A point of a wall. */
  predicate On(w: Wall, p: Vec2) {
    if w.vertical then p.x == w.at && w.lo <= p.y <= w.hi else p.y == w.at && w.lo <= p.x <= w.hi
  }

  /** A point of the outline of a room. */
  predicate OnOutline(s: Sector, p: Vec2) {
    && s.minX <= p.x <= s.maxX && s.minY <= p.y <= s.maxY
    && (p.x == s.minX || p.x == s.maxX || p.y == s.minY || p.y == s.maxY)
  }

  /** In the opening of a doorway, and further from its jambs than the slack. */
  predicate InOpening(d: Portal, p: Vec2, slack: real) {
    && AbsR((if d.vertical then p.x else p.y) - d.at) <= EPS
    && d.lo + slack < (if d.vertical then p.y else p.x) < d.hi - slack
  }

  /** The coordinate along an edge. */
  function AlongEdge(e: Wall, p: Vec2): real { if e.vertical then p.y else p.x }

  lemma {:induction false} SubtractedAllHas(edges: seq<Wall>, portals: seq<Portal>, w: Wall)
    ensures w in SubtractedAll(edges, portals) <==> exists k :: 0 <= k < |edges| && w in Subtracted(edges[k], portals)
    decreases |edges|
  {
    hide Subtracted;
    if edges != [] {
      var n := |edges| - 1;
      SubtractedAllHas(edges[..n], portals, w);
      if k :| 0 <= k < |edges| && w in Subtracted(edges[k], portals) {
        if k < n { assert w in Subtracted(edges[..n][k], portals); }
      }
      if k :| 0 <= k < n && w in Subtracted(edges[..n][k], portals) { assert w in Subtracted(edges[k], portals); }
    }
  }

  lemma {:induction false} WallsOfHasThat(sectors: seq<Sector>, portals: seq<Portal>, r: nat, k: nat, w: Wall)
    requires r < |sectors| && k < 4 && w in Subtracted(Edges(sectors[r])[k], portals)
    ensures w in WallsOf(sectors, portals)
    decreases |sectors|
  {
    hide Subtracted, Edges;
    var n := |sectors| - 1;
    if r < n {
      WallsOfHasThat(sectors[..n], portals, r, k, w);
    } else {
      SubtractedAllHas(Edges(sectors[n]), portals, w);
    }
  }

  lemma {:induction false} WallsOfHasNoOther(sectors: seq<Sector>, portals: seq<Portal>, w: Wall)
    returns (r: nat, k: nat)
    requires w in WallsOf(sectors, portals)
    ensures r < |sectors| && k < 4 && w in Subtracted(Edges(sectors[r])[k], portals)
    decreases |sectors|
  {
    hide Subtracted, Edges;
    var n := |sectors| - 1;
    if w in WallsOf(sectors[..n], portals) {
      r, k := WallsOfHasNoOther(sectors[..n], portals, w);
    } else {
      SubtractedAllHas(Edges(sectors[n]), portals, w);
      var j :| 0 <= j < 4 && w in Subtracted(Edges(sectors[n])[j], portals);
      r, k := n, j;
    }
  }

  /** The outline of a room is its four edges. */
  lemma OutlineIsEdges(s: Sector, p: Vec2)
    requires Sized(s)
    ensures OnOutline(s, p) <==> exists k :: 0 <= k < 4 && On(Edges(s)[k], p)
  {
    assert Low(s, true) == s.minX && Low(s, false) == s.minY && High(s, true) == s.maxX && High(s, false) == s.maxY;
    if OnOutline(s, p) {
      var k := if p.x == s.minX then 0 else if p.x == s.maxX then 1 else if p.y == s.minY then 2 else 3;
      assert On(Edges(s)[k], p);
    }
  }

  lemma PieceIsOnEdge(w: Wall, e: Wall, p: Vec2)
    requires PieceOf(w, e)
    ensures On(w, p) ==> On(e, p) && w.lo <= AlongEdge(e, p) <= w.hi
    ensures On(e, p) && w.lo <= AlongEdge(e, p) <= w.hi ==> On(w, p)
  {}

  lemma OpeningsOf(e: Wall, portals: seq<Portal>, p: Vec2)
    requires On(e, p)
    ensures OutsideAll(e, portals, AlongEdge(e, p)) ==>
              forall i :: 0 <= i < |portals| && portals[i].vertical == e.vertical ==> !InOpening(portals[i], p, EPS)
    ensures (forall i :: 0 <= i < |portals| ==> !InOpening(portals[i], p, -2.0 * EPS)) ==>
              ClearOfAll(e, portals, AlongEdge(e, p))
  {
    if forall i :: 0 <= i < |portals| ==> !InOpening(portals[i], p, -2.0 * EPS) {
      forall i | 0 <= i < |portals| && Aligned(portals[i], e)
        ensures AlongEdge(e, p) < portals[i].lo - EPS || AlongEdge(e, p) > portals[i].hi + EPS
      {
        assert !InOpening(portals[i], p, -2.0 * EPS);
      }
    }
  }

  /** Something solid stands at a point of the building. */
  predicate Solid(l: Level, p: Vec2) {
    exists i :: 0 <= i < |WallsOf(l.sectors, l.portals)| && On(WallsOf(l.sectors, l.portals)[i], p)
  }

  /** An edge of a room that a point lies on, with no doorway open there. */
  predicate Shut(l: Level, p: Vec2, r: nat, k: nat)
    requires r < |l.sectors| && k < 4
  {
    var e := Edges(l.sectors[r])[k];
    On(e, p) && forall i :: 0 <= i < |l.portals| && l.portals[i].vertical == e.vertical ==>
        !InOpening(l.portals[i], p, EPS)
  }

  /** Nothing is solid but the outline of some room, and that nowhere inside an opening that lies along it. */
  lemma OnlyOutlinesAreSolid(l: Level, p: Vec2)
    requires WellBuilt(l) && Solid(l, p)
    ensures exists r: nat, k: nat :: r < |l.sectors| && k < 4 && Shut(l, p, r, k) && OnOutline(l.sectors[r], p)
  {
    hide Subtracted, Edges, WellBuilt, On, OnOutline, InOpening, OutsideAll, ClearOfAll, WallsOf, Covered;
    var ws := WallsOf(l.sectors, l.portals);
    var i :| 0 <= i < |ws| && On(ws[i], p);
    var r, k := WallsOfHasNoOther(l.sectors, l.portals, ws[i]);
    var e := Edges(l.sectors[r])[k];
    OnlyPieces(e, l.portals);
    PieceIsOnEdge(ws[i], e, p);
    CoveredBy(Subtracted(e, l.portals), ws[i], AlongEdge(e, p));
    WallsAreEdgesMinusDoorways(e, l.portals, AlongEdge(e, p));
    OpeningsOf(e, l.portals, p);
    RoomIsSized(l, r);
    OutlineIsEdges(l.sectors[r], p);
    assert Shut(l, p, r, k);
  }

  lemma CoveredBy(segs: seq<Wall>, w: Wall, x: real)
    requires w in segs && w.lo <= x <= w.hi
    ensures Covered(segs, x)
  {}

  /** The outline of every room is solid wherever none of its own doorways is open, to within twice the slack. */
  lemma OutlinesAreSolid(l: Level, p: Vec2, r: nat)
    requires WellBuilt(l) && r < |l.sectors| && OnOutline(l.sectors[r], p)
    requires forall i :: 0 <= i < |l.portals| && (l.portals[i].a == r || l.portals[i].b == r) ==>
               !InOpening(l.portals[i], p, -2.0 * EPS)
    ensures Solid(l, p)
  {
    hide Subtracted, WellBuilt, On, OnOutline, InOpening, OutsideAll, ClearOfAll, WallsOf, Own, Aligned;
    RoomIsSized(l, r);
    OutlineIsEdges(l.sectors[r], p);
    var k :| 0 <= k < 4 && On(Edges(l.sectors[r])[k], p);
    var e := Edges(l.sectors[r])[k];
    OwnAre(l.portals, r);
    var own := Own(l.portals, r);
    forall i | 0 <= i < |own| ensures !InOpening(own[i], p, -2.0 * EPS) {
      assert own[i] in own;
      var j :| 0 <= j < |l.portals| && l.portals[j] == own[i];
    }
    OpeningsOf(e, own, p);
    OnIsAlong(e, p);
    RoomWallsAreExact(l, r, e.vertical, k % 2 == 1, AlongEdge(e, p));
    var segs := Subtracted(e, l.portals);
    var j :| 0 <= j < |segs| && segs[j].lo <= AlongEdge(e, p) <= segs[j].hi;
    OnlyPieces(e, l.portals);
    PieceIsOnEdge(segs[j], e, p);
    WallsOfHasThat(l.sectors, l.portals, r, k, segs[j]);
  }

  lemma {:induction false} OwnAre(portals: seq<Portal>, r: nat)
    ensures forall d :: d in Own(portals, r) ==> d in portals && (d.a == r || d.b == r)
    decreases |portals|
  {
    if portals != [] { OwnAre(portals[..|portals|-1], r); }
  }

  lemma OnIsAlong(e: Wall, p: Vec2)
    ensures On(e, p) ==> e.lo <= AlongEdge(e, p) <= e.hi
  {}

  lemma RoomIsSized(l: Level, r: nat)
    requires WellBuilt(l) && r < |l.sectors|
    ensures Sized(l.sectors[r])
  {}
}
