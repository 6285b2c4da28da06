/** Is this office playable? One predicate over a layout, and the pass that decides it and names every fault. */
module Validate {
  import opened Wrappers
  import opened Sequences
  import opened Plane
  import opened Floor
  import opened Bfs
  import opened Grid

  /** A number as it arrives: an editor can send one that is not finite. */
  datatype Measure = Finite(v: real) | NotFinite

  datatype Solid = Solid(x: Measure, y: Measure, w: Measure, h: Measure, kind: string)

  datatype Window = Window(wall: string, at: Measure, len: Measure)

  datatype Layout = Layout(solids: seq<Solid>, windows: seq<Window>)

  datatype Problem = BadKind | BadSize | OffFloor | TooClose | SpotBlocked | SplitFloor | TooMany | BadWindow

  datatype Issue = Issue(problem: Problem, index: int)

  const WHOLE_LAYOUT: int := -1
  const MAX_ISSUES: nat := 12
  const MAX_SOLIDS: nat := 40
  const MAX_WINDOWS: nat := 12
  const MIN_SOLID_SIDE: real := 0.6
  const MAX_SOLID_SIDE: real := 6.0
  const WINDOW_MIN: real := 1.2
  const WINDOW_EDGE: real := 0.6
  const WINDOW_MULLION: real := 0.6

  const KINDS: seq<string> := ["desk", "flower", "tree"]
  const WALLS: seq<string> := ["top", "left", "right"]

  const BOSS_SPAWN: Vec2 := Vec2(8.0, 20.5)

  /** The three spawns, the two colleagues, and every bottle and hookah spot. */
  const FIXED_POINTS: seq<Vec2> := [
    Vec2(8.0, 4.0), BOSS_SPAWN, Vec2(2.0, 20.0), Vec2(3.0, 2.0), Vec2(13.0, 2.0),
    Vec2(2.2, 6.0), Vec2(13.8, 6.0), Vec2(8.0, 2.0), Vec2(2.2, 15.5), Vec2(13.8, 15.5), Vec2(8.0, 11.0),
    Vec2(8.0, 6.0), Vec2(0.9, 10.5), Vec2(15.1, 10.5), Vec2(8.0, 13.6)]

  function WallLength(wall: string): real { if wall == "top" then OFFICE_W else OFFICE_H }

  predicate FiniteSolid(s: Solid) { s.x.Finite? && s.y.Finite? && s.w.Finite? && s.h.Finite? }

  function RectOf(s: Solid): Rect
    requires FiniteSolid(s)
  {
    Rect(s.x.v, s.y.v, s.w.v, s.h.v)
  }

  predicate SizeFits(s: Solid) {
    && FiniteSolid(s)
    && MIN_SOLID_SIDE <= s.w.v <= MAX_SOLID_SIDE && MIN_SOLID_SIDE <= s.h.v <= MAX_SOLID_SIDE
  }

  predicate SolidFits(s: Solid) {
    s.kind in KINDS && SizeFits(s) && WallGap(RectOf(s)) >= MIN_GAP
  }

  /** Every rectangle can be trusted, so the pairwise and grid passes are worth running. */
  predicate Sane(l: Layout) {
    forall i :: 0 <= i < |l.solids| ==> SolidFits(l.solids[i])
  }

  function Rects(l: Layout): (rects: seq<Rect>)
    requires Sane(l)
    ensures |rects| == |l.solids|
  {
    seq(|l.solids|, i requires 0 <= i < |l.solids| => RectOf(l.solids[i]))
  }

  /** Free space is one region containing the widest body's own start. */
  ghost predicate OnePlace(free: seq<bool>)
    requires |free| == CELLS
  {
    var start := StartCell(free, BOSS_SPAWN);
    start.Some? && forall v: nat :: v < CELLS && free[v] ==> Reaches(Steps(free), CELLS, start.value, v)
  }

  predicate SpotsClear(rects: seq<Rect>) {
    forall i, k :: 0 <= i < |rects| && 0 <= k < |FIXED_POINTS| ==>
      PointGapSquared(rects[i], FIXED_POINTS[k]) >= SPOT_CLEAR * SPOT_CLEAR
  }

  predicate WindowFits(w: Window) {
    && w.wall in WALLS && w.at.Finite? && w.len.Finite?
    && w.len.v >= WINDOW_MIN && WINDOW_EDGE <= w.at.v && w.at.v + w.len.v <= WallLength(w.wall) - WINDOW_EDGE
  }

  predicate PanesCollide(a: Window, b: Window) {
    && a.wall == b.wall && a.at.Finite? && a.len.Finite? && b.at.Finite? && b.len.Finite?
    && a.at.v < b.at.v + b.len.v + WINDOW_MULLION && b.at.v < a.at.v + a.len.v + WINDOW_MULLION
  }

  predicate GlazingFits(windows: seq<Window>) {
    && (forall i :: 0 <= i < |windows| ==> WindowFits(windows[i]))
    && (forall i, j :: 0 <= i < j < |windows| ==> !PanesCollide(windows[i], windows[j]))
  }

  /** The rules of an office that can be played in, as a whole. */
  ghost predicate Legal(l: Layout) {
    && |l.solids| <= MAX_SOLIDS && |l.windows| <= MAX_WINDOWS
    && Sane(l)
    && Spaced(Rects(l), MIN_GAP)
    && SpotsClear(Rects(l))
    && OnePlace(NavGrid(Rects(l)))
    && GlazingFits(l.windows)
  }

  // ---- The individual faults ----

  function SolidFault(s: Solid): Option<Problem> {
    if s.kind !in KINDS then Some(BadKind)
    else if !SizeFits(s) then Some(BadSize)
    else if WallGap(RectOf(s)) < MIN_GAP then Some(OffFloor)
    else None
  }

  /** A pane is at fault by itself, or for colliding with an earlier one that is not. */
  predicate WindowFault(windows: seq<Window>, j: int) {
    0 <= j < |windows| &&
    (!WindowFits(windows[j]) ||
     exists i :: 0 <= i < j && WindowFits(windows[i]) && PanesCollide(windows[i], windows[j]))
  }

  predicate CloseFault(rects: seq<Rect>, j: int) {
    0 <= j < |rects| && exists i :: 0 <= i < j && SepAxis(rects[i], rects[j]) < MIN_GAP
  }

  /** A rectangle too near one of the spots that must stay clear. */
  predicate Crowds(d: Rect, k: nat)
    requires k < |FIXED_POINTS|
  {
    PointGapSquared(d, FIXED_POINTS[k]) < SPOT_CLEAR * SPOT_CLEAR
  }

  predicate SpotFault(rects: seq<Rect>, i: int) {
    && 0 <= i < |rects|
    && exists k :: 0 <= k < |FIXED_POINTS| && Crowds(rects[i], k)
  }

  predicate Oversized(l: Layout) { |l.solids| > MAX_SOLIDS || |l.windows| > MAX_WINDOWS }

  /** What is wrong with a layout, fault by fault; a payload too large or a floor that cannot be trusted hides the
      rest. */
  ghost predicate Fault(l: Layout, issue: Issue) {
    if Oversized(l) then issue == Issue(TooMany, WHOLE_LAYOUT)
    else match issue.problem
      case BadKind => 0 <= issue.index < |l.solids| && SolidFault(l.solids[issue.index]) == Some(BadKind)
      case BadSize => 0 <= issue.index < |l.solids| && SolidFault(l.solids[issue.index]) == Some(BadSize)
      case OffFloor => 0 <= issue.index < |l.solids| && SolidFault(l.solids[issue.index]) == Some(OffFloor)
      case TooClose => Sane(l) && CloseFault(Rects(l), issue.index)
      case SpotBlocked => Sane(l) && SpotFault(Rects(l), issue.index)
      case SplitFloor => Sane(l) && issue.index == WHOLE_LAYOUT && !OnePlace(NavGrid(Rects(l)))
      case BadWindow => Sane(l) && WindowFault(l.windows, issue.index)
      case TooMany => false
  }

  /** No fault at all is exactly legality. */
  lemma LegalIffFaultless(l: Layout)
    ensures Legal(l) <==> forall issue :: !Fault(l, issue)
  {
    hide Legal, Fault;
    if Legal(l) {
      forall issue ensures !Fault(l, issue) { LegalHasNoFault(l, issue); }
    } else {
      var issue := SomeFault(l);
    }
  }

  lemma LegalHasNoFault(l: Layout, issue: Issue)
    requires Legal(l)
    ensures !Fault(l, issue)
  {
    hide OnePlace, NavGrid, SepAxis, PointGapSquared, WallGap, SizeFits, WindowFits, PanesCollide, Rects;
    match issue.problem
    case BadKind => SaneIsFaultless(l);
    case BadSize => SaneIsFaultless(l);
    case OffFloor => SaneIsFaultless(l);
    case TooClose =>
    case SpotBlocked =>
    case SplitFloor =>
    case BadWindow =>
    case TooMany =>
  }

  lemma SaneIsFaultless(l: Layout)
    ensures Sane(l) <==> forall i :: 0 <= i < |l.solids| ==> SolidFault(l.solids[i]).None?
  {
    hide WallGap, SizeFits;
  }

  lemma SomeFault(l: Layout) returns (issue: Issue)
    requires !Legal(l)
    ensures Fault(l, issue)
  {
    hide OnePlace, NavGrid, SepAxis, PointGapSquared, WallGap, SolidFault, SizeFits, WindowFits, PanesCollide, Spaced,
        SpotsClear, GlazingFits, Rects, SolidFits, WindowFault;
    if Oversized(l) {
      issue := Issue(TooMany, WHOLE_LAYOUT);
    } else if !Sane(l) {
      SaneIsFaultless(l);
      var i :| 0 <= i < |l.solids| && SolidFault(l.solids[i]).Some?;
      FaultOfASolid(l.solids[i]);
      issue := Issue(SolidFault(l.solids[i]).value, i);
    } else if !Spaced(Rects(l), MIN_GAP) {
      var j := CloseFaultOf(l);
      issue := Issue(TooClose, j);
    } else if !SpotsClear(Rects(l)) {
      var i := SpotFaultOf(Rects(l));
      issue := Issue(SpotBlocked, i);
    } else if !OnePlace(NavGrid(Rects(l))) {
      issue := Issue(SplitFloor, WHOLE_LAYOUT);
    } else {
      GlazingFault(l.windows);
      var j :| WindowFault(l.windows, j);
      issue := Issue(BadWindow, j);
    }
  }

  lemma FaultOfASolid(s: Solid)
    requires SolidFault(s).Some?
    ensures SolidFault(s).value in {BadKind, BadSize, OffFloor}
  {
    hide WallGap, SizeFits;
  }

  lemma CloseFaultOf(l: Layout) returns (j: int)
    requires Sane(l) && !Spaced(Rects(l), MIN_GAP)
    ensures CloseFault(Rects(l), j)
  {
    hide SepAxis, WallGap;
    var rects := Rects(l);
    var i, k :| 0 <= i < k < |rects| && SepAxis(rects[i], rects[k]) < MIN_GAP;
    j := k;
  }

  lemma SpotFaultOf(rects: seq<Rect>) returns (i: int)
    requires !SpotsClear(rects)
    ensures SpotFault(rects, i)
  {
    hide PointGapSquared;
    var j, k :| 0 <= j < |rects| && 0 <= k < |FIXED_POINTS|
        && PointGapSquared(rects[j], FIXED_POINTS[k]) < SPOT_CLEAR * SPOT_CLEAR;
    assert Crowds(rects[j], k);
    i := j;
  }

  lemma GlazingFault(windows: seq<Window>)
    requires !GlazingFits(windows)
    ensures exists j :: WindowFault(windows, j)
  {
    if j :| 0 <= j < |windows| && !WindowFits(windows[j]) {
      assert WindowFault(windows, j);
    } else {
      var i, j :| 0 <= i < j < |windows| && PanesCollide(windows[i], windows[j]);
      assert WindowFault(windows, j);
    }
  }

  // ---- The passes ----

  function Added(out: seq<Issue>, p: Problem, i: int): seq<Issue> {
    if |out| < MAX_ISSUES then out + [Issue(p, i)] else out
  }

  /** Reported, or crowded out by the cap. */
  predicate Covered(out: seq<Issue>, p: Problem, i: int) {
    Issue(p, i) in out || |out| == MAX_ISSUES
  }

  ghost predicate Genuine(l: Layout, out: seq<Issue>) {
    |out| <= MAX_ISSUES && forall k :: 0 <= k < |out| ==> Fault(l, out[k])
  }

  lemma AddKeeps(l: Layout, out: seq<Issue>, p: Problem, i: int)
    requires Genuine(l, out) && Fault(l, Issue(p, i))
    ensures Genuine(l, Added(out, p, i)) && Covered(Added(out, p, i), p, i)
    ensures forall q: Problem, j: int :: Covered(out, q, j) ==> Covered(Added(out, p, i), q, j)
    ensures |Added(out, p, i)| > 0
  {}

  method SolidPass(l: Layout) returns (out: seq<Issue>, sane: bool)
    requires !Oversized(l)
    ensures Genuine(l, out) && (sane <==> Sane(l)) && (!sane ==> |out| > 0)
    ensures forall i :: 0 <= i < |l.solids| && SolidFault(l.solids[i]).Some? ==>
            Covered(out, SolidFault(l.solids[i]).value, i)
    ensures sane ==> out == []
  {
    hide Covered, WallGap;
    out, sane := [], true;
    for i := 0 to |l.solids|
      invariant Genuine(l, out) && (!sane ==> |out| > 0) && (sane ==> out == [])
      invariant sane <==> forall j :: 0 <= j < i ==> SolidFits(l.solids[j])
      invariant forall j :: 0 <= j < i && SolidFault(l.solids[j]).Some? ==>
                Covered(out, SolidFault(l.solids[j]).value, j)
    {
      var s := l.solids[i];
      if s.kind !in KINDS {
        AddKeeps(l, out, BadKind, i);
        out, sane := Added(out, BadKind, i), false;
        continue;
      }
      if !FiniteSolid(s) || s.w.v < MIN_SOLID_SIDE || s.h.v < MIN_SOLID_SIDE
         || s.w.v > MAX_SOLID_SIDE || s.h.v > MAX_SOLID_SIDE {
        AddKeeps(l, out, BadSize, i);
        out, sane := Added(out, BadSize, i), false;
        continue;
      }
      if WallGap(RectOf(s)) < MIN_GAP {
        AddKeeps(l, out, OffFloor, i);
        out, sane := Added(out, OffFloor, i), false;
      }
    }
  }

  method GapPass(l: Layout, rects: seq<Rect>, before: seq<Issue>) returns (out: seq<Issue>)
    requires !Oversized(l) && Sane(l) && rects == Rects(l) && Genuine(l, before)
    ensures Genuine(l, out)
    ensures forall q: Problem, k: int :: Covered(before, q, k) ==> Covered(out, q, k)
    ensures forall j :: CloseFault(rects, j) ==> Covered(out, TooClose, j)
  {
    hide Covered, SepAxis;
    out := before;
    for i := 0 to |rects|
      invariant Genuine(l, out)
      invariant forall q: Problem, k: int :: Covered(before, q, k) ==> Covered(out, q, k)
      invariant forall a, b :: 0 <= a < i && a < b < |rects| && SepAxis(rects[a], rects[b]) < MIN_GAP ==>
                Covered(out, TooClose, b)
    {
      for j := i + 1 to |rects|
        invariant Genuine(l, out)
        invariant forall q: Problem, k: int :: Covered(before, q, k) ==> Covered(out, q, k)
        invariant forall a, b :: 0 <= a < i && a < b < |rects| && SepAxis(rects[a], rects[b]) < MIN_GAP ==>
                  Covered(out, TooClose, b)
        invariant forall b :: i < b < j && SepAxis(rects[i], rects[b]) < MIN_GAP ==> Covered(out, TooClose, b)
      {
        if SepAxis(rects[i], rects[j]) < MIN_GAP {
          AddKeeps(l, out, TooClose, j);
          out := Added(out, TooClose, j);
        }
      }
    }
  }

  method SpotPass(l: Layout, rects: seq<Rect>, before: seq<Issue>) returns (out: seq<Issue>)
    requires !Oversized(l) && Sane(l) && rects == Rects(l) && Genuine(l, before)
    ensures Genuine(l, out)
    ensures forall q: Problem, k: int :: Covered(before, q, k) ==> Covered(out, q, k)
    ensures forall i :: SpotFault(rects, i) ==> Covered(out, SpotBlocked, i)
  {
    hide Covered, PointGapSquared;
    out := before;
    for k := 0 to |FIXED_POINTS|
      invariant Genuine(l, out)
      invariant forall q: Problem, m: int :: Covered(before, q, m) ==> Covered(out, q, m)
      invariant forall a, i :: 0 <= a < k && 0 <= i < |rects| && Crowds(rects[i], a) ==> Covered(out, SpotBlocked, i)
    {
      for i := 0 to |rects|
        invariant Genuine(l, out)
        invariant forall q: Problem, m: int :: Covered(before, q, m) ==> Covered(out, q, m)
        invariant forall a, b :: 0 <= a < k && 0 <= b < |rects| && Crowds(rects[b], a) ==> Covered(out, SpotBlocked, b)
        invariant forall b :: 0 <= b < i && Crowds(rects[b], k) ==> Covered(out, SpotBlocked, b)
      {
        if Crowds(rects[i], k) {
          AddKeeps(l, out, SpotBlocked, i);
          out := Added(out, SpotBlocked, i);
        }
      }
    }
  }

  method WindowPass(l: Layout, before: seq<Issue>) returns (out: seq<Issue>)
    requires !Oversized(l) && Sane(l) && Genuine(l, before)
    ensures Genuine(l, out)
    ensures forall q: Problem, k: int :: Covered(before, q, k) ==> Covered(out, q, k)
    ensures forall j :: WindowFault(l.windows, j) ==> Covered(out, BadWindow, j)
  {
    hide Covered;
    out := before;
    var ws := l.windows;
    for i := 0 to |ws|
      invariant Genuine(l, out)
      invariant forall q: Problem, k: int :: Covered(before, q, k) ==> Covered(out, q, k)
      invariant forall a :: 0 <= a < i && !WindowFits(ws[a]) ==> Covered(out, BadWindow, a)
      invariant forall a, b :: 0 <= a < i && a < b < |ws| && WindowFits(ws[a]) && PanesCollide(ws[a], ws[b])
                  ==> Covered(out, BadWindow, b)
    {
      if !WindowFits(ws[i]) {
        AddKeeps(l, out, BadWindow, i);
        out := Added(out, BadWindow, i);
        continue;
      }
      for j := i + 1 to |ws|
        invariant Genuine(l, out)
        invariant forall q: Problem, k: int :: Covered(before, q, k) ==> Covered(out, q, k)
        invariant forall a :: 0 <= a < i && !WindowFits(ws[a]) ==> Covered(out, BadWindow, a)
        invariant forall a, b :: 0 <= a < i && a < b < |ws| && WindowFits(ws[a]) && PanesCollide(ws[a], ws[b])
                    ==> Covered(out, BadWindow, b)
        invariant forall b :: i < b < j && PanesCollide(ws[i], ws[b]) ==> Covered(out, BadWindow, b)
      {
        if ws[j].wall != ws[i].wall || !ws[j].at.Finite? || !ws[j].len.Finite? { continue; }
        if PanesCollide(ws[i], ws[j]) {
          AddKeeps(l, out, BadWindow, j);
          out := Added(out, BadWindow, j);
        }
      }
    }
  }

  /** Every fault, up to the cap, and nothing at all exactly when the layout is legal. */
  method ValidateLayout(l: Layout) returns (out: seq<Issue>)
    ensures |out| <= MAX_ISSUES && forall k :: 0 <= k < |out| ==> Fault(l, out[k])
    ensures |out| < MAX_ISSUES ==> forall issue :: Fault(l, issue) ==> issue in out
    ensures |out| == 0 <==> Legal(l)
  {
    hide SepAxis, PointGapSquared, WallGap, OnePlace, NavGrid;
    if |l.solids| > MAX_SOLIDS || |l.windows| > MAX_WINDOWS {
      out := [Issue(TooMany, WHOLE_LAYOUT)];
      Conclude(l, out);
      return;
    }
    var sane;
    out, sane := SolidPass(l);
    if !sane {
      Conclude(l, out);
      return;
    }
    var rects := Rects(l);
    out := GapPass(l, rects, out);
    out := SpotPass(l, rects, out);
    var one := FloorIsOnePlace(rects);
    if !one {
      AddKeeps(l, out, SplitFloor, WHOLE_LAYOUT);
      out := Added(out, SplitFloor, WHOLE_LAYOUT);
    }
    out := WindowPass(l, out);
    forall issue | Fault(l, issue) ensures Covered(out, issue.problem, issue.index) {}
    Conclude(l, out);
  }

  lemma Conclude(l: Layout, out: seq<Issue>)
    requires Genuine(l, out) && (|out| < MAX_ISSUES ==> forall issue :: Fault(l, issue) ==> issue in out)
    ensures |out| == 0 <==> Legal(l)
  {
    LegalIffFaultless(l);
    if |out| > 0 { assert Fault(l, out[0]); }
  }

  // ---- Counting the reached cells ----

  function CountFree(free: seq<bool>, n: nat): nat
    requires n <= |free|
  {
    if n == 0 then 0 else CountFree(free, n - 1) + if free[n-1] then 1 else 0
  }

  /** Distinct free cells are as many as the free cells exactly when they are all of them. */
  lemma {:induction false} CountedAll(free: seq<bool>, n: nat, queue: seq<nat>)
    requires n <= |free|
    requires Distinct(queue) && forall i :: 0 <= i < |queue| ==> queue[i] < n && free[queue[i]]
    ensures |queue| <= CountFree(free, n)
    ensures |queue| == CountFree(free, n) <==> forall v: nat :: v < n && free[v] ==> v in queue
  {
    if n == 0 {
      DistinctBound(queue, 0);
    } else if i :| 0 <= i < |queue| && queue[i] == n - 1 {
      WithoutMembers(queue, i);
      WithoutDistinct(queue, i);
      CountedAll(free, n - 1, Without(queue, i));
    } else {
      CountedAll(free, n - 1, queue);
    }
  }

  method FloorIsOnePlace(rects: seq<Rect>) returns (one: bool)
    ensures one <==> OnePlace(NavGrid(rects))
  {
    hide Flood, Within, NavGrid, NearestFree, NavCellOf;
    var free := BuildNavGrid(rects);
    var start := StartCell(free, BOSS_SPAWN);
    if start.None? { return false; }
    StartCellIsFree(free, BOSS_SPAWN);
    var queue, reached := FloodFrom(free, start.value);
    var total := 0;
    for v := 0 to CELLS
      invariant total == CountFree(free, v)
    {
      if free[v] { total := total + 1; }
    }
    CountedAll(free, CELLS, queue);
    one := reached == total;
  }

  /** The cells reached from a free cell, each once, with their number. */
  method FloodFrom(free: seq<bool>, start: nat) returns (queue: seq<nat>, reached: nat)
    requires |free| == CELLS && start < CELLS && free[start]
    ensures reached == |queue|
    ensures forall i :: 0 <= i < |queue| ==> queue[i] < CELLS && free[queue[i]]
    ensures forall i, j :: 0 <= i < j < |queue| ==> queue[i] != queue[j]
    ensures forall v: nat :: v < CELLS ==> (v in queue <==> Reaches(Steps(free), CELLS, start, v))
  {
    hide Flood, Within, Neighbour, Touching, Steps;
    ghost var g := Steps(free);
    var seen := new bool[CELLS](_ => false);
    ghost var dist := seq(CELLS, v => if v == start then 0 else -1);
    seen[start] := true;
    queue, reached := [start], 1;
    FloodStarts(g, CELLS, start, dist);
    var head := 0;
    while head < |queue|
      invariant Flood(g, CELLS, start, dist, queue, head) && head <= |queue| && reached == |queue| && |dist| == CELLS
      invariant forall i :: 0 <= i < |queue| ==> queue[i] < CELLS && free[queue[i]]
      invariant forall v :: 0 <= v < CELLS ==> (seen[v] <==> dist[v] >= 0)
      decreases CELLS - head
    {
      FloodFacts(g, CELLS, start, dist, queue, head);
      queue, reached, dist := SeeAround(free, start, seen, dist, queue, head);
      head := head + 1;
    }
    forall v: nat | v < CELLS ensures v in queue <==> Reaches(g, CELLS, start, v) {
      FinishedFlood(g, CELLS, start, dist, queue, v);
      QueueIsReached(g, CELLS, start, dist, queue, head, v);
    }
    FloodFacts(g, CELLS, start, dist, queue, head);
  }

  /** One cell of the flood; the distances are what the proof follows, the marks are what the program keeps. */
  method SeeAround(free: seq<bool>, ghost start: nat, seen: array<bool>, ghost dist: seq<int>, queue: seq<nat>,
                   head: nat)
    returns (grown: seq<nat>, reached: nat, ghost far: seq<int>)
    requires |free| == CELLS && seen.Length == CELLS && |dist| == CELLS && head < |queue|
    requires Flood(Steps(free), CELLS, start, dist, queue, head)
    requires forall i :: 0 <= i < |queue| ==> queue[i] < CELLS && free[queue[i]]
    requires forall v :: 0 <= v < CELLS ==> (seen[v] <==> dist[v] >= 0)
    modifies seen
    ensures |far| == CELLS && Flood(Steps(free), CELLS, start, far, grown, head + 1) && head < |grown|
            && reached == |grown|
    ensures forall i :: 0 <= i < |grown| ==> grown[i] < CELLS && free[grown[i]]
    ensures forall v :: 0 <= v < CELLS ==> (seen[v] <==> far[v] >= 0)
  {
    hide Flood, Within, Touching;
    ghost var g := Steps(free);
    var cur := queue[head];
    grown, reached, far := queue, |queue|, dist;
    for d := 0 to 4
      invariant |far| == CELLS && Flood(g, CELLS, start, far, grown, head) && queue <= grown && reached == |grown|
      invariant forall i :: 0 <= i < |grown| ==> grown[i] < CELLS && free[grown[i]]
      invariant forall v :: 0 <= v < CELLS ==> (seen[v] <==> far[v] >= 0)
      invariant forall j :: 0 <= j < d ==> var v := Neighbour(cur, j); v.Some? && free[v.value] ==> far[v.value] >= 0
    {
      FloodFacts(g, CELLS, start, far, grown, head);
      var n := Neighbour(cur, d);
      if n.None? { continue; }
      if seen[n.value] || !free[n.value] { continue; }
      NeighboursAreEdges(free, cur, n.value);
      FloodVisits(g, CELLS, start, far, grown, head, n.value);
      far := far[n.value := far[cur] + 1];
      seen[n.value] := true;
      reached := reached + 1;
      grown := grown + [n.value];
    }
    forall v: nat | v < CELLS && g(cur, v) ensures far[v] >= 0 {
      NeighboursAreEdges(free, cur, v);
    }
    FloodAdvances(g, CELLS, start, far, grown, head);
  }
}
