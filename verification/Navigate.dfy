/** Getting round a desk: a flood from the target each tick, and one step downhill through it. */
module Navigate {
  import opened Wrappers
  import opened Plane
  import opened Floor
  import opened Bfs
  import opened Sight
  import opened Grid

  /** A layout as the simulation uses it: the collision list, and the grid derived from it once. */
  datatype Plan = Plan(rects: seq<Rect>, nav: seq<bool>)

  predicate Derived(p: Plan) { p.nav == NavGrid(p.rects) }

  function CellOfPoint(p: Vec2): (n: nat)
    ensures n < CELLS
  {
    var (c, r) := NavCellOf(p);
    CellAt(c, r)
  }

  function CentreOf(n: nat): Vec2 { NavCentre(ColOf(n), RowOf(n)) }

  /** A free neighbour one step closer to the start of the flood. */
  ghost predicate Closer(free: seq<bool>, start: nat, here: nat, d: nat, k: nat, m: nat)
    requires |free| == CELLS && here < CELLS && d > 0 && k < 4
  {
    Neighbour(here, k) == Some(m) && m < CELLS && free[m] && IsDist(Steps(free), CELLS, start, m, d - 1)
  }

  /** m is the first such neighbour in the fixed order of directions. */
  ghost predicate FirstCloser(free: seq<bool>, start: nat, here: nat, d: nat, m: nat)
    requires |free| == CELLS && here < CELLS && d > 0
  {
    exists k: nat :: k < 4 && Closer(free, start, here, d, k, m)
      && forall j: nat, v: nat :: j < k ==> !Closer(free, start, here, d, j, v)
  }

  /** There is a path to take: the line is blocked, the two stand in different cells, and the floor joins them. */
  ghost predicate MustRoute(p: Plan, from: Vec2, to: Vec2)
    requires Derived(p)
  {
    var start, here := StartCell(p.nav, to), CellOfPoint(from);
    && !LineOfSight(p.rects, from, to, BOSS_RADIUS)
    && NavCellOf(from) != NavCellOf(to)
    && start.Some? && start.value != here
    && Reaches(Steps(p.nav), CELLS, start.value, here)
  }

  /** Where he should head: straight at the target, or the middle of the first free neighbour that is one closer. */
  ghost predicate AimIs(p: Plan, from: Vec2, to: Vec2, aim: Vec2)
    requires Derived(p)
  {
    if !MustRoute(p, from, to) then aim == to
    else
      var start, here := StartCell(p.nav, to).value, CellOfPoint(from);
      exists d: nat, m: nat :: d > 0 && IsDist(Steps(p.nav), CELLS, start, here, d)
        && FirstCloser(p.nav, start, here, d, m) && aim == CentreOf(m)
  }

  method NavAimAt(p: Plan, from: Vec2, to: Vec2) returns (aim: Vec2)
    requires Derived(p)
    ensures AimIs(p, from, to, aim)
  {
    hide Flood, Within, IsDist, NavGrid, NearestFree, LineOfSight, Steps, NavCellOf, FirstCloser, Neighbour;
    var clear := ClearLine(p.rects, from, to, BOSS_RADIUS);
    if clear { return to; }
    var free := p.nav;
    if NavCellOf(from) == NavCellOf(to) { return to; }
    var start := Some(CellOfPoint(to));
    if !free[start.value] {
      var (c, r) := NavCellOf(to);
      start := FindNearestFree(free, c, r);
      if start.None? { return to; }
    }
    assert start == StartCell(free, to);
    StartCellIsFree(free, to);
    var goal := CellOfPoint(from);
    aim := FloodAndDescend(free, start.value, goal, to);
  }

  /** The flood from the target and the choice of the next cell. */
  method FloodAndDescend(free: seq<bool>, start: nat, goal: nat, to: Vec2) returns (aim: Vec2)
    requires |free| == CELLS && start < CELLS && free[start] && goal < CELLS
    ensures start == goal || !Reaches(Steps(free), CELLS, start, goal) ==> aim == to
    ensures start != goal && Reaches(Steps(free), CELLS, start, goal) ==>
      exists d: nat, m: nat :: d > 0 && IsDist(Steps(free), CELLS, start, goal, d)
        && FirstCloser(free, start, goal, d, m) && aim == CentreOf(m)
  {
    hide Flood, Within, Neighbour, Touching, Steps, Closer, FirstCloser;
    ghost var g := Steps(free);
    var dist := new int[CELLS](_ => -1);
    dist[start] := 0;
    var queue: seq<nat> := [start];
    FloodStarts(g, CELLS, start, dist[..]);
    var head, found := 0, false;
    while head < |queue|
      invariant Flood(g, CELLS, start, dist[..], queue, head) && head <= |queue|
      invariant forall i :: 0 <= i < |queue| ==> queue[i] < CELLS && free[queue[i]]
      invariant forall i :: 0 <= i < head ==> queue[i] != goal
      decreases CELLS - head
    {
      var cur := queue[head];
      FloodFacts(g, CELLS, start, dist[..], queue, head);
      if cur == goal {
        found := true;
        break;
      }
      queue := ExpandCell(free, start, dist, queue, head);
      head := head + 1;
    }
    if !found {
      FloodMissed(g, start, dist[..], queue, goal);
      return to;
    }
    aim := Descend(free, start, dist[..], queue, head, goal, to);
  }

  lemma FloodMissed(g: Graph, src: nat, dist: seq<int>, queue: seq<nat>, goal: nat)
    requires Flood(g, CELLS, src, dist, queue, |queue|) && goal < CELLS
    requires forall i :: 0 <= i < |queue| ==> queue[i] != goal
    ensures !Reaches(g, CELLS, src, goal)
  {
    FinishedFlood(g, CELLS, src, dist, queue, goal);
  }

  /** One cell of the flood: every free neighbour not yet reached joins the queue, one further out. */
  method ExpandCell(free: seq<bool>, ghost start: nat, dist: array<int>, queue: seq<nat>, head: nat)
      returns (grown: seq<nat>)
    requires |free| == CELLS && dist.Length == CELLS && head < |queue|
    requires Flood(Steps(free), CELLS, start, dist[..], queue, head)
    requires forall i :: 0 <= i < |queue| ==> queue[i] < CELLS && free[queue[i]]
    modifies dist
    ensures Flood(Steps(free), CELLS, start, dist[..], grown, head + 1) && queue <= grown
    ensures forall i :: 0 <= i < |grown| ==> grown[i] < CELLS && free[grown[i]]
  {
    hide Flood, Within, Touching;
    ghost var g := Steps(free);
    var cur := queue[head];
    grown := queue;
    for d := 0 to 4
      invariant Flood(g, CELLS, start, dist[..], grown, head) && queue <= grown
      invariant forall i :: 0 <= i < |grown| ==> grown[i] < CELLS && free[grown[i]]
      invariant forall j :: 0 <= j < d ==>
        var v := Neighbour(cur, j); v.Some? && free[v.value] ==> dist[v.value] >= 0
    {
      FloodFacts(g, CELLS, start, dist[..], grown, head);
      var n := Neighbour(cur, d);
      if n.None? { continue; }
      if dist[n.value] >= 0 || !free[n.value] { continue; }
      NeighboursAreEdges(free, cur, n.value);
      FloodVisits(g, CELLS, start, dist[..], grown, head, n.value);
      ghost var next := dist[..][n.value := dist[cur] + 1];
      dist[n.value] := dist[cur] + 1;
      assert dist[..] == next;
      grown := grown + [n.value];
    }
    forall v: nat | v < CELLS && g(cur, v) ensures dist[..][v] >= 0 {
      NeighboursAreEdges(free, cur, v);
    }
    FloodFacts(g, CELLS, start, dist[..], grown, head);
    FloodAdvances(g, CELLS, start, dist[..], grown, head);
  }

  /** What one more direction tells the descent: a reached neighbour recorded as closer is exactly one closer. */
  lemma RecordedCloser(free: seq<bool>, start: nat, dist: seq<int>, queue: seq<nat>, head: nat, k: nat)
    requires |free| == CELLS && head < |queue| && k < 4
    requires Flood(Steps(free), CELLS, start, dist, queue, head)
    requires queue[head] < CELLS && free[queue[head]] && dist[queue[head]] > 0
    ensures var n := Neighbour(queue[head], k);
            var d := dist[queue[head]];
            && (n.Some? && free[n.value] && 0 <= dist[n.value] < d ==> dist[n.value] == d - 1)
            && (forall v: nat :: Closer(free, start, queue[head], d, k, v) <==>
                 n == Some(v) && free[v] && 0 <= dist[v] < d)
  {
    hide Flood, Within, Neighbour, Touching, IsDist;
    StepsSymmetric(free);
    Downhill(Steps(free), CELLS, start, dist, queue, head);
    var n := Neighbour(queue[head], k);
    if n.Some? { NeighboursAreEdges(free, queue[head], n.value); }
  }

  lemma SomeDirectionIsCloser(free: seq<bool>, start: nat, dist: seq<int>, queue: seq<nat>, head: nat)
    requires |free| == CELLS && head < |queue|
    requires Flood(Steps(free), CELLS, start, dist, queue, head)
    requires queue[head] < CELLS && free[queue[head]] && dist[queue[head]] > 0
    ensures exists k: nat, v: nat :: k < 4 && Closer(free, start, queue[head], dist[queue[head]], k, v)
  {
    hide Flood, Within, Neighbour, Touching, IsDist;
    FloodFacts(Steps(free), CELLS, start, dist, queue, head);
    StepsSymmetric(free);
    Downhill(Steps(free), CELLS, start, dist, queue, head);
    var m: nat :| m < CELLS && Steps(free)(queue[head], m) && 0 <= dist[m] < dist[queue[head]];
    NeighboursAreEdges(free, queue[head], m);
    var k: nat :| k < 4 && Neighbour(queue[head], k) == Some(m);
    RecordedCloser(free, start, dist, queue, head, k);
    assert Closer(free, start, queue[head], dist[queue[head]], k, m);
  }

  /** Downhill from the cell the flood stopped at: the first neighbour recorded as closer. */
  method Descend(free: seq<bool>, ghost start: nat, dist: seq<int>, ghost queue: seq<nat>, ghost head: nat, goal: nat,
                 to: Vec2)
    returns (aim: Vec2)
    requires |free| == CELLS && head < |queue| && queue[head] == goal < CELLS && free[goal]
    requires Flood(Steps(free), CELLS, start, dist, queue, head)
    ensures start == goal ==> aim == to
    ensures start != goal ==>
      Reaches(Steps(free), CELLS, start, goal) &&
      exists d: nat, m: nat :: d > 0 && IsDist(Steps(free), CELLS, start, goal, d)
        && FirstCloser(free, start, goal, d, m) && aim == CentreOf(m)
  {
    hide Flood, Within, Neighbour, Touching, Closer, IsDist;
    FloodFacts(Steps(free), CELLS, start, dist, queue, head);
    HeadIsExact(Steps(free), CELLS, start, dist, queue, head);
    ZeroIsHome(Steps(free), start, dist, queue, head);
    var best: Option<nat> := None;
    var bestD := dist[goal];
    ghost var first := 0;
    for k := 0 to 4
      invariant best.None? ==> bestD == dist[goal]
      invariant dist[goal] > 0 && best.None? ==> forall j: nat, v: nat :: j < k ==>
                !Closer(free, start, goal, dist[goal], j, v)
      invariant best.Some? ==> dist[goal] > 0 && bestD == dist[goal] - 1 && first < 4
      invariant best.Some? ==> Closer(free, start, goal, dist[goal], first, best.value)
      invariant best.Some? ==> forall j: nat, v: nat :: j < first ==> !Closer(free, start, goal, dist[goal], j, v)
    {
      if dist[goal] > 0 { RecordedCloser(free, start, dist, queue, head, k); }
      var n := Neighbour(goal, k);
      if n.None? { continue; }
      if !free[n.value] || dist[n.value] < 0 { continue; }
      if dist[n.value] < bestD {
        best, bestD, first := n, dist[n.value], k;
      }
    }
    if best.None? {
      if dist[goal] > 0 { SomeDirectionIsCloser(free, start, dist, queue, head); }
      return to;
    }
    assert FirstCloser(free, start, goal, dist[goal], best.value);
    CloserIsACell(free, start, goal, dist[goal], first, best.value);
    aim := NavCentre(ColOf(best.value), RowOf(best.value));
  }

  lemma CloserIsACell(free: seq<bool>, start: nat, here: nat, d: nat, k: nat, m: nat)
    requires |free| == CELLS && here < CELLS && d > 0 && k < 4 && Closer(free, start, here, d, k, m)
    ensures m < CELLS
  {}

  lemma ZeroIsHome(g: Graph, src: nat, dist: seq<int>, queue: seq<nat>, head: nat)
    requires Flood(g, CELLS, src, dist, queue, head) && head < |queue|
    ensures dist[queue[head]] >= 0 && (dist[queue[head]] == 0 <==> queue[head] == src)
    ensures Reaches(g, CELLS, src, queue[head])
  {
    assert Within(g, CELLS, src, queue[head], dist[queue[head]]);
  }

  // ---- What the rule buys ----

  lemma CentreIsInItsCell(n: nat)
    requires n < CELLS
    ensures NavCellOf(CentreOf(n)) == (ColOf(n), RowOf(n)) && CellOfPoint(CentreOf(n)) == n
  {
    CellOfParts(n);
    MiddleTruncates(ColOf(n));
    MiddleTruncates(RowOf(n));
  }

  lemma MiddleTruncates(k: int)
    requires k >= 0
    ensures Truncate((k as real + 0.5) * NAV_CELL / NAV_CELL) == k
  {
    assert (k as real + 0.5) * NAV_CELL / NAV_CELL == k as real + 0.5;
  }

  /** Away from the start some neighbour is one closer, and the fixed order names exactly one of them. */
  lemma SomeFirstCloser(free: seq<bool>, start: nat, here: nat, d: nat) returns (m: nat)
    requires |free| == CELLS && start < CELLS && here < CELLS && d > 0 && IsDist(Steps(free), CELLS, start, here, d)
    ensures free[here] && FirstCloser(free, start, here, d, m) && m < CELLS
            && IsDist(Steps(free), CELLS, start, m, d - 1)
    ensures forall v: nat :: FirstCloser(free, start, here, d, v) ==> v == m
  {
    hide Touching, IsDist, Neighbour;
    var g := Steps(free);
    var u := Predecessor(g, CELLS, start, here, d);
    StepsSymmetric(free);
    assert g(here, u);
    NeighboursAreEdges(free, here, u);
    var k: nat :| k < 4 && Neighbour(here, k) == Some(u);
    assert Closer(free, start, here, d, k, u);
    var j := FirstDirection(free, start, here, d, k);
    m := Neighbour(here, j).value;
  }

  /** The first direction that leads closer, given one that does. */
  lemma {:induction false} FirstDirection(free: seq<bool>, start: nat, here: nat, d: nat, k: nat) returns (j: nat)
    requires |free| == CELLS && here < CELLS && d > 0 && k < 4 && exists v: nat :: Closer(free, start, here, d, k, v)
    ensures j < 4 && Neighbour(here, j).Some? && Closer(free, start, here, d, j, Neighbour(here, j).value)
    ensures forall i: nat, v: nat :: i < j ==> !Closer(free, start, here, d, i, v)
    decreases k
  {
    hide IsDist, Neighbour;
    if i: nat, v: nat :| i < k && Closer(free, start, here, d, i, v) {
      j := FirstDirection(free, start, here, d, i);
    } else {
      j := k;
    }
  }

  /** What the aim rule says from the middle of a cell, and that it says nothing else. */
  ghost predicate HeadsFor(p: Plan, from: Vec2, to: Vec2, aim: Vec2)
    requires Derived(p)
  {
    AimIs(p, from, to, aim) && forall other :: AimIs(p, from, to, other) ==> other == aim
  }

  /** From the middle of one cell he heads for the middle of the next, or straight at a target he can see. */
  ghost predicate Leg(p: Plan, to: Vec2, here: nat, next: nat)
    requires Derived(p)
  {
    HeadsFor(p, CentreOf(here), to, if LineOfSight(p.rects, CentreOf(here), to, BOSS_RADIUS) then to
        else CentreOf(next))
  }

  lemma AimFromACentre(p: Plan, to: Vec2, here: nat, d: nat, m: nat)
    requires Derived(p) && StartCell(p.nav, to).Some? && StartCell(p.nav, to).value < CELLS && here < CELLS && d > 0
    requires IsDist(Steps(p.nav), CELLS, StartCell(p.nav, to).value, here, d) && p.nav[here]
    requires FirstCloser(p.nav, StartCell(p.nav, to).value, here, d, m)
    requires forall v: nat :: FirstCloser(p.nav, StartCell(p.nav, to).value, here, d, v) ==> v == m
    ensures Leg(p, to, here, m)
  {
    hide NavGrid, NearestFree, LineOfSight, Steps, NavCellOf, FirstCloser, CentreOf;
    var start := StartCell(p.nav, to).value;
    CentreIsInItsCell(here);
    AtDistanceNotHere(Steps(p.nav), start, here, d);
    if NavCellOf(to) == (ColOf(here), RowOf(here)) { OwnCellIsTheStart(p.nav, to, here); }
    forall e: nat | IsDist(Steps(p.nav), CELLS, start, here, e) ensures e == d {
      DistUnique(Steps(p.nav), CELLS, start, here, d, e);
    }
  }

  lemma AtDistanceNotHere(g: Graph, src: nat, here: nat, d: nat)
    requires d > 0 && src < CELLS && IsDist(g, CELLS, src, here, d)
    ensures here != src && Reaches(g, CELLS, src, here)
  {
    if here == src { DistUnique(g, CELLS, src, src, d, 0); }
  }

  /** A free cell the target stands in is the cell the flood starts from. */
  lemma OwnCellIsTheStart(free: seq<bool>, to: Vec2, here: nat)
    requires |free| == CELLS && here < CELLS && free[here] && NavCellOf(to) == (ColOf(here), RowOf(here))
    ensures StartCell(free, to) == Some(here)
  {
    CellOfParts(here);
  }

  /** Repeated cell by cell, the rule walks to the target's cell in exactly as many moves as there are: from the
      middle of a cell d away the walk of its answers has d moves, each into the middle of the next cell and one
      closer, for as long as the target is out of sight, and at him from the first cell that sees him. */
  lemma {:induction false} AimingCellByCellArrives(p: Plan, to: Vec2, here: nat, d: nat) returns (walk: seq<nat>)
    requires Derived(p) && StartCell(p.nav, to).Some? && StartCell(p.nav, to).value < CELLS && here < CELLS
    requires IsDist(Steps(p.nav), CELLS, StartCell(p.nav, to).value, here, d)
    ensures |walk| == d + 1 && walk[0] == here && walk[d] == StartCell(p.nav, to).value
    ensures forall i :: 0 <= i <= d ==>
            walk[i] < CELLS && IsDist(Steps(p.nav), CELLS, StartCell(p.nav, to).value, walk[i], d - i)
    ensures forall i, j :: 0 <= i < d && j == i + 1 ==> Leg(p, to, walk[i], walk[j])
    decreases d
  {
    hide IsDist, Steps, NavGrid, StartCell, FirstCloser, Leg;
    var start := StartCell(p.nav, to).value;
    if d == 0 {
      NothingIsHere(Steps(p.nav), start, here);
      walk := [here];
    } else {
      var m := SomeFirstCloser(p.nav, start, here, d);
      AimFromACentre(p, to, here, d, m);
      var rest := AimingCellByCellArrives(p, to, m, d - 1);
      walk := [here] + rest;
      forall i | 0 <= i <= d ensures walk[i] < CELLS && IsDist(Steps(p.nav), CELLS, start, walk[i], d - i) {
        if i > 0 { assert walk[i] == rest[i-1]; }
      }
      forall i, j | 0 <= i < d && j == i + 1 ensures Leg(p, to, walk[i], walk[j]) {
        assert walk[j] == rest[i];
        if i > 0 { assert walk[i] == rest[i-1]; }
      }
    }
  }

  lemma NothingIsHere(g: Graph, src: nat, here: nat)
    requires IsDist(g, CELLS, src, here, 0)
    ensures here == src
  {}
}
