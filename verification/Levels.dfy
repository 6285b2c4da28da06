/** The building: rooms grown one doorway at a time from a stream of draws. */
module Levels {
  import opened Wrappers
  import opened Plane
  import opened Draws
  import opened Bfs

  const ROOMS_MIN: nat := 7
  const ROOMS_MAX: nat := 11
  const ROOM_MIN: real := 5.0
  const ROOM_MAX: real := 12.0
  const DOOR_WIDTH: real := 2.0
  const PLAYER_RADIUS: real := 0.35
  const MIN_SHARED_WALL: real := DOOR_WIDTH + 2.0 * PLAYER_RADIUS + 0.6
  const MAX_STEP: real := 0.6
  const FLOOR_STEP: real := 0.3
  /** MAX_STEP in whole steps. */
  const MAX_STEPS: int := 2
  const GENERATION_ATTEMPTS: nat := 400
  const EPS: real := 0.000000001

  /** What the shared wall leaves on either side of the doorway. */
  const JAMB: real := (MIN_SHARED_WALL - DOOR_WIDTH) / 2.0

  datatype Sector = Sector(id: nat, minX: real, minY: real, maxX: real, maxY: real, floorZ: real)

  /** A vertical opening stands at a constant x and spans [lo, hi] of y; a horizontal one the other way round. */
  datatype Portal = Portal(a: nat, b: nat, vertical: bool, at: real, lo: real, hi: real)

  datatype Level = Level(sectors: seq<Sector>, portals: seq<Portal>)

  /** The ends of a room along one axis. */
  function Low(s: Sector, onX: bool): real { if onX then s.minX else s.minY }

  function High(s: Sector, onX: bool): real { if onX then s.maxX else s.maxY }

  predicate Contains(s: Sector, p: Vec2) { s.minX <= p.x <= s.maxX && s.minY <= p.y <= s.maxY }

  function Center(s: Sector): Vec2 { Vec2((s.minX + s.maxX) / 2.0, (s.minY + s.maxY) / 2.0) }

  /** Two rooms share interior area, by more than the slack on both axes. */
  predicate Overlap(a: Sector, b: Sector) {
    && a.minX < b.maxX - EPS && b.minX < a.maxX - EPS
    && a.minY < b.maxY - EPS && b.minY < a.maxY - EPS
  }

  // ---- Generation ----

  function RoomSize(u: Stream, i: nat): real { ROOM_MIN + Part(u(i), ROOM_MAX - ROOM_MIN) }

  /** How far along the shared line the new room is slid: up to four tenths of the host's side, either way. */
  function Slide(u: Stream, i: nat, span: real): real { (u(i) * 2.0 - 1.0) * span * 0.4 }

  /** The room hung on one side of its host; side is 0:+X 1:-X 2:+Y 3:-Y. */
  function Hung(u: Stream, i: nat, host: Sector, side: nat, id: nat): Sector {
    var w, h := RoomSize(u, i), RoomSize(u, i + 1);
    var z := host.floorZ + (Intn(u, i + 3, 2 * MAX_STEPS + 1) - MAX_STEPS) as real * FLOOR_STEP;
    if side == 0 || side == 1 then
      var x := if side == 0 then host.maxX else host.minX - w;
      var y := host.minY + Slide(u, i + 2, host.maxY - host.minY);
      Sector(id, x, y, x + w, y + h, z)
    else
      var y := if side == 2 then host.maxY else host.minY - h;
      var x := host.minX + Slide(u, i + 2, host.maxX - host.minX);
      Sector(id, x, y, x + w, y + h, z)
  }

  /** The candidate and its doorway, or nothing when the two share too little wall for one. */
  function PlaceAdjacent(u: Stream, i: nat, host: Sector, side: nat, id: nat): Option<(Sector, Portal)> {
    var s, vertical := Hung(u, i, host, side, id), side == 0 || side == 1;
    var lo := MaxR(Low(host, !vertical), Low(s, !vertical));
    var hi := MinR(High(host, !vertical), High(s, !vertical));
    if hi - lo < MIN_SHARED_WALL then None
    else
      var mid := (lo + hi) / 2.0;
      var at := if side == 1 || side == 3 then High(s, vertical) else Low(s, vertical);
      Some((s, Portal(host.id, id, vertical, at, mid - DOOR_WIDTH / 2.0, mid + DOOR_WIDTH / 2.0)))
  }

  predicate OverlapsAny(sectors: seq<Sector>, cand: Sector) {
    exists k :: 0 <= k < |sectors| && Overlap(cand, sectors[k])
  }

  /** One attempt: pick a host and a side, and keep the candidate if it fits. Six draws. */
  function Attempt(u: Stream, i: nat, l: Level): Level
    requires |l.sectors| > 0
  {
    var host := l.sectors[Intn(u, i, |l.sectors|)];
    match PlaceAdjacent(u, i + 2, host, Intn(u, i + 1, 4), |l.sectors|)
    case None => l
    case Some((s, p)) => if OverlapsAny(l.sectors, s) then l else Level(l.sectors + [s], l.portals + [p])
  }

  function Grow(u: Stream, i: nat, l: Level, attempts: nat, target: nat): Level
    requires |l.sectors| > 0
    decreases attempts
  {
    if attempts == 0 || |l.sectors| >= target then l else Grow(u, i + 6, Attempt(u, i, l), attempts - 1, target)
  }

  function Target(u: Stream): nat { ROOMS_MIN + Intn(u, 0, ROOMS_MAX - ROOMS_MIN + 1) }

  function FirstRoom(u: Stream): Level { Level([Sector(0, 0.0, 0.0, RoomSize(u, 1), RoomSize(u, 2), 0.0)], []) }

  function Generated(u: Stream): Level { Grow(u, 3, FirstRoom(u), GENERATION_ATTEMPTS, Target(u)) }

  method OverlapsSome(sectors: seq<Sector>, cand: Sector) returns (r: bool)
    ensures r == OverlapsAny(sectors, cand)
  {
    for k := 0 to |sectors|
      invariant forall j :: 0 <= j < k ==> !Overlap(cand, sectors[j])
    {
      if Overlap(cand, sectors[k]) { return true; }
    }
    return false;
  }

  method Generate(u: Stream) returns (l: Level)
    ensures l == Generated(u)
    ensures WellBuilt(l) && |l.sectors| <= ROOMS_MAX
  {
    hide Hung, PlaceAdjacent, WellBuilt;
    var target := ROOMS_MIN + Intn(u, 0, ROOMS_MAX - ROOMS_MIN + 1);
    l := FirstRoom(u);
    var i, attempts := 3, 0;
    while attempts < GENERATION_ATTEMPTS && |l.sectors| < target
      invariant attempts <= GENERATION_ATTEMPTS && 0 < |l.sectors| && target == Target(u)
      invariant Grow(u, i, l, GENERATION_ATTEMPTS - attempts, target) == Generated(u)
    {
      var host := l.sectors[Intn(u, i, |l.sectors|)];
      var placed := PlaceAdjacent(u, i + 2, host, Intn(u, i + 1, 4), |l.sectors|);
      assert Grow(u, i, l, GENERATION_ATTEMPTS - attempts, target)
          == Grow(u, i + 6, Attempt(u, i, l), GENERATION_ATTEMPTS - attempts - 1, target);
      i, attempts := i + 6, attempts + 1;
      if placed.None? { continue; }
      var (s, p) := placed.value;
      var overlaps := OverlapsSome(l.sectors, s);
      if overlaps { continue; }
      l := Level(l.sectors + [s], l.portals + [p]);
    }
    GeneratedIsWellBuilt(u);
  }

  // ---- What every level is ----

  predicate Sized(s: Sector) {
    forall onX: bool :: ROOM_MIN <= High(s, onX) - Low(s, onX) <= ROOM_MAX
  }

  /** The doorway stands on the line the two rooms share, on opposite sides of it, a jamb clear of every corner, and
      the floors it joins are within a step. */
  predicate Joins(p: Portal, a: Sector, b: Sector) {
    var v := p.vertical;
    && p.a == a.id && p.b == b.id && p.hi == p.lo + DOOR_WIDTH
    && ((High(a, v) == p.at && p.at == Low(b, v)) || (High(b, v) == p.at && p.at == Low(a, v)))
    && MaxR(Low(a, !v), Low(b, !v)) + JAMB <= p.lo && p.hi + JAMB <= MinR(High(a, !v), High(b, !v))
    && AbsR(a.floorZ - b.floorZ) <= MAX_STEP
  }

  /** Each room after the first hangs on an earlier one by a doorway of its own: a tree. */
  predicate IsTree(l: Level) {
    && |l.portals| == |l.sectors| - 1
    && forall i :: 0 <= i < |l.portals| ==>
         l.portals[i].b == i + 1 && l.portals[i].a <= i
         && Joins(l.portals[i], l.sectors[l.portals[i].a], l.sectors[i + 1])
  }

  predicate WellBuilt(l: Level) {
    && |l.sectors| > 0
    && (forall i :: 0 <= i < |l.sectors| ==> l.sectors[i].id == i && Sized(l.sectors[i]))
    && (forall i, j :: 0 <= i < j < |l.sectors| ==> !Overlap(l.sectors[j], l.sectors[i]))
    && IsTree(l)
  }

  lemma RoomSizeInRange(u: Stream, i: nat)
    ensures ROOM_MIN <= RoomSize(u, i) < ROOM_MAX
  {
    FractionOf(u(i), ROOM_MAX - ROOM_MIN);
  }

  lemma PlacedJoins(u: Stream, i: nat, host: Sector, side: nat, id: nat)
    requires Sized(host) && side < 4
    requires PlaceAdjacent(u, i, host, side, id).Some?
    ensures var (s, p) := PlaceAdjacent(u, i, host, side, id).value;
            s.id == id && Sized(s) && Joins(p, host, s)
  {
    hide RoomSize, Slide, Intn;
    RoomSizeInRange(u, i);
    RoomSizeInRange(u, i + 1);
    var s := Hung(u, i, host, side, id);
    assert Low(s, true) == s.minX && Low(s, false) == s.minY && High(s, true) == s.maxX && High(s, false) == s.maxY;
  }

  lemma AttemptKeeps(u: Stream, i: nat, l: Level)
    requires WellBuilt(l)
    ensures WellBuilt(Attempt(u, i, l)) && |Attempt(u, i, l).sectors| <= |l.sectors| + 1
  {
    hide Joins, Sized, Overlap, PlaceAdjacent;
    var host, side := l.sectors[Intn(u, i, |l.sectors|)], Intn(u, i + 1, 4);
    var placed := PlaceAdjacent(u, i + 2, host, side, |l.sectors|);
    if placed.Some? && !OverlapsAny(l.sectors, placed.value.0) {
      PlacedJoins(u, i + 2, host, side, |l.sectors|);
      PlacedOn(u, i + 2, host, side, |l.sectors|);
    }
  }

  lemma PlacedOn(u: Stream, i: nat, host: Sector, side: nat, id: nat)
    requires PlaceAdjacent(u, i, host, side, id).Some?
    ensures var (s, p) := PlaceAdjacent(u, i, host, side, id).value; p.a == host.id && p.b == id
  {}

  lemma {:induction false} GrowKeeps(u: Stream, i: nat, l: Level, attempts: nat, target: nat)
    requires WellBuilt(l) && |l.sectors| <= target
    ensures WellBuilt(Grow(u, i, l, attempts, target)) && |Grow(u, i, l, attempts, target).sectors| <= target
    decreases attempts
  {
    hide WellBuilt, Attempt;
    WellBuiltHasRooms(l);
    if attempts > 0 && |l.sectors| < target {
      AttemptKeeps(u, i, l);
      GrowKeeps(u, i + 6, Attempt(u, i, l), attempts - 1, target);
    }
  }

  lemma WellBuiltHasRooms(l: Level)
    requires WellBuilt(l)
    ensures |l.sectors| > 0
  {}

  /** Every level, for every stream of draws: rooms that never overlap, and a tree of doorways each strictly inside the
      wall its two rooms share and never a taller rise than a player can climb. */
  lemma GeneratedIsWellBuilt(u: Stream)
    ensures WellBuilt(Generated(u)) && |Generated(u).sectors| <= ROOMS_MAX
  {
    RoomSizeInRange(u, 1);
    RoomSizeInRange(u, 2);
    GrowKeeps(u, 3, FirstRoom(u), GENERATION_ATTEMPTS, Target(u));
  }

  // ---- Every room is reachable ----

  predicate JoinsRooms(p: Portal, u: nat, v: nat) { (p.a == u && p.b == v) || (p.a == v && p.b == u) }

  predicate Adjacent(portals: seq<Portal>, u: nat, v: nat) {
    exists i :: 0 <= i < |portals| && JoinsRooms(portals[i], u, v)
  }

  function Doors(portals: seq<Portal>): Graph { (u: nat, v: nat) => Adjacent(portals, u, v) }

  lemma DoorsAreSymmetric(portals: seq<Portal>, n: nat)
    ensures Symmetric(Doors(portals), n)
  {
    forall u: nat, v: nat | u < n && v < n && Doors(portals)(u, v) ensures Doors(portals)(v, u) {
      var i :| 0 <= i < |portals| && JoinsRooms(portals[i], u, v);
      assert JoinsRooms(portals[i], v, u);
    }
  }

  lemma {:induction false} ReachedFromTheFirst(l: Level, v: nat)
    requires WellBuilt(l) && v < |l.sectors|
    ensures Reaches(Doors(l.portals), |l.sectors|, 0, v)
    decreases v
  {
    hide Joins, Overlap, Sized;
    var g, n := Doors(l.portals), |l.sectors|;
    if v == 0 {
      assert Within(g, n, 0, 0, 0);
    } else {
      var p := l.portals[v - 1];
      ReachedFromTheFirst(l, p.a);
      var k :| Within(g, n, 0, p.a, k);
      assert JoinsRooms(p, p.a, v);
      WithinStep(g, n, 0, p.a, v, k);
    }
  }

  /** Any room can be walked to from any other. */
  lemma EveryRoomIsReachable(l: Level, u: nat, v: nat)
    requires WellBuilt(l) && u < |l.sectors| && v < |l.sectors|
    ensures Reaches(Doors(l.portals), |l.sectors|, u, v)
  {
    hide WellBuilt, Adjacent;
    var g, n := Doors(l.portals), |l.sectors|;
    ReachedFromTheFirst(l, u);
    ReachedFromTheFirst(l, v);
    DoorsAreSymmetric(l.portals, n);
    ReachesBack(g, n, 0, u);
    ReachesTrans(g, n, u, 0, v);
  }

  // ---- Where a point is ----

  /** The first room holding a point. */
  function SectorAt(sectors: seq<Sector>, p: Vec2): Option<nat>
  {
    if i :| 0 <= i < |sectors| && Contains(sectors[i], p) && forall j :: 0 <= j < i ==> !Contains(sectors[j], p)
    then Some(sectors[i].id) else None
  }
}
