/** Following the table: every waypoint stands well inside the next room, and the rooms run out at the destination. */
module RouteWalks {
  import opened Wrappers
  import opened Plane
  import opened Bfs
  import opened Levels
  import opened Routes

  /** A point at least a body's radius from every wall of a room. */
  predicate Inset(s: Sector, q: Vec2) {
    && s.minX + PLAYER_RADIUS <= q.x <= s.maxX - PLAYER_RADIUS
    && s.minY + PLAYER_RADIUS <= q.y <= s.maxY - PLAYER_RADIUS
  }

  lemma InsetAndContainedOverlap(a: Sector, c: Sector, q: Vec2)
    requires Sized(c) && Inset(a, q) && Contains(c, q)
    ensures Overlap(a, c) && Overlap(c, a)
  {
    assert High(c, true) - Low(c, true) >= ROOM_MIN && High(c, false) - Low(c, false) >= ROOM_MIN;
  }

  /** A point well inside a room is in that room and in no other. */
  lemma InsetIsOnlyThere(l: Level, r: nat, q: Vec2)
    requires WellBuilt(l) && r < |l.sectors| && Inset(l.sectors[r], q)
    ensures SectorAt(l.sectors, q) == Some(r)
    ensures forall j :: 0 <= j < |l.sectors| && j != r ==> !Contains(l.sectors[j], q)
  {
    hide Sized, IsTree, Overlap;
    forall j | 0 <= j < |l.sectors| && j != r ensures !Contains(l.sectors[j], q) {
      if Contains(l.sectors[j], q) { InsetAndContainedOverlap(l.sectors[r], l.sectors[j], q); }
    }
    assert Contains(l.sectors[r], q);
  }

  /** A doorway's waypoint is a body's width inside the room it leads into, whichever side one comes from, and faces the
      middle of the doorway. */
  lemma WaypointIsInset(p: Portal, a: Sector, b: Sector, sectors: seq<Sector>, from: nat)
    requires Joins(p, a, b) && Sized(a) && Sized(b)
    requires p.a < |sectors| && p.b < |sectors| && sectors[p.a] == a && sectors[p.b] == b && p.a != p.b
             && (from == p.a || from == p.b)
    ensures Inset(sectors[Other(p, from)], DoorwayInto(sectors, p, from))
    ensures var q := DoorwayInto(sectors, p, from);
            if p.vertical then AbsR(q.x - p.at) == 0.35 && q.y - p.lo == p.hi - q.y
            else AbsR(q.y - p.at) == 0.35 && q.x - p.lo == p.hi - q.x
  {
    assert Low(a, true) == a.minX && Low(a, false) == a.minY && High(a, true) == a.maxX && High(a, false) == a.maxY;
    assert Low(b, true) == b.minX && Low(b, false) == b.minY && High(b, true) == b.maxX && High(b, false) == b.maxY;
  }

  /** Doorway i of a well-built level, and the two rooms it joins. */
  lemma DoorwayFacts(l: Level, i: nat)
    requires WellBuilt(l) && i < |l.portals|
    ensures var p := l.portals[i];
            p.a < p.b < |l.sectors| && Joins(p, l.sectors[p.a], l.sectors[p.b]) && Sized(l.sectors[p.a])
            && Sized(l.sectors[p.b])
  {
    hide Joins, Sized, Overlap;
  }

  /** In every generated level every pair of rooms is routed: the waypoint stands a body's width inside the next room,
      which is one doorway away, and that room is exactly one doorway closer to the destination. */
  lemma EveryPairIsRouted(l: Level, table: seq<seq<Route>>, from: nat, to: nat) returns (next: nat, d: nat)
    requires WellBuilt(l) && IsTable(l, table) && from < |l.sectors| && to < |l.sectors| && from != to
    ensures table[from][to].Via? && next < |l.sectors| && Adjacent(l.portals, from, next)
    ensures Inset(l.sectors[next], table[from][to].waypoint)
            && SectorAt(l.sectors, table[from][to].waypoint) == Some(next)
    ensures IsDist(Doors(l.portals), |l.sectors|, to, from, d + 1) && IsDist(Doors(l.portals), |l.sectors|, to, next, d)
  {
    hide WellBuilt, Joins, Sized, Inset, IsDist;
    EveryRoomIsReachable(l, to, from);
    assert LeadsCloser(l, from, to, table[from][to]);
    var r := table[from][to];
    var i: nat, e: nat :| Hops(l, from, to, i, e) && r.waypoint == DoorwayInto(l.sectors, l.portals[i], from);
    d := e;
    var p := l.portals[i];
    next := Other(p, from);
    DoorwayFacts(l, i);
    WaypointIsInset(p, l.sectors[p.a], l.sectors[p.b], l.sectors, from);
    InsetIsOnlyThere(l, next, r.waypoint);
  }

  /** The room a slop stands in once it has reached its waypoint. */
  function NextRoom(l: Level, table: seq<seq<Route>>, from: nat, to: nat): nat
    requires |table| == |l.sectors| && from < |table| && to < |table[from]|
  {
    match table[from][to]
    case NoRoute => from
    case Via(w) => var at := SectorAt(l.sectors, w); if at.Some? then at.value else from
  }

  /** Following waypoint after waypoint from a room at distance d arrives in exactly d doorways, never revisiting a
      distance: the destination is reached and not before. */
  lemma {:induction false} HopsArrive(l: Level, table: seq<seq<Route>>, from: nat, to: nat, d: nat)
      returns (path: seq<nat>)
    requires WellBuilt(l) && IsTable(l, table) && from < |l.sectors| && to < |l.sectors|
    requires IsDist(Doors(l.portals), |l.sectors|, to, from, d)
    ensures |path| == d + 1 && path[0] == from && path[d] == to
    ensures forall k :: 0 <= k <= d ==>
            path[k] < |l.sectors| && IsDist(Doors(l.portals), |l.sectors|, to, path[k], d - k)
    ensures forall k :: 0 <= k < d ==> path[k+1] == NextRoom(l, table, path[k], to)
    decreases d
  {
    hide WellBuilt, LeadsCloser, IsDist;
    if from == to {
      HereIsZero(Doors(l.portals), |l.sectors|, to, d);
      path := [from];
    } else {
      var next, e := EveryPairIsRouted(l, table, from, to);
      DistUnique(Doors(l.portals), |l.sectors|, to, from, d, e + 1);
      var rest := HopsArrive(l, table, next, to, e);
      path := [from] + rest;
      forall k | 0 <= k <= d
        ensures path[k] < |l.sectors| && IsDist(Doors(l.portals), |l.sectors|, to, path[k], d - k)
        ensures k < d ==> path[k+1] == NextRoom(l, table, path[k], to)
      {
        if k > 0 { assert path[k] == rest[k-1] && (k < d ==> path[k+1] == rest[k]); }
      }
    }
  }

  lemma HereIsZero(g: Graph, n: nat, src: nat, d: nat)
    requires IsDist(g, n, src, src, d)
    ensures d == 0
  {
    if d > 0 { WithinGrows(g, n, src, src, 0, d - 1); }
  }
}
