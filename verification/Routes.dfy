/** Which doorway to take: the all-pairs table a slop walks by. */
module Routes {
  import opened Plane
  import opened Bfs
  import opened Levels

  const DOORWAY_STEP: real := PLAYER_RADIUS

  /** The next waypoint on the way from one room to another, if there is one. */
  datatype Route = NoRoute | Via(waypoint: Vec2)

  datatype Link = Link(to: nat, portal: nat)

  function Other(p: Portal, from: nat): nat { if from == p.a then p.b else p.a }

  /** A step beyond the middle of a doorway, on the side of the room it leads into. */
  function DoorwayInto(sectors: seq<Sector>, p: Portal, from: nat): Vec2
    requires p.a < |sectors| && p.b < |sectors|
  {
    var mid := (p.lo + p.hi) / 2.0;
    var c := Center(sectors[Other(p, from)]);
    if p.vertical then Vec2(if c.x > p.at then p.at + DOORWAY_STEP else p.at - DOORWAY_STEP, mid)
    else Vec2(mid, if c.y > p.at then p.at + DOORWAY_STEP else p.at - DOORWAY_STEP)
  }

  predicate InRange(p: Portal, n: nat) { p.a < n && p.b < n }

  /** The links of one room through one doorway, seen from whichever sides it is on. */
  function LinksOf(p: Portal, i: nat, n: nat, u: nat): seq<Link> {
    if !InRange(p, n) then []
    else (if p.a == u then [Link(p.b, i)] else []) + (if p.b == u then [Link(p.a, i)] else [])
  }

  /** The adjacency list of one room, doorway by doorway. */
  function ListOf(portals: seq<Portal>, n: nat, u: nat): seq<Link>
    decreases |portals|
  {
    if portals == [] then []
    else
      var i := |portals| - 1;
      ListOf(portals[..i], n, u) + LinksOf(portals[i], i, n, u)
  }

  predicate Lists(adj: seq<seq<Link>>, portals: seq<Portal>, n: nat) {
    |adj| == n && forall u :: 0 <= u < n ==> adj[u] == ListOf(portals, n, u)
  }

  /** A list holds exactly the doorways of its room to rooms that exist, lowest index first. */
  ghost predicate ListsRoom(links: seq<Link>, portals: seq<Portal>, n: nat, u: nat) {
    && (forall k :: 0 <= k < |links| ==>
          links[k].to < n && links[k].portal < |portals| && JoinsRooms(portals[links[k].portal], u, links[k].to))
    && (forall j, k :: 0 <= j <= k < |links| ==> links[j].portal <= links[k].portal)
    && (forall i, v :: 0 <= i < |portals| && 0 <= v < n && JoinsRooms(portals[i], u, v) ==> Link(v, i) in links)
  }

  lemma {:induction false} ListOfListsRoom(portals: seq<Portal>, n: nat, u: nat)
    requires u < n
    ensures ListsRoom(ListOf(portals, n, u), portals, n, u)
    decreases |portals|
  {
    if portals != [] {
      var i := |portals| - 1;
      ListOfListsRoom(portals[..i], n, u);
      hide ListOf;
      OneMoreDoorway(ListOf(portals[..i], n, u), portals, n, u);
    }
  }

  lemma OneMoreDoorway(links: seq<Link>, portals: seq<Portal>, n: nat, u: nat)
    requires portals != [] && u < n && ListsRoom(links, portals[..|portals|-1], n, u)
    ensures ListsRoom(links + LinksOf(portals[|portals|-1], |portals|-1, n, u), portals, n, u)
  {
    var i := |portals| - 1;
    var p, more := portals[i], LinksOf(portals[i], i, n, u);
    forall j, v | 0 <= j < |portals| && 0 <= v < n && JoinsRooms(portals[j], u, v) ensures Link(v, j) in links + more {
      if j < i { assert portals[..i][j] == portals[j]; } else { assert Link(v, i) in more; }
    }
  }

  /** The entry of the table for one pair: none on the diagonal or across a gap, and otherwise a doorway to a room
      exactly one closer to the destination. */
  ghost predicate LeadsCloser(l: Level, from: nat, to: nat, r: Route) {
    var g, n := Doors(l.portals), |l.sectors|;
    && (r.Via? <==> from != to && Reaches(g, n, to, from))
    && (r.Via? ==> exists i: nat, d: nat ::
          Hops(l, from, to, i, d) && r.waypoint == DoorwayInto(l.sectors, l.portals[i], from))
  }

  /** Doorway i leads from a room at distance d + 1 to one at distance d, and none of a lower index does. */
  ghost predicate Hops(l: Level, from: nat, to: nat, i: nat, d: nat) {
    && i < |l.portals| && InRange(l.portals[i], |l.sectors|)
    && JoinsRooms(l.portals[i], from, Other(l.portals[i], from))
    && IsDist(Doors(l.portals), |l.sectors|, to, from, d + 1)
    && IsDist(Doors(l.portals), |l.sectors|, to, Other(l.portals[i], from), d)
    && forall j: nat, v: nat :: j < i && v < |l.sectors| && JoinsRooms(l.portals[j], from, v) ==>
         !IsDist(Doors(l.portals), |l.sectors|, to, v, d)
  }

  method BuildLists(portals: seq<Portal>, n: nat) returns (adj: seq<seq<Link>>)
    ensures Lists(adj, portals, n)
  {
    adj := seq(n, _ => []);
    for i := 0 to |portals|
      invariant Lists(adj, portals[..i], n)
    {
      assert portals[..i+1][..i] == portals[..i];
      var p := portals[i];
      if p.a >= n || p.b >= n { continue; }
      adj := adj[p.a := adj[p.a] + [Link(p.b, i)]];
      adj := adj[p.b := adj[p.b] + [Link(p.a, i)]];
    }
    assert portals[..|portals|] == portals;
  }

  /** Every edge of the graph appears in the lists, and nothing else does. */
  lemma ListsAreTheGraph(adj: seq<seq<Link>>, portals: seq<Portal>, n: nat, u: nat)
    requires Lists(adj, portals, n) && u < n
    ensures forall k :: 0 <= k < |adj[u]| ==> adj[u][k].to < n && Doors(portals)(u, adj[u][k].to)
    ensures forall k :: 0 <= k < |adj[u]| ==>
            adj[u][k].portal < |portals| && JoinsRooms(portals[adj[u][k].portal], u, adj[u][k].to)
    ensures forall v: nat :: v < n && Doors(portals)(u, v) ==> exists k :: 0 <= k < |adj[u]| && adj[u][k].to == v
  {
    hide ListOf;
    ListOfListsRoom(portals, n, u);
    forall v: nat | v < n && Doors(portals)(u, v) ensures exists k :: 0 <= k < |adj[u]| && adj[u][k].to == v {
      var i :| 0 <= i < |portals| && JoinsRooms(portals[i], u, v);
      assert Link(v, i) in adj[u];
    }
  }

  /** The distances from one destination, breadth first. */
  method Distances(adj: seq<seq<Link>>, portals: seq<Portal>, n: nat, to: nat) returns (dist: seq<int>, queue: seq<nat>)
    requires Lists(adj, portals, n) && to < n
    ensures Flood(Doors(portals), n, to, dist, queue, |queue|)
  {
    hide Lists, Flood, Adjacent;
    ghost var g := Doors(portals);
    assert |adj| == n && forall u: nat :: u < n ==> ListsAt(adj, portals, n, u) by {
      ListsLength(adj, portals, n);
      forall u: nat | u < n ensures ListsAt(adj, portals, n, u) { ListsAreTheGraph(adj, portals, n, u); }
    }
    dist := seq(n, i requires 0 <= i < n => if i == to then 0 else -1);
    queue := [to];
    var head := 0;
    FloodStarts(g, n, to, dist);
    while head < |queue|
      invariant head <= |queue| && |dist| == n && Flood(g, n, to, dist, queue, head)
      decreases n - head
    {
      FloodFacts(g, n, to, dist, queue, head);
      var cur := queue[head];
      assert ListsAt(adj, portals, n, cur);
      for k := 0 to |adj[cur]|
        invariant |dist| == n && head < |queue| && queue[head] == cur && Flood(g, n, to, dist, queue, head)
        invariant forall j :: 0 <= j < k ==> dist[adj[cur][j].to] >= 0
      {
        FloodFacts(g, n, to, dist, queue, head);
        var e := adj[cur][k];
        if dist[e.to] >= 0 { continue; }
        FloodVisits(g, n, to, dist, queue, head, e.to);
        dist := dist[e.to := dist[cur] + 1];
        queue := queue + [e.to];
      }
      FloodAdvances(g, n, to, dist, queue, head);
      FloodFacts(g, n, to, dist, queue, head + 1);
      head := head + 1;
    }
  }

  ghost predicate ListsAt(adj: seq<seq<Link>>, portals: seq<Portal>, n: nat, u: nat)
    requires |adj| == n && u < n
  {
    && (forall k :: 0 <= k < |adj[u]| ==> adj[u][k].to < n && Doors(portals)(u, adj[u][k].to))
    && (forall v: nat :: v < n && Doors(portals)(u, v) ==> exists k :: 0 <= k < |adj[u]| && adj[u][k].to == v)
  }

  lemma ListsLength(adj: seq<seq<Link>>, portals: seq<Portal>, n: nat)
    requires Lists(adj, portals, n)
    ensures |adj| == n
  {}

  /** In a finished flood the smallest recorded distance around a reached room is exactly one less than its own. */
  lemma SmallestIsOneLess(portals: seq<Portal>, n: nat, to: nat, dist: seq<int>, queue: seq<nat>, from: nat)
    requires Flood(Doors(portals), n, to, dist, queue, |queue|) && |dist| == n && from < n && dist[from] > 0
    ensures forall v: nat :: v < n && Doors(portals)(from, v) && dist[v] >= 0 ==> dist[v] >= dist[from] - 1
    ensures exists v: nat :: v < n && Doors(portals)(from, v) && dist[v] == dist[from] - 1
  {
    hide Flood, Adjacent;
    var g := Doors(portals);
    DoorsAreSymmetric(portals, n);
    FinishedFlood(g, n, to, dist, queue, from);
    forall v: nat | v < n && g(from, v) && dist[v] >= 0 ensures dist[v] >= dist[from] - 1 {
      FinishedFlood(g, n, to, dist, queue, v);
      NeighbourBound(g, n, to, v, from, dist[from], dist[v]);
    }
    var u := Predecessor(g, n, to, from, dist[from]);
    FinishedFlood(g, n, to, dist, queue, u);
    WithinReaches(g, n, to, u, dist[from] - 1);
    DistUnique(g, n, to, u, dist[u], dist[from] - 1);
  }

  lemma WithinReaches(g: Graph, n: nat, src: nat, v: nat, k: nat)
    requires Within(g, n, src, v, k)
    ensures Reaches(g, n, src, v)
  {}

  /** Link j leads strictly inside d, no link leads further in, and none before it as far. */
  predicate Innermost(links: seq<Link>, dist: seq<int>, d: int, j: int) {
    && 0 <= j < |links| && links[j].to < |dist| && 0 <= dist[links[j].to] < d
    && (forall k :: 0 <= k < |links| && links[k].to < |dist| && dist[links[k].to] >= 0 ==>
        dist[links[j].to] <= dist[links[k].to])
    && forall k :: 0 <= k < j && links[k].to < |dist| && dist[links[k].to] >= 0 ==>
        dist[links[j].to] < dist[links[k].to]
  }

  /** The first of the links leading furthest in, or -1 when none leads in at all. */
  method NearestLink(links: seq<Link>, dist: seq<int>, d: int) returns (best: int, ghost at: int)
    requires forall k :: 0 <= k < |links| ==> links[k].to < |dist|
    ensures best < 0 ==> forall k :: 0 <= k < |links| ==> dist[links[k].to] < 0 || dist[links[k].to] >= d
    ensures best >= 0 ==> Innermost(links, dist, d, at) && links[at].portal == best
  {
    var bestDist := d;
    best, at := -1, -1;
    for k := 0 to |links|
      invariant best < 0 ==> bestDist == d
      invariant best >= 0 ==>
                0 <= at < k && links[at].portal == best && dist[links[at].to] == bestDist && 0 <= bestDist < d
      invariant forall j :: 0 <= j < k ==> dist[links[j].to] < 0 || dist[links[j].to] >= bestDist
      invariant best >= 0 ==> forall j :: 0 <= j < at ==> dist[links[j].to] < 0 || dist[links[j].to] > bestDist
    {
      var e := links[k];
      if dist[e.to] >= 0 && dist[e.to] < bestDist {
        best, bestDist, at := e.portal, dist[e.to], k;
      }
    }
  }

  /** The doorway chosen for one pair. */
  method RouteFrom(l: Level, adj: seq<seq<Link>>, dist: seq<int>, ghost queue: seq<nat>, from: nat, to: nat)
      returns (r: Route)
    requires Lists(adj, l.portals, |l.sectors|) && from < |l.sectors| && to < |l.sectors| && |dist| == |l.sectors|
    requires Flood(Doors(l.portals), |l.sectors|, to, dist, queue, |queue|)
    ensures LeadsCloser(l, from, to, r)
  {
    hide Flood, Adjacent, Innermost, IsDist, Reaches;
    ghost var g, n := Doors(l.portals), |l.sectors|;
    FinishedFlood(g, n, to, dist, queue, from);
    if from == to || dist[from] < 0 { return NoRoute; }
    ListsAreTheGraph(adj, l.portals, n, from);
    ghost var at;
    var best;
    best, at := NearestLink(adj[from], dist, dist[from]);
    if dist[from] == 0 { ZeroIsHere(g, n, to, from); }
    SmallestIsOneLess(l.portals, n, to, dist, queue, from);
    ChosenHops(l, adj, dist, queue, from, to, best, at);
    return Via(DoorwayInto(l.sectors, l.portals[best], from));
  }

  /** Where some neighbour is closer, the innermost link leads exactly one closer. */
  lemma ChosenIsOneCloser(l: Level, adj: seq<seq<Link>>, dist: seq<int>, queue: seq<nat>, from: nat, to: nat,
                          best: int, at: int)
    requires Lists(adj, l.portals, |l.sectors|) && from < |l.sectors| && to < |l.sectors| && |dist| == |l.sectors|
    requires Flood(Doors(l.portals), |l.sectors|, to, dist, queue, |queue|) && dist[from] > 0
    requires best < 0 ==> forall k :: 0 <= k < |adj[from]| && adj[from][k].to < |dist| ==>
             dist[adj[from][k].to] < 0 || dist[adj[from][k].to] >= dist[from]
    requires best >= 0 ==> Innermost(adj[from], dist, dist[from], at) && adj[from][at].portal == best
    ensures best >= 0 && dist[adj[from][at].to] == dist[from] - 1
  {
    hide Flood, Adjacent, IsDist, ListOf, ListsRoom;
    var g, n := Doors(l.portals), |l.sectors|;
    ListsAreTheGraph(adj, l.portals, n, from);
    SmallestIsOneLess(l.portals, n, to, dist, queue, from);
    var v: nat :| v < n && g(from, v) && dist[v] == dist[from] - 1;
    var k :| 0 <= k < |adj[from]| && adj[from][k].to == v;
  }

  lemma ChosenHops(l: Level, adj: seq<seq<Link>>, dist: seq<int>, queue: seq<nat>, from: nat, to: nat, best: int,
                   at: int)
    requires Lists(adj, l.portals, |l.sectors|) && from < |l.sectors| && to < |l.sectors| && |dist| == |l.sectors|
    requires Flood(Doors(l.portals), |l.sectors|, to, dist, queue, |queue|) && dist[from] > 0
    requires best < 0 ==> forall k :: 0 <= k < |adj[from]| && adj[from][k].to < |dist| ==>
             dist[adj[from][k].to] < 0 || dist[adj[from][k].to] >= dist[from]
    requires best >= 0 ==> Innermost(adj[from], dist, dist[from], at) && adj[from][at].portal == best
    ensures 0 <= best < |l.portals| && Hops(l, from, to, best, dist[from] - 1)
  {
    hide Flood, Adjacent, IsDist, ListOf, ListsRoom;
    ChosenIsOneCloser(l, adj, dist, queue, from, to, best, at);
    var g, n := Doors(l.portals), |l.sectors|;
    ListsAreTheGraph(adj, l.portals, n, from);
    var next := adj[from][at].to;
    assert JoinsRooms(l.portals[best], from, next) && Other(l.portals[best], from) == next;
    FinishedFlood(g, n, to, dist, queue, from);
    FinishedFlood(g, n, to, dist, queue, next);
    ChosenIsLowest(l, adj[from], dist, queue, from, to, at);
  }

  lemma ChosenIsLowest(l: Level, links: seq<Link>, dist: seq<int>, queue: seq<nat>, from: nat, to: nat, at: int)
    requires links == ListOf(l.portals, |l.sectors|, from) && from < |l.sectors| && to < |l.sectors|
             && |dist| == |l.sectors|
    requires Flood(Doors(l.portals), |l.sectors|, to, dist, queue, |queue|)
    requires Innermost(links, dist, dist[from], at) && links[at].portal <= |l.portals|
             && dist[links[at].to] == dist[from] - 1
    ensures forall j: nat, w: nat ::
              j < links[at].portal && j < |l.portals| && w < |l.sectors| && JoinsRooms(l.portals[j], from, w) ==>
              !IsDist(Doors(l.portals), |l.sectors|, to, w, dist[from] - 1)
  {
    hide Flood, Adjacent, IsDist, ListOf, ListsRoom, Reaches;
    var g, n := Doors(l.portals), |l.sectors|;
    ListOfListsRoom(l.portals, n, from);
    forall j: nat, w: nat | j < links[at].portal && j < |l.portals| && w < n && JoinsRooms(l.portals[j], from, w)
      ensures !IsDist(g, n, to, w, dist[from] - 1)
    {
      EarlierIsFurther(links, l.portals, n, from, dist, dist[from], at, j, w);
      FinishedFlood(g, n, to, dist, queue, w);
      if IsDist(g, n, to, w, dist[from] - 1) {
        DistWithin(g, n, to, w, dist[from] - 1);
        DistUnique(g, n, to, w, dist[from] - 1, dist[w]);
      }
    }
  }

  lemma DistWithin(g: Graph, n: nat, src: nat, v: nat, d: nat)
    requires IsDist(g, n, src, v, d)
    ensures Reaches(g, n, src, v)
  {}

  /** A doorway of a lower index than the one chosen leads nowhere as near. */
  lemma EarlierIsFurther(links: seq<Link>, portals: seq<Portal>, n: nat, u: nat, dist: seq<int>, d: int, at: int,
                         j: nat, v: nat)
    requires ListsRoom(links, portals, n, u) && |dist| == n && Innermost(links, dist, d, at)
    requires j < links[at].portal && j < |portals| && v < n && JoinsRooms(portals[j], u, v)
    ensures dist[v] < 0 || dist[v] > dist[links[at].to]
  {
    assert Link(v, j) in links;
    var k :| 0 <= k < |links| && links[k] == Link(v, j);
    assert k < at;
  }

  lemma ZeroIsHere(g: Graph, n: nat, src: nat, v: nat)
    requires IsDist(g, n, src, v, 0)
    ensures v == src
  {}

  ghost predicate IsTable(l: Level, table: seq<seq<Route>>) {
    && |table| == |l.sectors| && (forall u :: 0 <= u < |table| ==> |table[u]| == |l.sectors|)
    && forall u: nat, v: nat :: u < |l.sectors| && v < |l.sectors| ==> LeadsCloser(l, u, v, table[u][v])
  }

  method BuildRoutes(l: Level) returns (table: seq<seq<Route>>)
    ensures IsTable(l, table)
  {
    hide Lists, Flood, LeadsCloser;
    var n := |l.sectors|;
    table := seq(n, _ => seq(n, _ => NoRoute));
    var adj := BuildLists(l.portals, n);
    for to := 0 to n
      invariant |table| == n && forall u :: 0 <= u < n ==> |table[u]| == n
      invariant forall u: nat, v: nat :: u < n && v < to ==> LeadsCloser(l, u, v, table[u][v])
    {
      var dist, queue := Distances(adj, l.portals, n, to);
      FloodFacts(Doors(l.portals), n, to, dist, queue, |queue|);
      for from := 0 to n
        invariant |table| == n && forall u :: 0 <= u < n ==> |table[u]| == n
        invariant forall u: nat, v: nat :: u < n && v < to ==> LeadsCloser(l, u, v, table[u][v])
        invariant forall u: nat :: u < from ==> LeadsCloser(l, u, to, table[u][to])
      {
        var r := RouteFrom(l, adj, dist, queue, from, to);
        table := table[from := table[from][to := r]];
      }
    }
  }
}
