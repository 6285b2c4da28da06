/** Breadth-first distances over a finite graph, and the invariant every flood of this program keeps. */
module Bfs {
  import opened Sequences

  /** An edge relation over the nodes 0..n. */
  type Graph = (nat, nat) -> bool

  /** There is a walk of at most k edges from src to v. */
  ghost predicate Within(g: Graph, n: nat, src: nat, v: nat, k: nat)
    decreases k
  {
    v < n &&
    if k == 0 then v == src
    else Within(g, n, src, v, k - 1) || exists u: nat :: u < n && Within(g, n, src, u, k - 1) && g(u, v)
  }

  ghost predicate Reaches(g: Graph, n: nat, src: nat, v: nat) {
    exists k :: Within(g, n, src, v, k)
  }

  /** The length of a shortest walk from src to v is exactly d. */
  ghost predicate IsDist(g: Graph, n: nat, src: nat, v: nat, d: nat) {
    Within(g, n, src, v, d) && (d > 0 ==> !Within(g, n, src, v, d - 1))
  }

  predicate Symmetric(g: Graph, n: nat)
  {
    forall u: nat, v: nat :: u < n && v < n && g(u, v) ==> g(v, u)
  }

  lemma {:induction false} WithinGrows(g: Graph, n: nat, src: nat, v: nat, j: nat, k: nat)
    requires Within(g, n, src, v, j) && j <= k
    ensures Within(g, n, src, v, k)
    decreases k - j
  {
    if j < k { WithinGrows(g, n, src, v, j, k - 1); }
  }

  lemma WithinStep(g: Graph, n: nat, src: nat, u: nat, v: nat, k: nat)
    requires Within(g, n, src, u, k) && u < n && v < n && g(u, v)
    ensures Within(g, n, src, v, k + 1)
  {}

  lemma DistUnique(g: Graph, n: nat, src: nat, v: nat, d: nat, e: nat)
    requires IsDist(g, n, src, v, d) && IsDist(g, n, src, v, e)
    ensures d == e
  {
    if d < e { WithinGrows(g, n, src, v, d, e - 1); }
    if e < d { WithinGrows(g, n, src, v, e, d - 1); }
  }

  /** A reached node has a distance. */
  lemma {:induction false} DistExists(g: Graph, n: nat, src: nat, v: nat, k: nat) returns (d: nat)
    requires Within(g, n, src, v, k)
    ensures d <= k && IsDist(g, n, src, v, d)
  {
    if k == 0 || !Within(g, n, src, v, k - 1) { d := k; } else { d := DistExists(g, n, src, v, k - 1); }
  }

  /** A node at distance d > 0 has a predecessor at distance d - 1. */
  lemma Predecessor(g: Graph, n: nat, src: nat, v: nat, d: nat) returns (u: nat)
    requires IsDist(g, n, src, v, d) && d > 0
    ensures u < n && g(u, v) && IsDist(g, n, src, u, d - 1)
  {
    u :| u < n && Within(g, n, src, u, d - 1) && g(u, v);
  }

  // ---- The invariant of a flood ----

  /** A flood from src part-way through: dist is -1 where nothing has arrived, the queue lists every node reached in
      the order it was reached, and the nodes before `head` have been expanded. */
  ghost predicate Flood(g: Graph, n: nat, src: nat, dist: seq<int>, queue: seq<nat>, head: nat) {
    && |dist| == n && src < n && head <= |queue| && |queue| > 0 && queue[0] == src && dist[src] == 0
    && (forall i :: 0 <= i < |queue| ==> queue[i] < n && dist[queue[i]] >= 0)
    && (forall i, j :: 0 <= i < j < |queue| ==> queue[i] != queue[j])
    && (forall v: nat :: v < n && dist[v] >= 0 ==> v in queue)
    && (forall i, j :: 0 <= i <= j < |queue| ==> dist[queue[i]] <= dist[queue[j]])
    && (head < |queue| ==> forall i :: 0 <= i < |queue| ==> dist[queue[i]] <= dist[queue[head]] + 1)
    && (forall v: nat :: v < n && dist[v] >= 0 ==> Within(g, n, src, v, dist[v]))
    && (forall i, v: nat :: 0 <= i < head && v < n && g(queue[i], v) ==> 0 <= dist[v] <= dist[queue[i]] + 1)
  }

  lemma FloodStarts(g: Graph, n: nat, src: nat, dist: seq<int>)
    requires |dist| == n && src < n && dist[src] == 0
    requires forall v :: 0 <= v < n && v != src ==> dist[v] < 0
    ensures Flood(g, n, src, dist, [src], 0)
  {}

  /** Where everything in the queue stands once a newcomer has joined it one further out. */
  lemma NewcomerInQueue(g: Graph, n: nat, src: nat, dist: seq<int>, queue: seq<nat>, head: nat, v: nat)
    requires Flood(g, n, src, dist, queue, head) && head < |queue| && v < n && dist[v] < 0
    ensures var d, q := dist[v := dist[queue[head]] + 1], queue + [v];
            && (forall i :: 0 <= i < |q| ==>
                q[i] < n && d[q[i]] == if i < |queue| then dist[queue[i]] else dist[queue[head]] + 1)
            && (forall i, j :: 0 <= i < j < |q| ==> q[i] != q[j])
            && (forall w: nat :: w < n && d[w] >= 0 ==> w in q)
  {
    hide Within;
    var d, q := dist[v := dist[queue[head]] + 1], queue + [v];
    forall w: nat | w < n && d[w] >= 0 ensures w in q {
      if w != v { assert w in queue; }
    }
  }

  /** And that it is nowhere nearer than those before it, nor further than one beyond the head. */
  lemma NewcomerIsFurthest(g: Graph, n: nat, src: nat, dist: seq<int>, queue: seq<nat>, head: nat, v: nat)
    requires Flood(g, n, src, dist, queue, head) && head < |queue| && v < n && dist[v] < 0
    ensures var d, q := dist[v := dist[queue[head]] + 1], queue + [v];
            && (forall i, j :: 0 <= i <= j < |q| ==> 0 <= q[i] < n && 0 <= q[j] < n && d[q[i]] <= d[q[j]])
            && (forall i :: 0 <= i < |q| ==> d[q[i]] <= d[q[head]] + 1)
  {
    NewcomerInQueue(g, n, src, dist, queue, head, v);
    hide Within;
  }

  /** A fresh neighbour of the node being expanded joins the queue one further out. */
  lemma FloodVisits(g: Graph, n: nat, src: nat, dist: seq<int>, queue: seq<nat>, head: nat, v: nat)
    requires Flood(g, n, src, dist, queue, head) && head < |queue|
    requires v < n && dist[v] < 0 && g(queue[head], v)
    ensures Flood(g, n, src, dist[v := dist[queue[head]] + 1], queue + [v], head)
  {
    WithinStep(g, n, src, queue[head], v, dist[queue[head]]);
    hide Within;
    NewcomerInQueue(g, n, src, dist, queue, head, v);
    NewcomerIsFurthest(g, n, src, dist, queue, head, v);
  }

  /** Once every neighbour of the head has been reached, the head moves on. */
  lemma FloodAdvances(g: Graph, n: nat, src: nat, dist: seq<int>, queue: seq<nat>, head: nat)
    requires Flood(g, n, src, dist, queue, head) && head < |queue|
    requires forall v: nat :: v < n && g(queue[head], v) ==> dist[v] >= 0
    ensures Flood(g, n, src, dist, queue, head + 1)
  {
    forall v: nat | v < n && g(queue[head], v) ensures dist[v] <= dist[queue[head]] + 1 {
      var j :| 0 <= j < |queue| && queue[j] == v;
    }
  }

  /** A flood whose frontier has reached distance k has found everything within k. */
  lemma {:induction false} FloodComplete(g: Graph, n: nat, src: nat, dist: seq<int>, queue: seq<nat>, head: nat,
                                         v: nat, k: nat)
    requires Flood(g, n, src, dist, queue, head)
    requires head == |queue| || dist[queue[head]] >= k
    requires Within(g, n, src, v, k)
    ensures 0 <= dist[v] <= k
    decreases k
  {
    if k > 0 {
      if Within(g, n, src, v, k - 1) {
        FloodComplete(g, n, src, dist, queue, head, v, k - 1);
      } else {
        var u: nat :| u < n && Within(g, n, src, u, k - 1) && g(u, v);
        FloodComplete(g, n, src, dist, queue, head, u, k - 1);
        var i :| 0 <= i < |queue| && queue[i] == u;
      }
    }
  }

  /** The node at the head of a flood stands at exactly its recorded distance. */
  lemma HeadIsExact(g: Graph, n: nat, src: nat, dist: seq<int>, queue: seq<nat>, head: nat)
    requires Flood(g, n, src, dist, queue, head) && head < |queue|
    ensures IsDist(g, n, src, queue[head], dist[queue[head]])
  {
    var d := dist[queue[head]];
    if d > 0 && Within(g, n, src, queue[head], d - 1) {
      FloodComplete(g, n, src, dist, queue, head, queue[head], d - 1);
    }
  }

  /** A finished flood has reached exactly the reachable nodes, each at its distance. */
  lemma FinishedFlood(g: Graph, n: nat, src: nat, dist: seq<int>, queue: seq<nat>, v: nat)
    requires Flood(g, n, src, dist, queue, |queue|) && v < n
    ensures dist[v] >= 0 <==> Reaches(g, n, src, v)
    ensures dist[v] >= 0 ==> IsDist(g, n, src, v, dist[v])
  {
    if dist[v] >= 0 {
      var d := dist[v];
      if d > 0 && Within(g, n, src, v, d - 1) {
        FloodComplete(g, n, src, dist, queue, |queue|, v, d - 1);
      }
    }
    if k :| Within(g, n, src, v, k) {
      FloodComplete(g, n, src, dist, queue, |queue|, v, k);
    }
  }

  /** A neighbour is at most one step closer. */
  lemma NeighbourBound(g: Graph, n: nat, src: nat, m: nat, c: nat, d: nat, j: nat)
    requires IsDist(g, n, src, c, d) && c < n && Within(g, n, src, m, j) && g(m, c)
    ensures d <= j + 1
  {
    WithinStep(g, n, src, m, c, j);
    if j + 1 < d { WithinGrows(g, n, src, c, j + 1, d - 1); }
  }

  /** Distinct nodes below n: no more than n of them. */
  lemma {:induction false} DistinctBound(queue: seq<nat>, n: nat)
    requires forall i :: 0 <= i < |queue| ==> queue[i] < n
    requires Distinct(queue)
    ensures |queue| <= n
    decreases n
  {
    if queue != [] {
      assert queue[0] < n;
      if i :| 0 <= i < |queue| && queue[i] == n - 1 {
        WithoutDistinct(queue, i);
        DistinctBound(Without(queue, i), n - 1);
      } else {
        DistinctBound(queue, n - 1);
      }
    }
  }

  /** Downhill from a node at distance d > 0: its reached neighbours with a smaller recorded distance are the ones
      at distance d - 1, and there is one. */
  lemma Downhill(g: Graph, n: nat, src: nat, dist: seq<int>, queue: seq<nat>, head: nat)
    requires Symmetric(g, n) && Flood(g, n, src, dist, queue, head) && head < |queue|
    requires dist[queue[head]] > 0
    ensures forall m: nat :: m < n && g(queue[head], m) ==>
              (0 <= dist[m] < dist[queue[head]] <==> IsDist(g, n, src, m, dist[queue[head]] - 1))
    ensures forall m: nat :: m < n && g(queue[head], m) && 0 <= dist[m] < dist[queue[head]] ==>
            dist[m] == dist[queue[head]] - 1
    ensures exists m: nat :: m < n && g(queue[head], m) && 0 <= dist[m] < dist[queue[head]]
  {
    var c, d := queue[head], dist[queue[head]];
    HeadIsExact(g, n, src, dist, queue, head);
    forall m: nat | m < n && g(c, m)
      ensures 0 <= dist[m] < d <==> IsDist(g, n, src, m, d - 1)
      ensures 0 <= dist[m] < d ==> dist[m] == d - 1
    {
      assert g(m, c);
      if 0 <= dist[m] < d {
        NeighbourBound(g, n, src, m, c, d, dist[m]);
      }
      if IsDist(g, n, src, m, d - 1) { FloodComplete(g, n, src, dist, queue, head, m, d - 1); }
    }
    var u := Predecessor(g, n, src, c, d);
    assert g(c, u);
  }

  /** What the program's own indexing relies on. */
  lemma FloodFacts(g: Graph, n: nat, src: nat, dist: seq<int>, queue: seq<nat>, head: nat)
    requires Flood(g, n, src, dist, queue, head)
    ensures |dist| == n && |queue| <= n
    ensures forall i :: 0 <= i < |queue| ==> queue[i] < n && dist[queue[i]] >= 0
    ensures forall i, j :: 0 <= i < j < |queue| ==> queue[i] != queue[j]
  {
    DistinctBound(queue, n);
  }

  lemma QueueIsReached(g: Graph, n: nat, src: nat, dist: seq<int>, queue: seq<nat>, head: nat, v: nat)
    requires Flood(g, n, src, dist, queue, head) && v < n
    ensures v in queue <==> dist[v] >= 0
  {}

  // ---- Walks compose ----

  lemma {:induction false} ReachesOn(g: Graph, n: nat, a: nat, b: nat, c: nat, k: nat)
    requires Reaches(g, n, a, b) && Within(g, n, b, c, k)
    ensures Reaches(g, n, a, c)
    decreases k
  {
    if k > 0 {
      if Within(g, n, b, c, k - 1) {
        ReachesOn(g, n, a, b, c, k - 1);
      } else {
        var u: nat :| u < n && Within(g, n, b, u, k - 1) && g(u, c);
        ReachesOn(g, n, a, b, u, k - 1);
        var j: nat :| Within(g, n, a, u, j);
        WithinStep(g, n, a, u, c, j);
      }
    }
  }

  lemma ReachesTrans(g: Graph, n: nat, a: nat, b: nat, c: nat)
    requires Reaches(g, n, a, b) && Reaches(g, n, b, c)
    ensures Reaches(g, n, a, c)
  {
    var k: nat :| Within(g, n, b, c, k);
    ReachesOn(g, n, a, b, c, k);
  }

  lemma ReachesEdge(g: Graph, n: nat, a: nat, b: nat)
    requires a < n && b < n && g(a, b)
    ensures Reaches(g, n, a, b)
  {
    assert Within(g, n, a, a, 0);
    WithinStep(g, n, a, a, b, 0);
  }

  lemma {:induction false} WithinBack(g: Graph, n: nat, a: nat, v: nat, k: nat)
    requires Symmetric(g, n) && a < n && Within(g, n, a, v, k)
    ensures Reaches(g, n, v, a)
    decreases k
  {
    if k == 0 {
      assert Within(g, n, v, a, 0);
    } else if Within(g, n, a, v, k - 1) {
      WithinBack(g, n, a, v, k - 1);
    } else {
      var u: nat :| u < n && Within(g, n, a, u, k - 1) && g(u, v);
      WithinBack(g, n, a, u, k - 1);
      assert g(v, u);
      ReachesEdge(g, n, v, u);
      ReachesTrans(g, n, v, u, a);
    }
  }

  lemma ReachesBack(g: Graph, n: nat, a: nat, v: nat)
    requires Symmetric(g, n) && a < n && Reaches(g, n, a, v)
    ensures Reaches(g, n, v, a)
  {
    var k: nat :| Within(g, n, a, v, k);
    WithinBack(g, n, a, v, k);
  }
}
