/** How a building grows: attempt by attempt, until it has the rooms it drew or its attempts are spent. */
module Grown {
  import opened Wrappers
  import opened Draws
  import opened Levels

  /** A draw over n picks the number its fraction falls in. */
  lemma ADrawPicks(u: Stream, i: nat, n: nat, k: nat)
    requires n > 0
    ensures Intn(u, i, n) == k <==> k as real <= u(i) * n as real < (k + 1) as real
  {
    assert Part(u(i), n as real) == u(i) * n as real;
  }

  /** The room an attempt proposes on one side of a host, from its own six draws: five to twelve metres either way,
      hung on the line of that side, slid along it by up to four tenths of the host's length, two steps up to two
      down. */
  predicate Proposed(u: Stream, d: nat, host: Sector, side: nat, s: Sector) {
    && s.maxX - s.minX == 5.0 + u(d + 2) * 7.0 && s.maxY - s.minY == 5.0 + u(d + 3) * 7.0
    && s.floorZ == host.floorZ + (Intn(u, d + 5, 5) - 2) as real * 0.3
    && (side == 0 ==> s.minX == host.maxX) && (side == 1 ==> s.maxX == host.minX)
    && (side == 2 ==> s.minY == host.maxY) && (side == 3 ==> s.maxY == host.minY)
    && (if side < 2 then s.minY == host.minY + (u(d + 4) * 2.0 - 1.0) * (host.maxY - host.minY) * 0.4
        else s.minX == host.minX + (u(d + 4) * 2.0 - 1.0) * (host.maxX - host.minX) * 0.4)
  }

  /** How much two rooms have in common along one axis. */
  function Common(a: Sector, b: Sector, onX: bool): real {
    if onX then MinR(a.maxX, b.maxX) - MaxR(a.minX, b.minX) else MinR(a.maxY, b.maxY) - MaxR(a.minY, b.minY)
  }

  /** Two rooms have floor in common. */
  predicate ShareFloor(a: Sector, b: Sector) {
    Common(a, b, true) > 0.000000001 && Common(a, b, false) > 0.000000001
  }

  /** A doorway of two metres in the middle of what the two rooms share, on the line they share. */
  predicate IsDoorway(p: Portal, host: Sector, side: nat, s: Sector) {
    && p.a == host.id && p.b == s.id && p.vertical == (side < 2)
    && p.at == (match side case 0 => host.maxX case 1 => host.minX case 2 => host.maxY case _ => host.minY)
    && p.hi - p.lo == 2.0
    && p.lo + p.hi == if side < 2 then MaxR(host.minY, s.minY) + MinR(host.maxY, s.maxY)
                      else MaxR(host.minX, s.minX) + MinR(host.maxX, s.maxX)
  }

  /** What one attempt makes of a building: the room it proposes, if that shares enough wall with its host for a doorway
      and no floor with any room that stands, and otherwise nothing. */
  predicate Tried(u: Stream, d: nat, l: Level, m: Level, s: Sector)
    requires |l.sectors| > 0
  {
    var host, side := l.sectors[Intn(u, d, |l.sectors|)], Intn(u, d + 1, 4);
    && s.id == |l.sectors| && Proposed(u, d, host, side, s)
    && if Common(host, s, side >= 2) >= 3.3 && forall k :: 0 <= k < |l.sectors| ==> !ShareFloor(s, l.sectors[k])
       then m.sectors == l.sectors + [s] && |m.portals| == |l.portals| + 1 && m.portals[..|l.portals|] == l.portals
            && IsDoorway(m.portals[|l.portals|], host, side, s)
       else m == l
  }

  /** A growth: one room at the origin, and then every attempt in turn. */
  ghost predicate Growth(u: Stream, levels: seq<Level>, proposals: seq<Sector>) {
    && |levels| == |proposals| + 1
    && levels[0] == Level([Sector(0, 0.0, 0.0, 5.0 + u(1) * 7.0, 5.0 + u(2) * 7.0, 0.0)], [])
    && forall k :: 0 <= k < |proposals| ==>
         |levels[k].sectors| > 0 && Tried(u, 3 + 6 * k, levels[k], levels[k+1], proposals[k])
  }

  lemma ProposalFits(u: Stream, d: nat, host: Sector, side: nat, id: nat)
    requires Sized(host) && side < 4
    ensures var s, placed := Hung(u, d + 2, host, side, id), PlaceAdjacent(u, d + 2, host, side, id);
            && s.id == id && Sized(s) && Proposed(u, d, host, side, s)
            && (placed.Some? <==> Common(host, s, side >= 2) >= 3.3)
            && (placed.Some? ==> placed.value.0 == s && IsDoorway(placed.value.1, host, side, s))
  {
    hide Intn;
    RoomSizeInRange(u, d + 2);
    RoomSizeInRange(u, d + 3);
    var s := Hung(u, d + 2, host, side, id);
    assert Low(s, true) == s.minX && Low(s, false) == s.minY && High(s, true) == s.maxX && High(s, false) == s.maxY;
    assert Low(host, true) == host.minX && Low(host, false) == host.minY && High(host, true) == host.maxX
        && High(host, false) == host.maxY;
  }

  lemma OverlapIsShared(a: Sector, b: Sector)
    requires Sized(a) && Sized(b)
    ensures Overlap(a, b) <==> ShareFloor(a, b)
  {
    assert Low(a, true) == a.minX && Low(a, false) == a.minY && High(a, true) == a.maxX && High(a, false) == a.maxY;
    assert Low(b, true) == b.minX && Low(b, false) == b.minY && High(b, true) == b.maxX && High(b, false) == b.maxY;
  }

  lemma AnAttemptTries(u: Stream, d: nat, l: Level)
    requires WellBuilt(l)
    ensures exists s :: Tried(u, d, l, Attempt(u, d, l), s)
  {
    hide Hung, PlaceAdjacent, Proposed, Common, ShareFloor, IsDoorway, Sized, IsTree, Overlap, Intn;
    var n, host, side := |l.sectors|, l.sectors[Intn(u, d, |l.sectors|)], Intn(u, d + 1, 4);
    ProposalFits(u, d, host, side, n);
    var s := Hung(u, d + 2, host, side, n);
    forall k | 0 <= k < n ensures Overlap(s, l.sectors[k]) <==> ShareFloor(s, l.sectors[k]) {
      OverlapIsShared(s, l.sectors[k]);
    }
    assert Tried(u, d, l, Attempt(u, d, l), s);
  }

  /** From some attempt on: the levels passed through, what was proposed, and where it ends. */
  lemma {:induction false} GrowsOn(u: Stream, done: nat, l: Level, attempts: nat, target: nat)
    returns (levels: seq<Level>, proposals: seq<Sector>)
    requires WellBuilt(l)
    ensures |levels| == |proposals| + 1 && levels[0] == l && |proposals| <= attempts
    ensures levels[|proposals|] == Grow(u, 3 + 6 * done, l, attempts, target)
    ensures forall k :: 0 <= k < |proposals| ==>
              0 < |levels[k].sectors| < target && Tried(u, 3 + 6 * (done + k), levels[k], levels[k+1], proposals[k])
    ensures |proposals| < attempts ==> |levels[|proposals|].sectors| >= target
    decreases attempts
  {
    hide Tried, WellBuilt, Attempt;
    WellBuiltHasRooms(l);
    levels, proposals := [l], [];
    if attempts > 0 && |l.sectors| < target {
      var d := 3 + 6 * done;
      AttemptKeeps(u, d, l);
      AnAttemptTries(u, d, l);
      var s :| Tried(u, d, l, Attempt(u, d, l), s);
      var ls, ps := GrowsOn(u, done + 1, Attempt(u, d, l), attempts - 1, target);
      levels, proposals := [l] + ls, [s] + ps;
      forall k | 0 <= k < |proposals|
        ensures 0 < |levels[k].sectors| < target && Tried(u, 3 + 6 * (done + k), levels[k], levels[k+1], proposals[k])
      {
        if k > 0 { assert Tried(u, 3 + 6 * (done + 1 + (k - 1)), ls[k-1], ls[k], ps[k-1]); }
      }
    }
  }

  lemma {:induction false} NeverPast(u: Stream, levels: seq<Level>, proposals: seq<Sector>, target: nat, k: nat)
    requires Growth(u, levels, proposals) && k < |levels|
    requires target >= 1 && forall j :: 0 <= j < |proposals| ==> |levels[j].sectors| < target
    ensures |levels[k].sectors| <= target
  {
    hide Proposed, IsDoorway, Common, ShareFloor;
    if k > 0 { assert Tried(u, 3 + 6 * (k - 1), levels[k-1], levels[k], proposals[k-1]); }
  }

  /** A growth that stops where it should: no attempt is made once the rooms drawn are there, and it ends with exactly
      that many, or after four hundred attempts. */
  ghost predicate GrowthTo(u: Stream, l: Level, levels: seq<Level>, proposals: seq<Sector>) {
    var target := 7 + Intn(u, 0, 5);
    && Growth(u, levels, proposals) && levels[|proposals|] == l && |proposals| <= 400
    && (forall k :: 0 <= k < |proposals| ==> |levels[k].sectors| < target)
    && |l.sectors| <= target && (|l.sectors| == target || |proposals| == 400)
  }

  /** Every building, from its draws: it is what its attempts make of one first room, none of them made once it has the
      rooms it drew, seven to eleven; and it ends with exactly that many, or after four hundred attempts. */
  lemma ABuildingGrowsToWhatItDrew(u: Stream)
    ensures 7 <= 7 + Intn(u, 0, 5) <= 11
    ensures exists levels, proposals :: GrowthTo(u, Generated(u), levels, proposals)
  {
    hide Tried, WellBuilt, Grow, Intn, RoomSize;
    FirstIsWellBuilt(u);
    var levels, proposals := GrowsOn(u, 0, FirstRoom(u), GENERATION_ATTEMPTS, Target(u));
    FirstIs(u);
    assert forall k :: 0 <= k < |proposals| ==> Tried(u, 3 + 6 * (0 + k), levels[k], levels[k+1], proposals[k]);
    assert Growth(u, levels, proposals);
    NeverPast(u, levels, proposals, Target(u), |proposals|);
    assert GrowthTo(u, Generated(u), levels, proposals);
  }

  lemma FirstIs(u: Stream)
    ensures FirstRoom(u) == Level([Sector(0, 0.0, 0.0, 5.0 + u(1) * 7.0, 5.0 + u(2) * 7.0, 0.0)], [])
  {}

  lemma FirstIsWellBuilt(u: Stream)
    ensures WellBuilt(FirstRoom(u))
  {
    RoomSizeInRange(u, 1);
    RoomSizeInRange(u, 2);
  }

  // ---- Two streams ----

  /** Always the newest room, always its +Y side, and every other draw one half. */
  function Climbing(): Stream { (i: nat) => if i >= 3 && i % 6 == 3 then 0.99 else 0.5 }

  function Storey(i: nat): Sector { Sector(i, 0.0, 8.5 * i as real, 8.5, 8.5 * (i + 1) as real, 0.0) }

  function Storeys(n: nat): Level {
    Level(seq(n, i requires 0 <= i < n => Storey(i)),
          seq(if n > 0 then n - 1 else 0, i requires 0 <= i => Hatch(i)))
  }

  /** The portal from a storey to the next. */
  function Hatch(i: nat): Portal { Portal(i, i + 1, false, 8.5 * (i + 1) as real, 3.25, 5.25) }

  lemma NextStorey(u: Stream, d: nat, h: nat, n: nat)
    requires u(d + 2) == 0.5 && u(d + 3) == 0.5 && u(d + 4) == 0.5 && u(d + 5) == 0.5
    ensures PlaceAdjacent(u, d + 2, Storey(h), 2, n) == Some((Storey(h + 1).(id := n), Hatch(h).(b := n)))
  {
    ADrawPicks(u, d + 5, 5, 2);
    assert Part(0.5, ROOM_MAX - ROOM_MIN) == 3.5;
    assert Slide(u, d + 4, 8.5) == 0.0;
    assert 8.5 * h as real + 8.5 == 8.5 * (h + 1) as real && 8.5 * (h + 1) as real + 8.5 == 8.5 * (h + 2) as real;
  }

  lemma StoreyByStorey(n: nat)
    requires 0 < n < 9
    ensures Attempt(Climbing(), 3 + 6 * (n - 1), Storeys(n)) == Storeys(n + 1)
  {
    hide Overlap, PlaceAdjacent, Storey, Storeys, Intn, Hatch;
    var u, d, l := Climbing(), 3 + 6 * (n - 1), Storeys(n);
    OneMoreStorey(n);
    ADrawPicks(u, d, n, n - 1);
    ADrawPicks(u, d + 1, 4, 2);
    NextStorey(u, d, n - 1, n);
    HatchGoesUp(n);
    forall k | 0 <= k < n ensures !Overlap(Storey(n), l.sectors[k]) { StoreysAreApart(n, k); }
  }

  lemma OneMoreStorey(n: nat)
    requires n > 0
    ensures var l := Storeys(n);
            && |l.sectors| == n && (forall k :: 0 <= k < n ==> l.sectors[k] == Storey(k))
            && Level(l.sectors + [Storey(n)], l.portals + [Hatch(n - 1)]) == Storeys(n + 1)
  {}

  lemma HatchGoesUp(n: nat)
    requires n > 0
    ensures Hatch(n - 1).(b := n) == Hatch(n - 1) && Storey(n).(id := n) == Storey(n)
  {}

  lemma StoreysAreApart(n: nat, k: nat)
    requires k < n
    ensures !Overlap(Storey(n), Storey(k))
  {}

  lemma {:induction false} ClimbsTo(n: nat, attempts: nat)
    requires 0 < n <= 9 && attempts >= 9 - n
    ensures Grow(Climbing(), 3 + 6 * (n - 1), Storeys(n), attempts, 9) == Storeys(9)
    decreases 9 - n
  {
    hide Attempt;
    if n < 9 {
      StoreyByStorey(n);
      ClimbsTo(n + 1, attempts - 1);
    }
  }

  /** A stream whose building has all nine rooms it drew, one behind the other, after eight attempts. */
  lemma NineRoomsInARow()
    ensures Generated(Climbing()) == Storeys(9) && |Storeys(9).sectors| == 9 && 7 + Intn(Climbing(), 0, 5) == 9
  {
    ADrawPicks(Climbing(), 0, 5, 2);
    assert FirstRoom(Climbing()) == Storeys(1);
    ClimbsTo(1, GENERATION_ATTEMPTS);
  }

  function Halves(): Stream { (i: nat) => 0.5 }

  lemma AHalfAdds(d: nat, n: nat)
    requires 0 < n <= 3
    ensures Attempt(Halves(), d, Storeys(n)) == Storeys(if n < 3 then n + 1 else 3)
  {
    hide Overlap, PlaceAdjacent, Storey, Storeys, Intn, Hatch;
    var u, l, h := Halves(), Storeys(n), n / 2;
    OneMoreStorey(n);
    ADrawPicks(u, d, n, h);
    ADrawPicks(u, d + 1, 4, 2);
    NextStorey(u, d, h, n);
    if n < 3 {
      HatchGoesUp(n);
      forall k | 0 <= k < n ensures !Overlap(Storey(n), l.sectors[k]) { StoreysAreApart(n, k); }
    } else {
      SameSpotOverlaps(Storey(2).(id := n));
      assert l.sectors[2] == Storey(2);
    }
  }

  lemma SameSpotOverlaps(s: Sector)
    requires s == Storey(2).(id := s.id)
    ensures Overlap(s, Storey(2))
  {}

  lemma {:induction false} HalvesStop(d: nat, n: nat, attempts: nat)
    requires 0 < n <= 3 && attempts >= 3 - n
    ensures Grow(Halves(), d, Storeys(n), attempts, 9) == Storeys(3)
    decreases attempts
  {
    hide Attempt;
    if attempts > 0 {
      AHalfAdds(d, n);
      HalvesStop(d + 6, if n < 3 then n + 1 else 3, attempts - 1);
    }
  }

  /** The other end: nothing but halves draws nine rooms, hangs the third on its second attempt, and never another:
      the rest of the four hundred all propose the room that stands already. */
  lemma NothingButHalvesRunsOut()
    ensures Generated(Halves()) == Storeys(3) && 7 + Intn(Halves(), 0, 5) == 9
  {
    ADrawPicks(Halves(), 0, 5, 2);
    assert FirstRoom(Halves()) == Storeys(1);
    HalvesStop(3, 1, GENERATION_ATTEMPTS);
  }
}
