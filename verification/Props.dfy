/** The things on the office floor that can be picked up: one kind of them, its catalogue of spots, and where each one
    stands or is away from. */
module Props {
  import opened Wrappers
  import opened Sequences
  import opened Plane
  import opened Draws

  const PLAYER_RADIUS: real := 0.35

  /** A prop is away while `gone` is positive, and then its spot is the one it was taken from. */
  datatype Prop = Prop(spot: int, gone: real)

  /** Somebody on the floor who might take one. */
  datatype Body = Body(alive: bool, pos: Vec2)

  predicate Standing(p: Prop) { p.gone <= 0.0 }

  /** Every prop has a spot of the catalogue to itself. */
  predicate Settled(props: seq<Prop>, n: nat) {
    && |props| <= n && (forall i :: 0 <= i < |props| ==> 0 <= props[i].spot < n)
    && (forall i, j :: 0 <= i < j < |props| ==> props[i].spot != props[j].spot)
  }

  // ---- Where one stands ----

  /** A spot a sibling has, other than by sharing the one to be avoided. */
  predicate Used(siblings: seq<Prop>, avoid: int, spot: int) {
    spot != avoid && exists i :: 0 <= i < |siblings| && siblings[i].spot == spot
  }

  predicate Elsewhere(siblings: seq<Prop>, avoid: int, spot: int) { spot != avoid && !Used(siblings, avoid, spot) }

  /** Among the catalogue's spots: one no sibling has and it did not just leave, or failing that one no sibling has. */
  predicate MayDraw(n: nat, siblings: seq<Prop>, avoid: int, spot: int) {
    && 0 <= spot < n && !Used(siblings, avoid, spot)
    && ((exists s :: 0 <= s < n && Elsewhere(siblings, avoid, s)) ==> Elsewhere(siblings, avoid, spot))
  }

  method FreeSpots(n: nat, siblings: seq<Prop>, avoid: int, strict: bool) returns (free: seq<int>)
    ensures forall k :: 0 <= k < |free| ==>
            0 <= free[k] < n && !Used(siblings, avoid, free[k]) && (strict ==> free[k] != avoid)
    ensures forall s :: 0 <= s < n && !Used(siblings, avoid, s) && (strict ==> s != avoid) ==> s in free
  {
    free := [];
    for i := 0 to n
      invariant forall k :: 0 <= k < |free| ==>
                0 <= free[k] < n && !Used(siblings, avoid, free[k]) && (strict ==> free[k] != avoid)
      invariant forall s :: 0 <= s < i && !Used(siblings, avoid, s) && (strict ==> s != avoid) ==> s in free
    {
      if !Used(siblings, avoid, i) && (!strict || i != avoid) { free := free + [i]; }
    }
  }

  /** Where a prop stands next. Somewhere is always better than nowhere: with every spot taken it goes back. */
  method DrawSpot(n: nat, siblings: seq<Prop>, avoid: int, u: Stream, at: nat) returns (spot: int)
    ensures n == 0 ==> spot == 0
    ensures (exists s :: 0 <= s < n && !Used(siblings, avoid, s)) ==> MayDraw(n, siblings, avoid, spot)
    ensures n > 0 && (forall s :: 0 <= s < n ==> Used(siblings, avoid, s)) ==>
              spot == (if avoid < 0 then 0 else if avoid > n - 1 then n - 1 else avoid)
  {
    if n == 0 { return 0; }
    var free := FreeSpots(n, siblings, avoid, true);
    if |free| == 0 {
      free := FreeSpots(n, siblings, avoid, false);
    }
    if |free| == 0 { return if avoid < 0 then 0 else if avoid > n - 1 then n - 1 else avoid; }
    return free[Intn(u, at, |free|)];
  }

  /** n holes are not filled by fewer than n. */
  lemma {:induction false} Pigeonhole(spots: seq<int>, n: nat) returns (s: int)
    requires |spots| < n
    ensures 0 <= s < n && s !in spots
    decreases n
  {
    if k :| 0 <= k < |spots| && spots[k] == n - 1 {
      s := Pigeonhole(Without(spots, k), n - 1);
      WithoutMembers(spots, k);
    } else {
      s := n - 1;
    }
  }

  /** Fewer props than spots leave one over. */
  lemma SomeSpotIsLeft(props: seq<Prop>, n: nat) returns (s: int)
    requires |props| < n
    ensures 0 <= s < n && forall i :: 0 <= i < |props| ==> props[i].spot != s
  {
    var spots := seq(|props|, k requires 0 <= k < |props| => props[k].spot);
    s := Pigeonhole(spots, n);
    forall k | 0 <= k < |props| ensures props[k].spot != s { assert spots[k] == props[k].spot; }
  }

  // ---- Those that stand ----

  function StandingOf(props: seq<Prop>): (r: seq<Prop>)
    ensures |r| <= |props| && forall k :: 0 <= k < |r| ==> r[k] in props && Standing(r[k])
    decreases |props|
  {
    if props == [] then []
    else
      var rest := StandingOf(props[..|props|-1]);
      if Standing(props[|props|-1]) then rest + [props[|props|-1]] else rest
  }

  lemma {:induction false} StandingJoins(a: seq<Prop>, b: seq<Prop>)
    ensures StandingOf(a + b) == StandingOf(a) + StandingOf(b)
    decreases |b|
  {
    if b == [] {
      assert a + b == a;
    } else {
      var k := |b| - 1;
      assert (a + b)[..|a + b| - 1] == a + b[..k];
      StandingJoins(a, b[..k]);
    }
  }

  lemma {:induction false} AllStanding(props: seq<Prop>)
    ensures |StandingOf(props)| == |props| <==> forall i :: 0 <= i < |props| ==> Standing(props[i])
    decreases |props|
  {
    if props != [] { AllStanding(props[..|props|-1]); }
  }

  /** The bits of the frame: which spots have one standing on them. */
  function Mask(props: seq<Prop>): set<int> { set i | 0 <= i < |props| && Standing(props[i]) :: props[i].spot }

  /** A bit of the frame is set exactly when something on that spot is not away. */
  lemma TheMaskIs(props: seq<Prop>, spot: int)
    ensures spot in Mask(props) <==> exists i :: 0 <= i < |props| && props[i].spot == spot && !(props[i].gone > 0.0)
  {
    if i :| 0 <= i < |props| && props[i].spot == spot && !(props[i].gone > 0.0) { assert Standing(props[i]); }
  }

  /** No two share a bit, so the frame shows as many as there are. */
  lemma {:induction false} TheMaskShowsThemAll(props: seq<Prop>, n: nat)
    requires Settled(props, n)
    ensures |Mask(props)| == |StandingOf(props)|
    decreases |props|
  {
    if props == [] {
      assert Mask(props) == {};
    } else {
      var k := |props| - 1;
      var p := props[k];
      TheMaskShowsThemAll(props[..k], n);
      assert props == props[..k] + [p];
      MaskGrows(props[..k], p);
      assert p.spot !in Mask(props[..k]);
      hide Mask, Settled;
      if Standing(p) { assert |Mask(props[..k]) + {p.spot}| == |Mask(props[..k])| + 1; }
    }
  }

  lemma MaskGrows(props: seq<Prop>, p: Prop)
    ensures Mask(props + [p]) == Mask(props) + if Standing(p) then {p.spot} else {}
  {
    var all := props + [p];
    forall s | s in Mask(props) ensures s in Mask(all) {
      var i :| 0 <= i < |props| && Standing(props[i]) && props[i].spot == s;
      assert all[i] == props[i];
    }
    if Standing(p) { assert all[|props|] == p; }
  }

  // ---- One kind of prop ----

  /** Near enough to take it. */
  predicate InReach(b: Body, at: Vec2, reach: real) {
    var dx, dy, r := b.pos.x - at.x, b.pos.y - at.y, reach + PLAYER_RADIUS;
    b.alive && dx * dx + dy * dy <= r * r
  }

  class Kind {
    const spots: seq<Vec2>
    const back: real
    const reach: real
    var props: seq<Prop>

    predicate Valid()
      reads this
    {
      |spots| > 0 && back > 0.0 && reach >= 0.0 && Settled(props, |spots|)
    }

    constructor (spots: seq<Vec2>, back: real, reach: real)
      requires |spots| > 0 && back > 0.0 && reach >= 0.0
      ensures Valid() && props == [] && this.spots == spots && this.back == back && this.reach == reach
    {
      this.spots, this.back, this.reach, props := spots, back, reach, [];
    }

    /** One per person, no more than there are spots: growth is immediate, and only what nobody can see is dropped. */
    method Reconcile(want: nat, u: Stream, at: nat)
      requires Valid()
      modifies this
      ensures Valid()
      ensures var w := if want < |spots| then want else |spots|;
              if |old(props)| <= w then
                |props| == w && old(props) <= props && forall i :: |old(props)| <= i < w ==> Standing(props[i])
              else
                && StandingOf(props) == StandingOf(old(props))
                && (forall i :: 0 <= i < |props| ==> props[i] in old(props))
                && |props| == if |StandingOf(old(props))| > w then |StandingOf(old(props))| else w
    {
      var w := if want < |spots| then want else |spots|;
      GrowTo(w, u, at);
      DropSpare(w);
    }

    /** A new prop at once for everybody short of one. */
    method GrowTo(w: nat, u: Stream, at: nat)
      requires Valid() && w <= |spots|
      modifies this
      ensures Valid() && old(props) <= props && |props| == if |old(props)| <= w then w else |old(props)|
      ensures |old(props)| >= w ==> props == old(props)
      ensures forall i :: |old(props)| <= i < |props| ==> Standing(props[i])
    {
      var i := at;
      while |props| < w
        invariant |old(props)| >= w ==> props == old(props)
        invariant Valid() && old(props) <= props && |props| <= if |old(props)| <= w then w else |old(props)|
        invariant forall i :: |old(props)| <= i < |props| ==> Standing(props[i])
        decreases w - |props|
      {
        ghost var left := SomeSpotIsLeft(props, |spots|);
        assert !Used(props, -1, left) && Elsewhere(props, -1, left);
        var spot := DrawSpot(|spots|, props, -1, u, i);
        props := props + [Prop(spot, 0.0)];
        i := i + 1;
      }
    }

    /** One more than is wanted goes, the first that is away, until none away is left to go. */
    method DropSpare(w: nat)
      requires Valid()
      modifies this
      ensures Valid() && StandingOf(props) == StandingOf(old(props))
      ensures forall i :: 0 <= i < |props| ==> props[i] in old(props)
      ensures |old(props)| <= w ==> props == old(props)
      ensures |old(props)| > w ==> |props| == if |StandingOf(old(props))| > w then |StandingOf(old(props))| else w
    {
      hide Settled, StandingOf;
      while |props| > w
        invariant Valid() && StandingOf(props) == StandingOf(old(props))
        invariant |old(props)| <= w ==> props == old(props)
        invariant |old(props)| > w ==> |props| >= w
        invariant forall i :: 0 <= i < |props| ==> props[i] in old(props)
        decreases |props|
      {
        var k := 0;
        while k < |props| && Standing(props[k])
          invariant k <= |props| && forall j :: 0 <= j < k ==> Standing(props[j])
        {
          k := k + 1;
        }
        AllStanding(props);
        if k == |props| { break; }
        StandingWithout(props, k);
        SettledWithout(props, k, |spots|);
        props := Without(props, k);
      }
    }

    /** One prop, one tick: away, it only counts down, and comes back where no other is and, while there is a spot to
        spare, not where it was; standing, the first living body in reach takes it. */
    method StepProp(i: nat, bodies: seq<Body>, dt: real, u: Stream, at: nat) returns (taker: Option<nat>)
      requires Valid() && i < |props| && dt >= 0.0
      modifies this
      ensures Valid() && |props| == |old(props)| && forall j :: 0 <= j < |props| && j != i ==> props[j] == old(props)[j]
      ensures old(props)[i].gone > 0.0 ==>
                && taker.None?
                && props[i].gone == (if old(props)[i].gone <= dt then 0.0 else old(props)[i].gone - dt)
                && (props[i].gone > 0.0 ==> props[i].spot == old(props)[i].spot)
                && (props[i].gone == 0.0 && |props| < |spots| ==> props[i].spot != old(props)[i].spot)
      ensures old(props)[i].gone <= 0.0 ==>
                && props[i].spot == old(props)[i].spot
                && (if taker.Some? then props[i].gone == back
                    && IsFirst(bodies, spots[props[i].spot], reach, taker.value)
                    else props[i] == old(props)[i] && forall k :: 0 <= k < |bodies| ==>
                        !InReach(bodies[k], spots[props[i].spot], reach))
    {
      var p := props[i];
      if p.gone > 0.0 {
        var gone := MaxR(0.0, p.gone - dt);
        var spot := p.spot;
        if gone == 0.0 {
          assert !Used(props, p.spot, p.spot);
          if |props| < |spots| {
            ghost var spare := SomeSpotIsLeft(props, |spots|);
            assert Elsewhere(props, p.spot, spare);
          }
          spot := DrawSpot(|spots|, props, p.spot, u, at);
        }
        props := props[i := Prop(spot, gone)];
        return None;
      }
      var here := spots[p.spot];
      for k := 0 to |bodies|
        invariant props == old(props) && forall j :: 0 <= j < k ==> !InReach(bodies[j], here, reach)
      {
        if InReach(bodies[k], here, reach) {
          props := props[i := p.(gone := back)];
          return Some(k);
        }
      }
      return None;
    }
  }

  predicate IsFirst(bodies: seq<Body>, at: Vec2, reach: real, k: nat) {
    k < |bodies| && InReach(bodies[k], at, reach) && forall j :: 0 <= j < k ==> !InReach(bodies[j], at, reach)
  }

  lemma SettledWithout(props: seq<Prop>, k: nat, n: nat)
    requires Settled(props, n) && k < |props|
    ensures Settled(Without(props, k), n) && forall p :: p in Without(props, k) ==> p in props
  {
    WithoutMembers(props, k);
  }

  lemma AwayAlone(p: Prop)
    requires !Standing(p)
    ensures StandingOf([p]) == []
  {
    assert [p][..0] == [];
  }

  lemma StandingWithout(props: seq<Prop>, k: nat)
    requires k < |props| && !Standing(props[k])
    ensures StandingOf(Without(props, k)) == StandingOf(props)
  {
    hide StandingOf;
    assert props == props[..k] + ([props[k]] + props[k+1..]);
    StandingJoins(props[..k], props[k+1..]);
    StandingJoins(props[..k], [props[k]] + props[k+1..]);
    StandingJoins([props[k]], props[k+1..]);
    AwayAlone(props[k]);
  }
}
