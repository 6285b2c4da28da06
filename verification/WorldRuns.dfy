/** What holds of the shared building over every run: of every man, of every slop, and of everything it remembers. */
module WorldRuns {
  import opened Wrappers
  import opened Plane
  import opened Draws
  import opened Levels
  import opened CommandLane
  import opened LaneRuns
  import opened Soldier
  import opened Rewind
  import opened World

  // ---- The invariant ----

  /** A man fit to be stepped: a sound body in its own room, and while the world shelters him, whole and unneedled. */
  predicate Fit(l: Level, tick: nat, p: Person) {
    && Sound(p.body) && Stands(l, p.body.pos, p.body.sector) && QueueOk(p.lane)
    && (Protected(tick, p) ==> p.body.health == MAX_HEALTH && p.body.inject == 0.0)
    && p.protectedUntil <= tick + PROTECT_TICKS && p.downUntil <= tick + DOWN_TICKS
  }

  /** His own shelter clock shows no more than the world's deadline leaves him. */
  predicate Clamped(tick: nat, p: Person) { p.body.shelter <= ProtectLeft(tick, p) }

  predicate SlopFit(l: Level, s: Slop) { Stands(l, s.pos, s.sector) && 0 < s.health <= SLOP_HEALTH }

  ghost predicate AllFit(l: Level, w: State) {
    && (forall id :: id in w.people ==> Fit(l, w.tick, w.people[id]))
    && (forall i :: 0 <= i < |w.slops| && w.slops[i].Some? ==> SlopFit(l, w.slops[i].value))
  }

  ghost predicate AllClamped(w: State) { forall id :: id in w.people ==> Clamped(w.tick, w.people[id]) }

  /** Nobody's number is anybody else's, and every number issued is behind the counter. */
  ghost predicate Numbered(w: State) {
    && (forall r :: Holder(w, r).Some? ==> Holder(w, r).value < w.born)
    && (forall r, s :: Holder(w, r).Some? && Holder(w, s).Some? && r != s ==> Holder(w, r).value != Holder(w, s).value)
  }

  /** Everything remembered under a slot or a slop's place was remembered of whoever holds that number now. */
  ghost predicate Identified(w: State) {
    forall i, r :: 0 <= i < |w.past| && r in w.past[i].spots ==>
      Holder(w, r).Some? && w.past[i].spots[r].whose == {Holder(w, r).value}
  }

  /** Every remembered glimpse is of whoever holds the number now, by whoever holds the viewer's slot now. */
  ghost predicate OwnEyes(w: State) {
    forall k :: k in w.glimpses ==>
      Holder(w, Man(k.0)) == Some(w.glimpses[k].viewer) && Holder(w, k.1) == Some(w.glimpses[k].seen)
      && w.glimpses[k].at <= w.tick
  }

  /** Nothing the building remembers is of anybody who is gone. */
  ghost predicate Memory(w: State) { Identified(w) && OwnEyes(w) }

  ghost predicate Inv(l: Level, w: State) {
    WellBuilt(l) && Tables(w) && AllFit(l, w) && Numbered(w) && Memory(w)
  }

  ghost predicate Good(l: Level, w: State) { Inv(l, w) && AllClamped(w) }

  // ---- Changing one person ----

  /** Nobody came or went or changed hands, and no shelter clock ran ahead of the world's. */
  ghost predicate SamePeople(w: State, n: State) {
    && n.tick == w.tick && n.slots == w.slots && n.people.Keys == w.people.Keys && n.born == w.born
    && forall id :: id in w.people ==>
         && n.people[id].slot == w.people[id].slot && n.people[id].who == w.people[id].who
         && n.people[id].lane == w.people[id].lane
         && (Clamped(w.tick, w.people[id]) ==> Clamped(n.tick, n.people[id]))
  }

  /** As long as whoever held a number goes on holding it, what is remembered of him stays true. */
  lemma MemoryStays(w: State, n: State)
    requires Memory(w) && n.past == w.past && n.glimpses == w.glimpses && n.tick >= w.tick
    requires forall r :: Holder(w, r).Some? ==> Holder(n, r) == Holder(w, r)
    ensures Memory(n)
  {
    hide Holder;
  }

  /** Whoever gives up a number takes everything remembered under it with him. */
  lemma MemoryDrops(w: State, n: State, gone: Target)
    requires Memory(w) && n.past == Forgotten(w.past, gone) && n.tick == w.tick
    requires forall k :: k in n.glimpses ==>
             k in w.glimpses && n.glimpses[k] == w.glimpses[k] && k.1 != gone && Man(k.0) != gone
    requires forall r :: r != gone ==> Holder(n, r) == Holder(w, r)
    ensures Memory(n)
  {
    hide Holder;
  }

  lemma MemoryRecords(l: Level, w: State, now: real)
    requires Memory(w)
    ensures Memory(Recorded(l, w, now))
  {
    hide Numbers, CanSee;
    var n := Recorded(l, w, now);
    forall r ensures r in Numbers(w.slots, w.people, w.slops) <==> Holder(w, r).Some? { NumbersAreHeld(w, r); }
    assert forall r :: Holder(n, r) == Holder(w, r);
    NewFrameIsOfTheHolders(w);
    GlimpsesAreOfTheHolders(l, w);
    hide Holder, Spots, Glimpsed;
  }

  lemma NewFrameIsOfTheHolders(w: State)
    ensures var spots := Spots(w.slots, w.people, w.slops);
            forall r :: r in spots ==> Holder(w, r).Some? && spots[r].whose == {Holder(w, r).value}
  {
    hide Numbers;
    forall r ensures r in Numbers(w.slots, w.people, w.slops) <==> Holder(w, r).Some? { NumbersAreHeld(w, r); }
  }

  lemma GlimpsesAreOfTheHolders(l: Level, w: State)
    ensures var g := Glimpsed(l, w.tick, w.slots, w.people, w.slops);
            forall k :: k in g ==>
                Holder(w, Man(k.0)) == Some(g[k].viewer) && Holder(w, k.1) == Some(g[k].seen) && g[k].at == w.tick
  {
    hide Numbers, CanSee, SpotOf;
    forall r ensures r in Numbers(w.slots, w.people, w.slops) <==> Holder(w, r).Some? { NumbersAreHeld(w, r); }
  }

  lemma SameTrans(a: State, b: State, c: State)
    requires SamePeople(a, b) && SamePeople(b, c)
    ensures SamePeople(a, c)
  {}

  lemma PersonSet(l: Level, w: State, id: string, p: Person)
    requires Inv(l, w) && id in w.people && p.slot == w.people[id].slot && p.who == w.people[id].who
    requires Fit(l, w.tick, p)
    ensures Inv(l, w.(people := w.people[id := p]))
  {
    hide Fit, WellBuilt, Memory;
    var n := w.(people := w.people[id := p]);
    HoldersKept(w, n);
    MemoryStays(w, n);
  }

  lemma HoldersKept(w: State, n: State)
    requires n.slots == w.slots && n.people.Keys == w.people.Keys
             && (forall id :: id in w.people ==> n.people[id].who == w.people[id].who)
    requires forall i :: 0 <= i < |w.slops| ==>
               (n.slops[i].Some? <==> w.slops[i].Some?)
                   && (w.slops[i].Some? ==> n.slops[i].value.who == w.slops[i].value.who)
    ensures forall r :: Holder(n, r) == Holder(w, r)
  {}

  lemma HurtKeepsFit(l: Level, tick: nat, p: Person, damage: int)
    requires Fit(l, tick, p) && !Protected(tick, p) && p.body.health > 0 && damage > 0
    ensures var q := Hurt(tick, p, damage);
            Fit(l, tick, q) && (Clamped(tick, p) ==> Clamped(tick, q)) && q.slot == p.slot && q.who == p.who
                && q.lane == p.lane
  {
    hide Stands, QueueOk;
  }

  lemma RiseKeepsFit(l: Level, tick: nat, p: Person)
    requires WellBuilt(l) && Fit(l, tick, p)
    ensures var q := Rise(l, tick, p);
            Fit(l, tick, q) && (Clamped(tick, p) ==> Clamped(tick, q)) && q.slot == p.slot && q.who == p.who
                && q.lane == p.lane
    ensures Rise(l, tick, p).body.health > 0 || tick < p.downUntil
  {
    hide QueueOk;
    SpawnStands(l);
    hide WellBuilt;
  }

  lemma SpawnStands(l: Level)
    requires WellBuilt(l)
    ensures Stands(l, Spawn(l), 0)
  {
    hide Overlap, IsTree;
    assert Sized(l.sectors[0]);
    assert High(l.sectors[0], true) > Low(l.sectors[0], true) && High(l.sectors[0], false) > Low(l.sectors[0], false);
  }

  /** A step never shelters anybody, and a sheltered man stays whole through it. */
  lemma StepKeepsFit(l: Level, tick: nat, p: Person, o: Order, dt: real)
    requires WellBuilt(l) && Fit(l, tick, p) && dt >= 0.0
    ensures var q := p.(body := Soldier.Step(l, p.body, o, dt));
            Fit(l, tick, q) && (Clamped(tick, p) ==> Clamped(tick, q))
  {
    StepKeepsSound(l, p.body, o, dt);
    StepStands(l, p.body, o, dt);
    StepLowersClocks(l, p.body, o, dt);
    hide Soldier.Step, Stands, QueueOk, WellBuilt;
  }

  lemma StepLowersClocks(l: Level, p: Fighter, o: Order, dt: real)
    requires Sound(p) && dt >= 0.0
    ensures var q := Soldier.Step(l, p, o, dt);
            q.shelter <= p.shelter && (p.inject == 0.0 ==> q.inject == 0.0 && q.health == p.health)
  {
    hide Delivered, Resolve;
  }

  // ---- Shots and commands ----

  lemma KillKeeps(l: Level, w: State, id: nat)
    requires Inv(l, w) && id < SLOP_POPULATION
    ensures Inv(l, KillSlop(w, id)) && SamePeople(w, KillSlop(w, id))
  {
    hide Fit, WellBuilt, SlopFit, Clamped, Memory, Forgotten;
    var n := KillSlop(w, id);
    assert forall r :: r != Foe(id) ==> Holder(n, r) == Holder(w, r);
    MemoryDrops(w, n, Foe(id));
  }

  lemma ShotKeeps(l: Level, w: State, shooter: nat, aim: Option<Target>, instant: real)
    requires Inv(l, w)
    ensures var n := Shot(l, w, shooter, aim, instant); Inv(l, n) && SamePeople(w, n)
  {
    hide Fit, WellBuilt, Rewound, Inv, Hurt, Clamped;
    if aim.Some? && MayBeHit(l, w, shooter, aim.value, Rewound(w.past, instant)) {
      match aim.value {
        case Man(slot) =>
          var id := w.slots[slot];
          FitOf(l, w, id);
          HurtKeepsFit(l, w.tick, w.people[id], BARREL_DAMAGE);
          PersonSet(l, w, id, Hurt(w.tick, w.people[id], BARREL_DAMAGE));
        case Foe(id) =>
          SlopHealth(l, w, id);
          KillKeeps(l, w, id);
      }
    }
  }

  /** A shot harms at most what the ray met, by exactly one barrel, and never a man who is down or sheltered. */
  lemma AShotHarmsOnlyItsTarget(l: Level, w: State, shooter: nat, aim: Option<Target>, instant: real, id: string)
    requires Inv(l, w) && id in w.people && Shot(l, w, shooter, aim, instant).people[id] != w.people[id]
    ensures var (was, now) := (w.people[id], Shot(l, w, shooter, aim, instant).people[id]);
            && aim == Some(Man(was.slot)) && was.slot != shooter && was.body.health > 0 && !Protected(w.tick, was)
            && now.body.health == (if was.body.health > BARREL_DAMAGE then was.body.health - BARREL_DAMAGE else 0)
            && now.body.inject == 0.0 && now.body.loaded == was.body.loaded && now.lane == was.lane
            && (now.body.health == 0 ==>
                now.downUntil == w.tick + DOWN_TICKS && now.protectedUntil == 0 && !Ticking(now.body))
            && (now.body.health > 0 ==>
                now.downUntil == was.downUntil && now.body.cooldown == was.body.cooldown
                && now.body.reload == was.body.reload)
  {
    hide Fit, WellBuilt, Rewound, Memory, Numbered;
  }

  lemma FitOf(l: Level, w: State, id: string)
    requires Inv(l, w) && id in w.people
    ensures Fit(l, w.tick, w.people[id]) && WellBuilt(l) && |l.sectors| > 0
  {}

  lemma SlopHealth(l: Level, w: State, id: nat)
    requires Inv(l, w) && id < SLOP_POPULATION && w.slops[id].Some?
    ensures w.slops[id].value.health <= SLOP_HEALTH
  {}

  lemma ActedKeeps(l: Level, w: State, id: string, c: Command<Order>)
    requires Inv(l, w) && id in w.people && c.dt >= 0.0
    ensures Inv(l, Acted(l, w, id, c)) && SamePeople(w, Acted(l, w, id, c))
  {
    hide Fit, WellBuilt, Inv, Soldier.Step, Clamped;
    var p := w.people[id];
    FitOf(l, w, id);
    StepKeepsFit(l, w.tick, p, c.intent, c.dt);
    PersonSet(l, w, id, p.(body := Soldier.Step(l, p.body, c.intent, c.dt)));
  }

  lemma CommandKeeps(l: Level, w: State, id: string, c: Command<Order>, instant: real)
    requires Inv(l, w) && id in w.people && c.dt >= 0.0
    ensures var n := Commanded(l, w, id, c, instant); Inv(l, n) && SamePeople(w, n)
  {
    hide Inv, Shot, Acted, Clamped;
    var n := Acted(l, w, id, c);
    ActedKeeps(l, w, id, c);
    ShotKeeps(l, n, w.people[id].slot, c.intent.aim, instant);
    SameTrans(w, n, Shot(l, n, w.people[id].slot, c.intent.aim, instant));
  }

  lemma {:induction false} CommandsKeep(l: Level, w: State, id: string, cmds: seq<Command<Order>>, instant: real)
    requires Inv(l, w) && id in w.people && Forward(cmds)
    ensures var n := CommandedAll(l, w, id, cmds, instant); Inv(l, n) && SamePeople(w, n)
    decreases |cmds|
  {
    hide Inv, Commanded, Clamped;
    if cmds != [] {
      CommandKeeps(l, w, id, cmds[0], instant);
      var n := Commanded(l, w, id, cmds[0], instant);
      CommandsKeep(l, n, id, cmds[1..], instant);
      SameTrans(w, n, CommandedAll(l, n, id, cmds[1..], instant));
    }
  }

  // ---- A turn ----

  /** The close of a turn settles the man's own clock with the world's, and gives an ampoule only to the hurt, who are
      by that not sheltered. */
  lemma CloseKeeps(l: Level, tick: nat, p: Person, t: Ticked<Order>, reached: bool)
    requires WellBuilt(l) && Fit(l, tick, p) && QueueOk(t.lane)
    ensures var q := Closed(l, tick, p, t, reached);
            Fit(l, tick, q) && Clamped(tick, q) && q.slot == p.slot && q.who == p.who
  {
    if t.idle > 0.0 { StepKeepsFit(l, tick, p, STILLNESS, t.idle); }
    hide Soldier.Step, Stands, QueueOk, WellBuilt;
  }

  lemma TurnLane(l: Lane<Order>, wants: bool)
    requires QueueOk(l)
    ensures Forward(Tick(l, wants).stepped) && QueueOk(Tick(l, wants).lane)
  {
    TickPays(l, wants);
  }

  /** One turn keeps the invariant, settles the man whose turn it was, and unsettles nobody. */
  lemma TurnKeeps(l: Level, w: State, id: string, plan: Plan)
    requires Inv(l, w) && id in w.people && |l.sectors| > 0
    ensures var n := Turn(l, w, id, plan);
            && Inv(l, n) && n.tick == w.tick && n.people.Keys == w.people.Keys && Clamped(n.tick, n.people[id])
            && forall other :: other in w.people && Clamped(w.tick, w.people[other]) ==>
                Clamped(n.tick, n.people[other])
  {
    hide Inv, Fit, WellBuilt, Tick, Rise, Closed, CommandedAll, Clamped, QueueOk;
    FitOf(l, w, id);
    RisenKeeps(l, w, id);
    var p, risen, cmds := w.people[id], Risen(l, w, id), TurnCommands(w, id);
    LaneOf(l, w.tick, p);
    TurnLane(p.lane, false);
    CommandsKeep(l, risen, id, cmds, InstantOf(plan, id));
    var n := CommandedAll(l, risen, id, cmds, InstantOf(plan, id));
    var q := n.people[id];
    FitOf(l, n, id);
    var t := Tick(p.lane, Ticking(q.body));
    TurnLane(p.lane, Ticking(q.body));
    CloseKeeps(l, w.tick, q, t, id in plan.reached);
    PersonSet(l, n, id, Closed(l, w.tick, q, t, id in plan.reached));
  }

  lemma RisenKeeps(l: Level, w: State, id: string)
    requires Inv(l, w) && id in w.people && |l.sectors| > 0
    ensures Inv(l, Risen(l, w, id)) && SamePeople(w, Risen(l, w, id))
  {
    hide Inv, Fit, WellBuilt, Rise, Clamped;
    FitOf(l, w, id);
    RiseKeepsFit(l, w.tick, w.people[id]);
    PersonSet(l, w, id, Rise(l, w.tick, w.people[id]));
  }

  lemma LaneOf(l: Level, tick: nat, p: Person)
    requires Fit(l, tick, p)
    ensures QueueOk(p.lane)
  {}

  lemma {:induction false} TurnsKeep(l: Level, w: State, order: seq<string>, plan: Plan)
    requires Inv(l, w) && |l.sectors| > 0
    ensures var n := Turns(l, w, order, plan);
            && Inv(l, n) && n.tick == w.tick && n.people.Keys == w.people.Keys
            && forall id :: id in w.people && (id in order || Clamped(w.tick, w.people[id])) ==>
                Clamped(n.tick, n.people[id])
    decreases |order|
  {
    hide Inv, Turn, Clamped;
    if order != [] {
      if order[0] in w.people { TurnKeeps(l, w, order[0], plan); }
      var n := if order[0] in w.people then Turn(l, w, order[0], plan) else w;
      TurnsKeep(l, n, order[1..], plan);
      forall id | id in w.people && (id in order || Clamped(w.tick, w.people[id]))
        ensures Clamped(w.tick, Turns(l, w, order, plan).people[id])
      {
        assert id in order ==> id == order[0] || id in order[1..];
      }
    }
  }

  /** The rotation leaves nobody out. */
  lemma EverybodyHasATurn(keys: seq<string>, tick: nat, id: string)
    requires id in keys
    ensures id in TurnOrder(keys, tick)
  {
    var n, order := |keys|, TurnOrder(keys, tick);
    var j :| 0 <= j < n && keys[j] == id;
    var off := tick % n;
    var i := if j >= off then j - off else j - off + n;
    OnceAround(i + off, n);
    assert order[i] == keys[j];
  }

  // ---- The slops ----

  lemma RandomSpotInside(u: Stream, i: nat, s: Sector)
    requires Sized(s)
    ensures Contains(s, RandomSpot(u, i, s))
    ensures var p, inset := RandomSpot(u, i, s), 2.0 * PLAYER_RADIUS;
            s.minX + inset <= p.x <= s.maxX - inset && s.minY + inset <= p.y <= s.maxY - inset
  {
    assert High(s, true) - Low(s, true) >= ROOM_MIN && High(s, false) - Low(s, false) >= ROOM_MIN;
    FractionOf(u(i), s.maxX - s.minX - 4.0 * PLAYER_RADIUS);
    FractionOf(u(i + 1), s.maxY - s.minY - 4.0 * PLAYER_RADIUS);
  }

  /** A newcomer takes a place nobody had, so nothing remembered is of it. */
  lemma SlopPlaced(l: Level, w: State, free: nat, s: Slop, spawnAt: int)
    requires Inv(l, w) && free < SLOP_POPULATION && w.slops[free].None? && s.who == w.born && SlopFit(l, s)
    ensures Inv(l, w.(slops := w.slops[free := Some(s)], spawnAt := spawnAt, born := w.born + 1))
  {
    hide Fit, SlopFit, WellBuilt, Memory;
    var n := w.(slops := w.slops[free := Some(s)], spawnAt := spawnAt, born := w.born + 1);
    assert forall r :: r != Foe(free) ==> Holder(n, r) == Holder(w, r);
    assert Holder(w, Foe(free)).None? && Holder(n, Foe(free)) == Some(w.born);
    MemoryStays(w, n);
  }

  lemma LaterSpawn(l: Level, w: State, spawnAt: int)
    requires Inv(l, w)
    ensures Inv(l, w.(spawnAt := spawnAt))
  {
    hide Fit, SlopFit, WellBuilt, Memory;
    assert forall r :: Holder(w.(spawnAt := spawnAt), r) == Holder(w, r);
    MemoryStays(w, w.(spawnAt := spawnAt));
  }

  lemma SpawnKeeps(l: Level, w: State, plan: Plan)
    requires Inv(l, w) && |l.sectors| > 0
    ensures var n := Spawned(l, w, plan); Inv(l, n) && n.tick == w.tick && n.people == w.people
  {
    hide Inv, RandomSpot, SpawnSector, FreePlace;
    var n, free, sector := Spawned(l, w, plan), FreePlace(w.slops), SpawnSector(l, w.people, plan.draws);
    LaterSpawn(l, w, w.tick + SLOP_SPAWN_TICKS);
    if free < |w.slops| {
      NewSlopFits(l, w, sector, plan);
      SlopPlaced(l, w, free, Slop(w.born, RandomSpot(plan.draws, 1, l.sectors[sector]), sector, SLOP_HEALTH, 0), w.tick
          + SLOP_SPAWN_TICKS);
    }
  }

  lemma NewSlopFits(l: Level, w: State, sector: nat, plan: Plan)
    requires Inv(l, w) && sector < |l.sectors|
    ensures SlopFit(l, Slop(w.born, RandomSpot(plan.draws, 1, l.sectors[sector]), sector, SLOP_HEALTH, 0))
  {
    hide Overlap, IsTree, Sized, RandomSpot;
    RandomSpotInside(plan.draws, 1, l.sectors[sector]);
  }

  lemma {:induction false} HiddenAreNotOverlooked(l: Level, people: map<string, Person>, n: nat)
    ensures forall i: nat :: i in Hidden(l, people, n) <==> i < n && !Overlooked(l, people, i)
  {
    hide Overlooked;
    if n > 0 { HiddenAreNotOverlooked(l, people, n - 1); }
  }

  /** A slop appears where nobody on his feet can see, as long as there is such a room: nobody sees it arrive. */
  lemma NobodySeesItArrive(l: Level, w: State, plan: Plan, i: nat)
    requires |l.sectors| > 0 && i < SLOP_POPULATION && w.slops[i].None? && Spawned(l, w, plan).slops[i].Some?
    ensures var s := Spawned(l, w, plan).slops[i].value;
            && s.sector < |l.sectors|
            && (Overlooked(l, w.people, s.sector) ==> forall r: nat :: r < |l.sectors| ==> Overlooked(l, w.people, r))
  {
    hide RandomSpot, Overlooked, Hidden;
    HiddenAreNotOverlooked(l, w.people, |l.sectors|);
    var hidden := Hidden(l, w.people, |l.sectors|);
    if hidden == [] {
      forall r: nat | r < |l.sectors| ensures Overlooked(l, w.people, r) { assert r !in hidden; }
    } else {
      assert hidden[Intn(plan.draws, 0, |hidden|)] in hidden;
    }
  }

  lemma {:induction false} SettleKeeps(l: Level, s: Slop, settles: seq<Vec2>)
    requires WellBuilt(l) && SlopFit(l, s)
    ensures var n := SettledAt(l, s, settles); SlopFit(l, n) && n.who == s.who
    decreases |settles|
  {
    hide WellBuilt, Stands, Resolve;
    if settles != [] {
      ResolveStands(l, s.pos, s.sector, settles[0]);
      var (pos, sector) := Resolve(l, s.pos, s.sector, settles[0]);
      SettleKeeps(l, s.(pos := pos, sector := sector), settles[1..]);
    }
  }

  lemma MoveKeeps(l: Level, w: State, settles: map<nat, seq<Vec2>>)
    requires Inv(l, w)
    ensures Inv(l, w.(slops := SlopsMoved(l, w.slops, settles)))
  {
    hide Fit, SlopFit, SettledAt, WellBuilt, Memory;
    var n := w.(slops := SlopsMoved(l, w.slops, settles));
    forall i | 0 <= i < |w.slops| && w.slops[i].Some? && i in settles
      ensures SlopFit(l, SettledAt(l, w.slops[i].value, settles[i]))
              && SettledAt(l, w.slops[i].value, settles[i]).who == w.slops[i].value.who
    {
      SettleKeeps(l, w.slops[i].value, settles[i]);
    }
    HoldersKept(w, n);
    MemoryStays(w, n);
  }

  lemma TouchKeeps(l: Level, w: State, i: nat, touches: map<nat, string>)
    requires Inv(l, w) && i < SLOP_POPULATION
    ensures var n := Touched(w, i, touches); Inv(l, n) && SamePeople(w, n)
  {
    hide Inv, Hurt, Clamped;
    if Touched(w, i, touches) != w {
      var id, s := touches[i], w.slops[i].value.(touchAt := w.tick + SLOP_TOUCH_TICKS);
      FitOf(l, w, id);
      HurtKeepsFit(l, w.tick, w.people[id], SLOP_DAMAGE);
      PersonSet(l, w, id, Hurt(w.tick, w.people[id], SLOP_DAMAGE));
      SlopSet(l, w.(people := w.people[id := Hurt(w.tick, w.people[id], SLOP_DAMAGE)]), i, s);
    }
  }

  lemma SlopSet(l: Level, w: State, i: nat, s: Slop)
    requires Inv(l, w) && i < SLOP_POPULATION && w.slops[i].Some? && s == w.slops[i].value.(touchAt := s.touchAt)
    ensures Inv(l, w.(slops := w.slops[i := Some(s)]))
  {
    hide Fit, WellBuilt, Memory;
    var n := w.(slops := w.slops[i := Some(s)]);
    HoldersKept(w, n);
    MemoryStays(w, n);
  }

  lemma {:induction false} TouchesKeep(l: Level, w: State, i: nat, touches: map<nat, string>)
    requires Inv(l, w) && i <= SLOP_POPULATION
    ensures var n := TouchedFrom(w, i, touches); Inv(l, n) && SamePeople(w, n)
    decreases SLOP_POPULATION - i
  {
    hide Inv, Touched, Clamped;
    if i < SLOP_POPULATION {
      TouchKeeps(l, w, i, touches);
      var n := Touched(w, i, touches);
      TouchesKeep(l, n, i + 1, touches);
      SameTrans(w, n, TouchedFrom(n, i + 1, touches));
    }
  }

  // ---- The record, and whoever leaves ----

  lemma NumbersAreHeld(w: State, r: Target)
    ensures r in Numbers(w.slots, w.people, w.slops) <==> Holder(w, r).Some?
  {}

  lemma RecordKeeps(l: Level, w: State, now: real)
    requires Inv(l, w)
    ensures Inv(l, Recorded(l, w, now)) && Recorded(l, w, now).people == w.people
  {
    hide Fit, WellBuilt, SlopFit, Memory, Spots, Glimpsed;
    MemoryRecords(l, w, now);
    assert forall r :: Holder(Recorded(l, w, now), r) == Holder(w, r);
  }

  lemma ReleaseKeeps(l: Level, w: State, id: string)
    requires Inv(l, w)
    ensures var n := Released(w, id); Inv(l, n) && n.tick == w.tick && n.people == w.people - {id}
  {
    hide Fit, WellBuilt, SlopFit, Memory, Forgotten;
    var n := Released(w, id);
    if id in w.people {
      assert forall r :: r != Man(w.people[id].slot) ==> Holder(n, r) == Holder(w, r);
      MemoryDrops(w, n, Man(w.people[id].slot));
    }
  }

  lemma {:induction false} ReleasesKeep(l: Level, w: State, ids: seq<string>)
    requires Inv(l, w)
    ensures var n := ReleasedAll(w, ids);
            Inv(l, n) && n.tick == w.tick && forall id :: id in n.people ==>
                id in w.people && n.people[id] == w.people[id]
    decreases |ids|
  {
    hide Inv, Released;
    if ids != [] {
      ReleaseKeeps(l, w, ids[0]);
      ReleasesKeep(l, Released(w, ids[0]), ids[1..]);
    }
  }

  // ---- Who sits where ----

  /** Nobody came or went, and the memory is as long as it was. */
  predicate SameSeats(w: State, n: State) {
    n.roster == w.roster && n.slots == w.slots && n.people.Keys == w.people.Keys && n.tick == w.tick
    && |n.past| == |w.past|
  }

  lemma {:induction false} CommandedSeats(l: Level, w: State, id: string, cmds: seq<Command<Order>>, instant: real)
    requires id in w.people
    ensures SameSeats(w, CommandedAll(l, w, id, cmds, instant))
    decreases |cmds|
  {
    hide Soldier.Step, Hurt, Rewound;
    if cmds != [] { CommandedSeats(l, Commanded(l, w, id, cmds[0], instant), id, cmds[1..], instant); }
  }

  lemma TurnSeats(l: Level, w: State, id: string, plan: Plan)
    requires |l.sectors| > 0 && id in w.people
    ensures SameSeats(w, Turn(l, w, id, plan))
  {
    hide CommandedAll, Rise, Closed, Tick, InstantOf;
    CommandedSeats(l, Risen(l, w, id), id, TurnCommands(w, id), InstantOf(plan, id));
  }

  lemma {:induction false} TurnsSeats(l: Level, w: State, order: seq<string>, plan: Plan)
    requires |l.sectors| > 0
    ensures SameSeats(w, Turns(l, w, order, plan))
    decreases |order|
  {
    hide Turn;
    if order != [] {
      if order[0] in w.people { TurnSeats(l, w, order[0], plan); }
      TurnsSeats(l, if order[0] in w.people then Turn(l, w, order[0], plan) else w, order[1..], plan);
    }
  }

  lemma {:induction false} TouchesSeats(w: State, i: nat, touches: map<nat, string>)
    requires i <= SLOP_POPULATION
    ensures SameSeats(w, TouchedFrom(w, i, touches))
    decreases SLOP_POPULATION - i
  {
    hide Hurt;
    if i < SLOP_POPULATION { TouchesSeats(Touched(w, i, touches), i + 1, touches); }
  }

  /** What a tick does before it records and releases changes nobody's seat. */
  lemma PlayedSeats(l: Level, w: State, plan: Plan) returns (touched: State)
    requires |l.sectors| > 0
    ensures SameSeats(w.(tick := w.tick + 1), touched)
    ensures Advanced(l, w, plan) == ReleasedAll(Recorded(l, touched, plan.now), plan.abandoned)
  {
    hide Turns, TouchedFrom, ReleasedAll, TurnOrder, SlopsMoved, Recorded, RandomSpot;
    var began := w.(tick := w.tick + 1);
    var order := TurnOrder(plan.keys, began.tick);
    TurnsSeats(l, began, order, plan);
    var spawned := Spawned(l, Turns(l, began, order, plan), plan);
    var moved := spawned.(slops := SlopsMoved(l, spawned.slops, plan.settles));
    TouchesSeats(moved, 0, plan.touches);
    touched := TouchedFrom(moved, 0, plan.touches);
  }

  lemma RecordedSeats(l: Level, w: State, now: real)
    ensures var n := Recorded(l, w, now);
            n.roster == w.roster && n.slots == w.slots && n.people == w.people && n.tick == w.tick
  {}

  /** A tick in which nobody is abandoned keeps everybody in his seat. */
  lemma NobodyLeaves(l: Level, w: State, plan: Plan)
    requires |l.sectors| > 0 && plan.abandoned == []
    ensures var n := Advanced(l, w, plan);
            n.roster == w.roster && n.slots == w.slots && n.people.Keys == w.people.Keys && n.tick == w.tick + 1
    ensures w.past == [] ==>
              var n := Advanced(l, w, plan);
              |n.past| == 1 && forall slot: nat :: slot < MAX_OCCUPANTS && n.slots[slot] in n.people ==>
                  Man(slot) in n.past[0].spots
  {
    hide Advanced, Recorded;
    var touched := PlayedSeats(l, w, plan);
    RecordedSeats(l, touched, plan.now);
    if w.past == [] { FirstFrame(l, touched, plan.now); }
  }

  lemma FirstFrame(l: Level, w: State, now: real)
    requires w.past == []
    ensures var n := Recorded(l, w, now);
            |n.past| == 1 && forall slot: nat :: slot < MAX_OCCUPANTS && n.slots[slot] in n.people ==>
                Man(slot) in n.past[0].spots
  {
    hide SpotOf, Glimpsed;
  }

  // ---- Whole runs ----

  lemma TickOn(l: Level, w: State)
    requires Inv(l, w)
    ensures Inv(l, w.(tick := w.tick + 1))
  {
    hide WellBuilt, SlopFit, Sound, Stands, QueueOk, Memory;
    var n := w.(tick := w.tick + 1);
    assert forall r :: Holder(n, r) == Holder(w, r);
    MemoryStays(w, n);
  }

  lemma AdvanceKeeps(l: Level, w: State, plan: Plan)
    requires Good(l, w) && Fits(w, Advance(plan)) && |l.sectors| > 0
    ensures Good(l, Advanced(l, w, plan))
  {
    hide Inv, Clamped, Turns, Spawned, TouchedFrom, Recorded, ReleasedAll, TurnOrder;
    var began := w.(tick := w.tick + 1);
    TickOn(l, w);
    var order := TurnOrder(plan.keys, began.tick);
    TurnsKeep(l, began, order, plan);
    var played := Turns(l, began, order, plan);
    forall id | id in played.people ensures Clamped(played.tick, played.people[id]) {
      EverybodyHasATurn(plan.keys, began.tick, id);
    }
    SpawnKeeps(l, played, plan);
    var spawned := Spawned(l, played, plan);
    MoveKeeps(l, spawned, plan.settles);
    var moved := spawned.(slops := SlopsMoved(l, spawned.slops, plan.settles));
    TouchesKeep(l, moved, 0, plan.touches);
    var touched := TouchedFrom(moved, 0, plan.touches);
    RecordKeeps(l, touched, plan.now);
    ReleasesKeep(l, Recorded(l, touched, plan.now), plan.abandoned);
    RecordedTick(l, touched, plan.now);
  }

  lemma RecordedTick(l: Level, w: State, now: real)
    ensures Recorded(l, w, now).tick == w.tick
  {}

  lemma JoinKeeps(l: Level, w: State, id: string)
    requires Good(l, w) && id != "" && |l.sectors| > 0
    ensures Good(l, Joined(l, w, id))
  {
    hide WellBuilt, SlopFit, Stands, Memory, QueueOk, Sound;
    NewcomerFits(l, w.tick, Protect(w.tick, Person(0, w.born, NewFighter(Spawn(l)), NewLane(), 0, 0)));
    var n, slot := Joined(l, w, id), FreeSlot(w.slots);
    if n.born != w.born {
      assert forall r :: r != Man(slot) ==> Holder(n, r) == Holder(w, r);
      assert Holder(w, Man(slot)).None? && Holder(n, Man(slot)) == Some(w.born);
      MemoryStays(w, n);
      assert Fit(l, n.tick, n.people[id]) && Clamped(n.tick, n.people[id]);
    }
  }

  lemma NewcomerFits(l: Level, tick: nat, p: Person)
    requires WellBuilt(l) && |l.sectors| > 0
    requires p == Protect(tick, Person(p.slot, p.who, NewFighter(Spawn(l)), NewLane(), 0, 0))
    ensures Fit(l, tick, p) && Clamped(tick, p)
  {
    hide WellBuilt, Stands;
    SpawnStands(l);
  }

  lemma EnqueueKeeps(l: Level, w: State, id: string, cmds: seq<Sent<Order>>)
    requires Good(l, w)
    ensures Good(l, Enqueued(w, id, cmds))
  {
    hide WellBuilt, SlopFit, Stands, Sound, Inv, CommandLane.Enqueue;
    if id in w.people {
      var p := w.people[id];
      FitOf(l, w, id);
      EnqueueKeepsQueue(p.lane, cmds);
      PersonSet(l, w, id, p.(lane := CommandLane.Enqueue(p.lane, cmds)));
    }
  }

  lemma {:induction false} AcceptKeepsQueue(l: Lane<Order>, cmds: seq<Sent<Order>>)
    requires forall i :: 0 <= i < |l.pending| ==> 0.0 <= l.pending[i].dt <= MAX_STEP_SECONDS
    ensures var n := Accept(l, cmds);
            n.budget == l.budget && forall i :: 0 <= i < |n.pending| ==> 0.0 <= n.pending[i].dt <= MAX_STEP_SECONDS
    decreases |cmds|
  {
    if cmds != [] {
      var c := cmds[0];
      AcceptKeepsQueue(if c.seqNo <= l.high then l
        else l.(high := c.seqNo, pending := l.pending + [Command(c.seqNo, SaneDt(c.claim), c.intent)]), cmds[1..]);
    }
  }

  lemma EnqueueKeepsQueue(l: Lane<Order>, cmds: seq<Sent<Order>>)
    requires QueueOk(l)
    ensures QueueOk(CommandLane.Enqueue(l, cmds))
  {
    AcceptKeepsQueue(l, cmds);
  }

  lemma EventKeeps(l: Level, w: State, e: Event)
    requires Good(l, w) && Fits(w, e) && |l.sectors| > 0
    ensures Good(l, Outcome(l, w, e))
  {
    hide Inv, AllClamped, Joined, Released, Enqueued, Advanced;
    match e
    case Join(id) => JoinKeeps(l, w, id);
    case Leave(id) =>
      ReleaseKeeps(l, w, id);
      ClampedLess(w, Released(w, id), id);
    case Input(id, cmds) => EnqueueKeeps(l, w, id, cmds);
    case Advance(plan) => AdvanceKeeps(l, w, plan);
  }

  lemma ClampedLess(w: State, n: State, id: string)
    requires AllClamped(w) && n.tick == w.tick && n.people == w.people - {id}
    ensures AllClamped(n)
  {}

  function Run(l: Level, w: State, es: seq<Event>): State
    requires |l.sectors| > 0
    decreases |es|
  {
    if es == [] then w else Run(l, Outcome(l, w, es[0]), es[1..])
  }

  /** Each event could reach the building as it stood. */
  ghost predicate FitsAll(l: Level, w: State, es: seq<Event>)
    requires |l.sectors| > 0
    decreases |es|
  {
    es == [] || (Fits(w, es[0]) && FitsAll(l, Outcome(l, w, es[0]), es[1..]))
  }

  lemma {:induction false} EveryRunIsGood(l: Level, w: State, es: seq<Event>)
    requires Good(l, w) && |l.sectors| > 0 && FitsAll(l, w, es)
    ensures Good(l, Run(l, w, es))
    decreases |es|
  {
    hide Good, Outcome, Fits;
    if es != [] {
      EventKeeps(l, w, es[0]);
      EveryRunIsGood(l, Outcome(l, w, es[0]), es[1..]);
    }
  }

  lemma FoundedIsGood(l: Level)
    requires WellBuilt(l)
    ensures Good(l, Founded())
  {}

  // ---- What that says ----

  /** Seconds out of action, as the snapshot reports them: down, or rooted by an ampoule. */
  function OutSeconds(tick: nat, p: Person): real {
    if p.body.health <= 0 then (if p.downUntil <= tick then 0.0 else (p.downUntil - tick) as real * SIM_STEP)
    else p.body.inject
  }

  /** The life of one man after any run of joins, departures, frames and ticks, whatever the rays met and the walks
      settled at. */
  lemma EveryManAfterEveryRun(l: Level, es: seq<Event>, id: string)
    requires WellBuilt(l) && FitsAll(l, Founded(), es) && id in Run(l, Founded(), es).people
    ensures var w := Run(l, Founded(), es); var p := w.people[id]; var b := p.body;
            && 0 <= b.health <= MAX_HEALTH && !(b.cooldown > 0.0 && b.reload > 0.0)
            && (b.health == 0 ==> b.cooldown == 0.0 && b.reload == 0.0 && b.shelter == 0.0 && b.inject == 0.0)
            && (b.shelter > 0.0 ==> w.tick < p.protectedUntil && b.health == MAX_HEALTH && b.inject == 0.0)
            && !(OutSeconds(w.tick, p) > 0.0 && b.shelter > 0.0)
            && b.sector < |l.sectors| && Contains(l.sectors[b.sector], b.pos)
  {
    hide WellBuilt, Run, Contains, FitsAll;
    FoundedIsGood(l);
    HasRooms(l);
    EveryRunIsGood(l, Founded(), es);
    FitOf(l, Run(l, Founded(), es), id);
  }

  lemma HasRooms(l: Level)
    requires WellBuilt(l)
    ensures |l.sectors| > 0
  {}

  lemma EverySlopAfterEveryRun(l: Level, es: seq<Event>, i: nat)
    requires WellBuilt(l) && FitsAll(l, Founded(), es) && i < SLOP_POPULATION && Run(l, Founded(), es).slops[i].Some?
    ensures var s := Run(l, Founded(), es).slops[i].value;
            s.health > 0 && s.sector < |l.sectors| && Contains(l.sectors[s.sector], s.pos)
  {
    hide WellBuilt, Run, Contains, FitsAll;
    FoundedIsGood(l);
    HasRooms(l);
    EveryRunIsGood(l, Founded(), es);
  }

  /** A reading mixes at most two recorded spots of the same number. */
  lemma ReadingIsOfTwo(fs: seq<Frame>, instant: real, r: Target)
    requires r in Rewound(fs, instant)
    ensures exists i, j :: 0 <= i < |fs| && 0 <= j < |fs| && r in fs[i].spots && r in fs[j].spots
              && Rewound(fs, instant)[r].whose == fs[i].spots[r].whose + fs[j].spots[r].whose
  {
    hide Lerp;
    if instant <= fs[0].at { assert fs[0].spots[r].whose + fs[0].spots[r].whose == fs[0].spots[r].whose; }
    else if instant >= fs[|fs|-1].at {
      assert fs[|fs|-1].spots[r].whose + fs[|fs|-1].spots[r].whose == fs[|fs|-1].spots[r].whose;
    } else {
      var i := FirstFrom(fs, instant, 1);
      assert r in fs[i].spots;
      assert fs[i].spots[r].whose + fs[i].spots[r].whose == fs[i].spots[r].whose;
    }
  }

  /** Anything the rewound world shows under a slot or a slop's place is there now, and was recorded of that very holder
      and nobody before him. */
  lemma RewindNeverConfusesTwoHolders(l: Level, w: State, instant: real, r: Target)
    requires Inv(l, w) && r in Rewound(w.past, instant)
    ensures Holder(w, r).Some? && Rewound(w.past, instant)[r].whose == {Holder(w, r).value}
  {
    hide Holder, Rewound, WellBuilt, Tables, AllFit, Numbered;
    ReadingIsOfTwo(w.past, instant, r);
  }

  /** The tick under way when the k-th turn begins. */
  function TurnBegins(l: Level, w: State, plan: Plan, k: nat): State
    requires |l.sectors| > 0 && k <= |plan.keys|
  {
    Turns(l, w.(tick := w.tick + 1), TurnOrder(plan.keys, w.tick + 1)[..k], plan)
  }

  /** Whose the k-th turn is. */
  function TurnOf(w: State, plan: Plan, k: nat): string
    requires k < |plan.keys|
  {
    TurnOrder(plan.keys, w.tick + 1)[k]
  }

  /** There is a k-th turn in the tick, and a j-th command in it. */
  predicate HasCommand(l: Level, w: State, plan: Plan, k: nat, j: nat)
    requires |l.sectors| > 0
  {
    && k < |plan.keys| && TurnOf(w, plan, k) in TurnBegins(l, w, plan, k).people
    && j < |TurnCommands(TurnBegins(l, w, plan, k), TurnOf(w, plan, k))|
  }

  /** The building as the j-th command of a turn has been stepped and its shot, if it is one, is to be resolved. */
  function MidTurn(l: Level, n: State, id: string, plan: Plan, j: nat): State
    requires |l.sectors| > 0 && id in n.people && j < |TurnCommands(n, id)|
  {
    var cmds := TurnCommands(n, id);
    Acted(l, CommandedAll(l, Risen(l, n, id), id, cmds[..j], InstantOf(plan, id)), id, cmds[j])
  }

  function AboutToShoot(l: Level, w: State, plan: Plan, k: nat, j: nat): State
    requires |l.sectors| > 0 && HasCommand(l, w, plan, k, j)
  {
    MidTurn(l, TurnBegins(l, w, plan, k), TurnOf(w, plan, k), plan, j)
  }

  lemma {:induction false} TurnsSplit(l: Level, w: State, order: seq<string>, k: nat, plan: Plan)
    requires |l.sectors| > 0 && k <= |order|
    ensures Turns(l, w, order, plan) == Turns(l, Turns(l, w, order[..k], plan), order[k..], plan)
    decreases k
  {
    hide Turn;
    if k == 0 {
      assert order[..0] == [] && order[0..] == order;
    } else {
      var n := if order[0] in w.people then Turn(l, w, order[0], plan) else w;
      assert order[..k][1..] == order[1..][..k-1] && order[1..][k-1..] == order[k..] && order[..k][0] == order[0];
      TurnsSplit(l, n, order[1..], k - 1, plan);
    }
  }

  lemma {:induction false} CommandsSplit(l: Level, w: State, id: string, cmds: seq<Command<Order>>, j: nat,
                                         instant: real)
    requires id in w.people && j <= |cmds|
    ensures CommandedAll(l, w, id, cmds, instant)
         == CommandedAll(l, CommandedAll(l, w, id, cmds[..j], instant), id, cmds[j..], instant)
    decreases j
  {
    hide Commanded;
    if j == 0 {
      assert cmds[..0] == [] && cmds[0..] == cmds;
    } else {
      assert cmds[..j][1..] == cmds[1..][..j-1] && cmds[1..][j-1..] == cmds[j..] && cmds[..j][0] == cmds[0];
      CommandsSplit(l, Commanded(l, w, id, cmds[0], instant), id, cmds[1..], j - 1, instant);
    }
  }

  /** Whenever a shot is resolved, after any run and in the middle of any turn of the tick after it, whatever the
      rewound world shows under a number was recorded of its holder at that moment. */
  lemma EveryShotSeesPresentHolders(l: Level, es: seq<Event>, plan: Plan, k: nat, j: nat, r: Target)
    requires WellBuilt(l) && |l.sectors| > 0 && FitsAll(l, Founded(), es) && Fits(Run(l, Founded(), es), Advance(plan))
    requires HasCommand(l, Run(l, Founded(), es), plan, k, j)
    requires r in Rewound(AboutToShoot(l, Run(l, Founded(), es), plan, k, j).past,
             InstantOf(plan, TurnOf(Run(l, Founded(), es), plan, k)))
    ensures var w := Run(l, Founded(), es);
            var m, instant := AboutToShoot(l, w, plan, k, j), InstantOf(plan, TurnOf(w, plan, k));
            Holder(m, r).Some? && Rewound(m.past, instant)[r].whose == {Holder(m, r).value}
  {
    hide WellBuilt, Run, FitsAll, Inv, AllClamped, Holder, Rewound, Turns, MidTurn, TurnOrder;
    FoundedIsGood(l);
    EveryRunIsGood(l, Founded(), es);
    var w := Run(l, Founded(), es);
    TickOn(l, w);
    TurnsKeep(l, w.(tick := w.tick + 1), TurnOrder(plan.keys, w.tick + 1)[..k], plan);
    MidTurnKeeps(l, TurnBegins(l, w, plan, k), TurnOf(w, plan, k), plan, j);
    RewindNeverConfusesTwoHolders(l, AboutToShoot(l, w, plan, k, j), InstantOf(plan, TurnOf(w, plan, k)), r);
  }

  lemma MidTurnKeeps(l: Level, n: State, id: string, plan: Plan, j: nat)
    requires Inv(l, n) && |l.sectors| > 0 && id in n.people && j < |TurnCommands(n, id)|
    ensures Inv(l, MidTurn(l, n, id, plan, j))
  {
    hide Inv, Fit, Tick, Rise, CommandedAll, Acted, Clamped, QueueOk;
    FitOf(l, n, id);
    RisenKeeps(l, n, id);
    LaneOf(l, n.tick, n.people[id]);
    TurnLane(n.people[id].lane, false);
    var cmds := TurnCommands(n, id);
    CommandsKeep(l, Risen(l, n, id), id, cmds[..j], InstantOf(plan, id));
    ActedKeeps(l, CommandedAll(l, Risen(l, n, id), id, cmds[..j], InstantOf(plan, id)), id, cmds[j]);
  }

  /** The state a shot is resolved in is one the tick passes through: the turns before it lead to the turn, and the
      turn's commands run to it and on from it. */
  lemma TheTickPassesThrough(l: Level, w: State, plan: Plan, k: nat, j: nat)
    requires |l.sectors| > 0 && HasCommand(l, w, plan, k, j)
    ensures var order := TurnOrder(plan.keys, w.tick + 1);
            Turns(l, w.(tick := w.tick + 1), order, plan) == Turns(l, TurnBegins(l, w, plan, k), order[k..], plan)
    ensures var n, id := TurnBegins(l, w, plan, k), TurnOf(w, plan, k);
            CommandsResumeAfter(l, n, id, TurnCommands(n, id), j, InstantOf(plan, id), AboutToShoot(l, w, plan, k, j))
  {
    hide Turns, CommandedAll, Soldier.Step, Shot, Tick, Rise, TurnOrder;
    TurnsSplit(l, w.(tick := w.tick + 1), TurnOrder(plan.keys, w.tick + 1), k, plan);
    var n, id := TurnBegins(l, w, plan, k), TurnOf(w, plan, k);
    var cmds, instant := TurnCommands(n, id), InstantOf(plan, id);
    CommandsSplit(l, Risen(l, n, id), id, cmds, j, instant);
    var before := CommandedAll(l, Risen(l, n, id), id, cmds[..j], instant);
    assert cmds[j..][0] == cmds[j] && cmds[j..][1..] == cmds[j+1..];
    CommandsOne(l, before, id, cmds[j..], instant);
  }

  lemma CommandsOne(l: Level, w: State, id: string, cmds: seq<Command<Order>>, instant: real)
    requires id in w.people && cmds != []
    ensures CommandedAll(l, w, id, cmds, instant)
            == CommandedAll(l, Commanded(l, w, id, cmds[0], instant), id, cmds[1..], instant)
  {
    hide Commanded;
  }

  /** From the state in which the j-th command has been stepped the turn resolves its shot, if the count fell, and
      runs the commands that are left. */
  predicate CommandsResumeAfter(l: Level, n: State, id: string, cmds: seq<Command<Order>>, j: nat, instant: real,
                                m: State)
    requires |l.sectors| > 0 && id in n.people && j < |cmds|
  {
    var before := CommandedAll(l, Risen(l, n, id), id, cmds[..j], instant);
    && id in m.people
    && var next := if m.people[id].body.loaded < before.people[id].body.loaded
                   then Shot(l, m, before.people[id].slot, cmds[j].intent.aim, instant) else m;
       id in next.people && CommandedAll(l, Risen(l, n, id), id, cmds, instant)
           == CommandedAll(l, next, id, cmds[j+1..], instant)
  }

  /** The same between events, over every run. */
  lemma RewindIsSafeAfterEveryRun(l: Level, es: seq<Event>, instant: real, r: Target)
    requires WellBuilt(l) && FitsAll(l, Founded(), es) && r in Rewound(Run(l, Founded(), es).past, instant)
    ensures var w := Run(l, Founded(), es);
            Holder(w, r).Some? && Rewound(w.past, instant)[r].whose == {Holder(w, r).value}
  {
    hide WellBuilt, Run, FitsAll, Inv, Holder, Rewound;
    FoundedIsGood(l);
    HasRooms(l);
    EveryRunIsGood(l, Founded(), es);
    RewindNeverConfusesTwoHolders(l, Run(l, Founded(), es), instant, r);
  }

  /** A hold is not handed on: whatever a slot's holder is still shown, he himself saw, of the very one there. */
  lemma NobodyInheritsASight(l: Level, es: seq<Event>, slot: nat, at: Target)
    requires WellBuilt(l) && FitsAll(l, Founded(), es) && HeldVisible(Run(l, Founded(), es), slot, at)
    ensures var w := Run(l, Founded(), es);
            Holder(w, Man(slot)) == Some(w.glimpses[(slot, at)].viewer)
            && Holder(w, at) == Some(w.glimpses[(slot, at)].seen)
  {
    hide WellBuilt, Run, FitsAll, Identified, Tables, Numbered, AllFit, AllClamped, Holder;
    FoundedIsGood(l);
    HasRooms(l);
    EveryRunIsGood(l, Founded(), es);
  }

  /** A release that leaves the frames as they are. */
  function Unpurged(w: State, id: string): State { Released(w, id).(past := w.past) }

  /** Without the purge it would not hold: one man joins, a tick is recorded and he leaves, another takes his slot,
      and at whatever instant a shot is resolved the newcomer stands where the first man stood. */
  lemma ThePurgeIsNeeded(l: Level, a: string, b: string, plan: Plan, instant: real)
    requires WellBuilt(l) && |l.sectors| > 0 && a != "" && b != "" && a != b
    requires plan.keys == [a] && plan.abandoned == []
    ensures FitsAll(l, Founded(), [Join(a), Advance(plan)])
    ensures var n := Joined(l, Unpurged(Run(l, Founded(), [Join(a), Advance(plan)]), a), b);
            && Holder(n, Man(0)).Some? && Man(0) in Rewound(n.past, instant)
            && Rewound(n.past, instant)[Man(0)].whose != {Holder(n, Man(0)).value}
  {
    hide WellBuilt, Advanced, Inv, AllClamped, Forgotten;
    var es, joined := [Join(a), Advance(plan)], Joined(l, Founded(), a);
    FoundedIsGood(l);
    assert FreeSlot(["", "", ""]) == 0 && joined.slots == [a, "", ""];
    JoinKeeps(l, Founded(), a);
    var w := Advanced(l, joined, plan);
    assert es[1..] == [Advance(plan)] && es[1..][1..] == [];
    assert Run(l, Founded(), es) == Run(l, joined, es[1..]) == Run(l, w, []) == w;
    assert FitsAll(l, joined, es[1..]);
    AdvanceKeeps(l, joined, plan);
    NobodyLeaves(l, joined, plan);
    FirstOfOne(l, w, a, b, instant);
  }

  lemma FirstOfOne(l: Level, w: State, a: string, b: string, instant: real)
    requires Good(l, w) && |l.sectors| > 0 && w.slots == [a, "", ""] && w.people.Keys == {a} && a != "" && b != ""
             && a != b
    requires |w.past| == 1 && Man(0) in w.past[0].spots
    ensures var n := Joined(l, Unpurged(w, a), b);
            && Holder(n, Man(0)).Some? && Man(0) in Rewound(n.past, instant)
            && Rewound(n.past, instant)[Man(0)].whose != {Holder(n, Man(0)).value}
  {
    hide WellBuilt, AllFit, AllClamped, Forgotten, Blend;
    var left := Unpurged(w, a);
    assert w.people[a].slot == 0 && left.slots == ["", "", ""] && b !in left.people;
    assert FreeSlot(left.slots) == 0;
    var n := Joined(l, left, b);
    assert Holder(w, Man(0)) == Some(w.people[a].who) && w.people[a].who < w.born;
    assert w.past[0].spots[Man(0)].whose == {w.people[a].who};
    assert Holder(n, Man(0)) == Some(w.born) && w.born !in {w.people[a].who};
    assert Rewound(n.past, instant) == w.past[0].spots;
  }

  /** Who goes first, k ticks on. */
  function Leader(keys: seq<string>, tick: nat, k: nat): string
    requires keys != []
  {
    TurnOrder(keys, tick + k)[0]
  }

  /** Over as many ticks as there are people, each of them goes first exactly once. */
  lemma EachLeadsOnce(keys: seq<string>, tick: nat, id: string)
    requires id in keys && forall i, j :: 0 <= i < j < |keys| ==> keys[i] != keys[j]
    ensures exists k: nat :: k < |keys| && Leader(keys, tick, k) == id
    ensures forall j: nat, k: nat :: j < |keys| && k < |keys| && Leader(keys, tick, j) == Leader(keys, tick, k) ==>
            j == k
  {
    hide Leader;
    var n := |keys|;
    forall k: nat | k < n ensures Leader(keys, tick, k) == keys[Lead(n, tick, k)] { Leads(keys, tick, k); }
    var at :| 0 <= at < n && keys[at] == id;
    var off := Lead(n, tick, 0);
    var k := if at >= off then at - off else at - off + n;
    assert Lead(n, tick, k) == at;
    assert Leader(keys, tick, k) == id;
  }

  function Lead(n: nat, tick: nat, k: nat): (r: nat)
    requires n > 0 && k < n
    ensures r < n
  {
    if tick % n + k < n then tick % n + k else tick % n + k - n
  }

  lemma FirstOfRotation(keys: seq<string>, tick: nat)
    requires keys != []
    ensures TurnOrder(keys, tick)[0] == keys[tick % |keys|]
  {
    OnceAround(tick % |keys|, |keys|);
  }

  lemma Leads(keys: seq<string>, tick: nat, k: nat)
    requires k < |keys|
    ensures Leader(keys, tick, k) == keys[Lead(|keys|, tick, k)]
  {
    hide TurnOrder;
    FirstOfRotation(keys, tick + k);
    var n := |keys|;
    if tick % n + k < n { RemainderIs(tick + k, n, tick / n, tick % n + k); } else { CarryOver(tick, k, n); }
  }

  lemma CarryOver(tick: nat, k: nat, n: nat)
    requires k < n && tick % n + k >= n
    ensures (tick + k) % n == tick % n + k - n
  {
    assert n * (tick / n + 1) == n * (tick / n) + n;
    RemainderIs(tick + k, n, tick / n + 1, tick % n + k - n);
  }
}
