/** A tick of the building from end to end: what it always leaves, and what it does when nobody has sent anything. */
module Ticks {
  import opened Wrappers
  import opened Sequences
  import opened Plane
  import opened Levels
  import opened CommandLane
  import opened LaneRuns
  import opened Soldier
  import opened StepRules
  import opened Rewind
  import opened World
  import opened WorldRuns
  import opened WorldLanes

  // ---- A command ----

  /** A command steps its man, and the building then resolves a shot for him exactly when he was up, the trigger was
      down, no timer outlasted the step, no load ended on it, and something was loaded. */
  lemma ACommandShootsExactlyWhen(l: Level, w: State, id: string, c: Command<Order>, instant: real)
    requires id in w.people && Sound(w.people[id].body) && c.dt >= 0.0
    ensures var p := w.people[id];
            var b := p.body;
            var acted := w.(people := w.people[id := p.(body := Soldier.Step(l, b, c.intent, c.dt))]);
            var fires := && b.health > 0 && c.intent.fire && b.cooldown <= c.dt && b.shelter <= c.dt && b.inject <= c.dt
                         && b.reload == 0.0 && b.loaded > 0;
            Commanded(l, w, id, c, instant) == if fires then Shot(l, acted, p.slot, c.intent.aim, instant) else acted
  {
    hide Soldier.Step, Shot;
    var b := w.people[id].body;
    if b.health > 0 { TheGunAnswers(l, b, c.intent, c.dt); }
    StepKeepsSound(l, b, c.intent, c.dt);
  }

  // ---- What every tick leaves ----

  /** A tick is counted and recorded under its own number and clock, and whoever has been away too long is out at the
      end of it, and nobody else. With somebody in, the next slop is always still to come. */
  lemma ATickEnds(l: Level, w: State, plan: Plan)
    requires |l.sectors| > 0
    ensures var n := Advanced(l, w, plan);
            && n.tick == w.tick + 1
            && (forall id :: id in n.people <==> id in w.people && id !in plan.abandoned)
            && |n.past| > 0 && n.past[|n.past|-1].tick == n.tick && n.past[|n.past|-1].at == plan.now
            && (w.people != map[] ==> n.spawnAt > n.tick)
  {
    hide Turns, TouchedFrom, ReleasedAll, TurnOrder, SlopsMoved, Recorded, Spawned;
    var began := w.(tick := w.tick + 1);
    var order := TurnOrder(plan.keys, began.tick);
    TurnsSeats(l, began, order, plan);
    var played := Turns(l, began, order, plan);
    KeysAreThere(w.people, played.people);
    SpawnIsAhead(l, played, plan);
    var spawned := Spawned(l, played, plan);
    var moved := spawned.(slops := SlopsMoved(l, spawned.slops, plan.settles));
    TouchesSeats(moved, 0, plan.touches);
    TouchesKeepTheClock(moved, 0, plan.touches);
    var touched := TouchedFrom(moved, 0, plan.touches);
    RecordEnds(l, touched, plan.now);
    ReleasesEnd(Recorded(l, touched, plan.now), plan.abandoned);
  }

  lemma KeysAreThere(a: map<string, Person>, b: map<string, Person>)
    requires a.Keys == b.Keys
    ensures b == map[] ==> a == map[]
  {
    if b == map[] {
      assert a.Keys == {};
      assert a == map[];
    }
  }

  lemma SpawnIsAhead(l: Level, w: State, plan: Plan)
    requires |l.sectors| > 0
    ensures var n := Spawned(l, w, plan);
            && n.tick == w.tick && n.people == w.people && n.slots == w.slots && n.past == w.past
            && (w.people != map[] ==> n.spawnAt > n.tick)
  {
    hide RandomSpot, SpawnSector;
  }

  lemma {:induction false} TouchesKeepTheClock(w: State, i: nat, touches: map<nat, string>)
    requires i <= SLOP_POPULATION
    ensures TouchedFrom(w, i, touches).spawnAt == w.spawnAt
    decreases SLOP_POPULATION - i
  {
    hide Hurt;
    if i < SLOP_POPULATION { TouchesKeepTheClock(Touched(w, i, touches), i + 1, touches); }
  }

  lemma RecordEnds(l: Level, w: State, now: real)
    ensures var n := Recorded(l, w, now);
            && n.tick == w.tick && n.people == w.people && n.slops == w.slops && n.spawnAt == w.spawnAt && |n.past| > 0
            && n.past[|n.past|-1].tick == w.tick && n.past[|n.past|-1].at == now
  {
    hide Glimpsed, Spots;
  }

  lemma {:induction false} ReleasesEnd(w: State, ids: seq<string>)
    ensures var n := ReleasedAll(w, ids);
            && n.tick == w.tick && n.spawnAt == w.spawnAt && n.slops == w.slops && |n.past| == |w.past|
            && (forall id :: id in n.people <==> id in w.people && id !in ids)
            && (forall id :: id in n.people ==> n.people[id] == w.people[id])
            && forall i :: 0 <= i < |w.past| ==> n.past[i].tick == w.past[i].tick && n.past[i].at == w.past[i].at
    decreases |ids|
  {
    if ids != [] {
      ReleasesEnd(Released(w, ids[0]), ids[1..]);
      assert forall id :: id in ids <==> id == ids[0] || id in ids[1..];
    }
  }

  // ---- A silent tick ----

  /** Nobody has sent anything that is still waiting. */
  predicate Silent(w: State) { forall id :: id in w.people ==> w.people[id].lane.pending == [] }

  /** A man on his feet with no ampoule in him. */
  predicate Upright(p: Person) { p.body.health > 0 && p.body.inject == 0.0 }

  lemma ASilentTurn(l: Level, w: State, id: string, plan: Plan)
    requires Inv(l, w) && id in w.people && |l.sectors| > 0 && Silent(w)
    ensures var p, n := w.people[id], Turn(l, w, id, plan);
            && n == w.(people := w.people[id := n.people[id]]) && n.people[id].lane.pending == []
            && (Upright(p) ==>
                n.people[id].body.health == p.body.health && n.people[id].protectedUntil == p.protectedUntil)
  {
    hide Inv, Soldier.Step, Rise, ProtectLeft;
    var p := w.people[id];
    FitOf(l, w, id);
    assert TurnCommands(w, id) == [];
    NoCommands(l, Risen(l, w, id), id, InstantOf(plan, id));
    if Upright(p) {
      UprightStays(l, w.tick, p);
      TickPays(p.lane, Ticking(p.body));
      StepLowersClocks(l, p.body, STILLNESS, Tick(p.lane, Ticking(p.body)).idle);
    }
  }

  lemma NoCommands(l: Level, w: State, id: string, instant: real)
    requires id in w.people
    ensures CommandedAll(l, w, id, [], instant) == w
  {}

  lemma UprightStays(l: Level, tick: nat, p: Person)
    requires |l.sectors| > 0 && p.body.health > 0
    ensures Rise(l, tick, p) == p
  {}

  lemma {:induction false} SilentTurns(l: Level, w: State, order: seq<string>, plan: Plan, id: string)
    requires Inv(l, w) && |l.sectors| > 0 && Silent(w) && Distinct(order) && id in w.people
    ensures var n := Turns(l, w, order, plan);
            && n == w.(people := n.people) && n.people.Keys == w.people.Keys
            && (id !in order ==> n.people[id] == w.people[id])
            && (Upright(w.people[id]) ==> n.people[id].body.health == w.people[id].body.health
                                          && n.people[id].protectedUntil == w.people[id].protectedUntil)
    decreases |order|
  {
    hide Inv, Turn, Upright;
    if order != [] {
      var who, rest := order[0], order[1..];
      var n := if who in w.people then Turn(l, w, who, plan) else w;
      if who in w.people {
        ASilentTurn(l, w, who, plan);
        TurnKeeps(l, w, who, plan);
      }
      assert Silent(n);
      SilentTurns(l, n, rest, plan, id);
      assert id in order <==> id == who || id in rest;
    }
  }

  lemma {:induction false} SettlingMovesOnly(l: Level, s: Slop, settles: seq<Vec2>)
    ensures var n := SettledAt(l, s, settles); n == s.(pos := n.pos, sector := n.sector)
    decreases |settles|
  {
    hide Resolve;
    if settles != [] {
      var (pos, sector) := Resolve(l, s.pos, s.sector, settles[0]);
      SettlingMovesOnly(l, s.(pos := pos, sector := sector), settles[1..]);
    }
  }

  /** Where the walls let one step of a slop settle: in the first room that holds the point, if its floor is within a
      step of the one it is on, and nowhere else. */
  lemma ASlopSettlesExactlyWhen(l: Level, s: Slop, at: Vec2, i: nat)
    requires WellBuilt(l) && s.sector < |l.sectors| && i <= |l.sectors|
    requires (forall j :: 0 <= j < i ==> !InRoom(l.sectors[j], at)) && (i < |l.sectors| ==> InRoom(l.sectors[i], at))
    ensures var goes := && i < |l.sectors|
                        && l.sectors[s.sector].floorZ - 0.600000001 <= l.sectors[i].floorZ
                           <= l.sectors[s.sector].floorZ + 0.600000001;
            SettledAt(l, s, [at]) == if goes then s.(pos := at, sector := i) else s
  {
    hide WellBuilt, SectorAt;
    FirstRoomThatHolds(l, at, i);
    var (pos, sector) := Resolve(l, s.pos, s.sector, at);
    NoMoreSteps(l, s.(pos := pos, sector := sector), [at][1..]);
  }

  lemma NoMoreSteps(l: Level, s: Slop, settles: seq<Vec2>)
    requires settles == []
    ensures SettledAt(l, s, settles) == s
  {}

  /** In a silent tick every slop that was there is where the walls let it settle; and one that reaches a man whose
      time it is, up, past his deadline and with no ampoule in him, takes twenty-five off him, or all he has, and not
      again for twenty ticks. */
  lemma ASlopInASilentTick(l: Level, w: State, plan: Plan, i: nat, id: string)
    requires Good(l, w) && Fits(w, Advance(plan)) && |l.sectors| > 0 && Silent(w)
    requires i < SLOP_POPULATION && w.slops[i].Some? && id in w.people && id !in plan.abandoned
             && plan.touches == map[i := id]
    requires Upright(w.people[id])
    ensures var p, s, n := w.people[id], w.slops[i].value, Advanced(l, w, plan);
            var settled := SettledAt(l, s, if i in plan.settles then plan.settles[i] else []);
            var hurts := n.tick >= s.touchAt && n.tick >= p.protectedUntil;
            && n.slops[i] == Some(settled.(touchAt := if hurts then n.tick + 20 else s.touchAt))
            && id in n.people
            && n.people[id].body.health
               == if !hurts then p.body.health else if p.body.health > 25 then p.body.health - 25 else 0
  {
    hide Inv, AllClamped, Turns, Closing, TurnOrder, SettledAt, Advanced;
    var began := w.(tick := w.tick + 1);
    var order := TurnOrder(plan.keys, began.tick);
    TickOn(l, w);
    RotationIsDistinct(plan.keys, began.tick);
    SilentTurns(l, began, order, plan, id);
    AdvancedIsClosing(l, w, plan);
    TheRestOfATick(l, Turns(l, began, order, plan), plan, i, id);
  }

  lemma TheRestOfATick(l: Level, played: State, plan: Plan, i: nat, id: string)
    requires |l.sectors| > 0 && i < SLOP_POPULATION && played.slops[i].Some?
    requires id in played.people && id !in plan.abandoned && plan.touches == map[i := id]
             && played.people[id].body.health > 0
    ensures var p, s, n := played.people[id], played.slops[i].value, Closing(l, played, plan);
            var settled := SettledAt(l, s, if i in plan.settles then plan.settles[i] else []);
            var hurts := played.tick >= s.touchAt && played.tick >= p.protectedUntil;
            && n.tick == played.tick && id in n.people
            && n.slops[i] == Some(settled.(touchAt := if hurts then n.tick + 20 else s.touchAt))
            && n.people[id].body.health
               == if !hurts then p.body.health else if p.body.health > 25 then p.body.health - 25 else 0
  {
    hide TouchedFrom, ReleasedAll, SlopsMoved, Recorded, Spawned, SettledAt;
    var s := played.slops[i].value;
    SpawnKeepsTheRest(l, played, plan, i);
    var spawned := Spawned(l, played, plan);
    OneSlopMoved(l, spawned.slops, plan.settles, i);
    SettlingMovesOnly(l, s, if i in plan.settles then plan.settles[i] else []);
    var moved := spawned.(slops := SlopsMoved(l, spawned.slops, plan.settles));
    OneTouch(moved, i, id);
    var touched := TouchedFrom(moved, 0, plan.touches);
    RecordEnds(l, touched, plan.now);
    ReleasesEnd(Recorded(l, touched, plan.now), plan.abandoned);
  }

  lemma SpawnKeepsTheRest(l: Level, w: State, plan: Plan, i: nat)
    requires |l.sectors| > 0 && i < SLOP_POPULATION && w.slops[i].Some?
    ensures var n := Spawned(l, w, plan); n.slops[i] == w.slops[i] && n.people == w.people && n.tick == w.tick
  {
    hide RandomSpot, SpawnSector;
  }

  lemma OneSlopMoved(l: Level, slops: SlopTable, settles: map<nat, seq<Vec2>>, i: nat)
    requires i < SLOP_POPULATION && slops[i].Some?
    ensures SlopsMoved(l, slops, settles)[i]
         == Some(SettledAt(l, slops[i].value, if i in settles then settles[i] else []))
  {
    hide Resolve;
  }

  lemma OneTouch(w: State, i: nat, id: string)
    requires i < SLOP_POPULATION && w.slops[i].Some? && id in w.people && w.people[id].body.health > 0
    ensures var n, s, p := TouchedFrom(w, 0, map[i := id]), w.slops[i].value, w.people[id];
            var hurts := w.tick >= s.touchAt && w.tick >= p.protectedUntil;
            && n.tick == w.tick && n.people.Keys == w.people.Keys
            && n.slops[i] == Some(s.(touchAt := if hurts then w.tick + 20 else s.touchAt))
            && n.people[id].body.health
               == if !hurts then p.body.health else if p.body.health > 25 then p.body.health - 25 else 0
  {
    hide Touched;
    var touches := map[i := id];
    TouchedHere(w, i, id);
    NotTouched(w, 1 - i, touches);
    NotTouched(Touched(w, i, touches), 1 - i, touches);
    BothPlaces(w, touches);
  }

  lemma BothPlaces(w: State, touches: map<nat, string>)
    ensures TouchedFrom(w, 0, touches) == Touched(Touched(w, 0, touches), 1, touches)
  {
    hide Touched;
    var one := Touched(w, 0, touches);
    assert TouchedFrom(w, 0, touches) == TouchedFrom(one, 1, touches);
    assert TouchedFrom(one, 1, touches) == TouchedFrom(Touched(one, 1, touches), 2, touches);
  }

  lemma NotTouched(w: State, i: nat, touches: map<nat, string>)
    requires i < SLOP_POPULATION && i !in touches
    ensures Touched(w, i, touches) == w
  {}

  lemma TouchedHere(w: State, i: nat, id: string)
    requires i < SLOP_POPULATION && w.slops[i].Some? && id in w.people && w.people[id].body.health > 0
    ensures var n, s, p := Touched(w, i, map[i := id]), w.slops[i].value, w.people[id];
            var hurts := w.tick >= s.touchAt && w.tick >= p.protectedUntil;
            && n.tick == w.tick && n.people.Keys == w.people.Keys
            && n.slops[i] == Some(s.(touchAt := if hurts then w.tick + 20 else s.touchAt))
            && n.people[id].body.health
               == if !hurts then p.body.health else if p.body.health > 25 then p.body.health - 25 else 0
  {}
}
