/** What happens in the building, said of the state before and after: who a shot takes, when a man gets up, when a slop
    comes and whom it reaches, and what a tick remembers. */
module WorldRules {
  import opened Wrappers
  import opened Plane
  import opened Levels
  import opened CommandLane
  import opened LaneRuns
  import opened Soldier
  import opened Rewind
  import opened World
  import opened WorldRuns
  import opened WorldLanes
  import opened WorldBodies

  // ---- Shots ----

  /** Two rooms are one, or a doorway joins them, or one of them is none of the building's. */
  predicate InView(l: Level, from: nat, at: nat) {
    || from == at || from >= |l.sectors| || at >= |l.sectors|
    || exists i :: 0 <= i < |l.portals|
         && ((l.portals[i].a == from && l.portals[i].b == at) || (l.portals[i].a == at && l.portals[i].b == from))
  }

  lemma InViewIsCanSee(l: Level, from: nat, at: nat)
    ensures CanSee(l, from, at) <==> InView(l, from, at)
  {
    if InView(l, from, at) && from != at && from < |l.sectors| && at < |l.sectors| {
      var i :| 0 <= i < |l.portals|
        && ((l.portals[i].a == from && l.portals[i].b == at) || (l.portals[i].a == at && l.portals[i].b == from));
      assert JoinsRooms(l.portals[i], from, at);
    }
    if Adjacent(l.portals, from, at) {
      var i :| 0 <= i < |l.portals| && JoinsRooms(l.portals[i], from, at);
      assert (l.portals[i].a == from && l.portals[i].b == at) || (l.portals[i].a == at && l.portals[i].b == from);
    }
  }

  /** Glimpsed from a slot within the last four ticks. */
  predicate LatelySeen(w: State, viewer: nat, at: Target) {
    (viewer, at) in w.glimpses && w.tick < w.glimpses[(viewer, at)].at + 4
  }

  /** The room a target stood in when the shooter saw it: the rewound one, or its own when the frames do not have it. */
  function SeenIn(past: map<Target, Spot>, at: Target, own: nat): nat { if at in past then past[at].sector else own }

  /** A shot at the holder of another slot takes one barrel of health off him, or all he has left, exactly when he is
      up and past his deadline, the rewound frames do not show him on the floor, and where they show him is in view of
      the shooter's room or was lately; it fells him for sixty ticks, with nothing left running, exactly when that is
      all of it. Otherwise nothing at all changes, and nobody else ever does. */
  lemma AShotAtAManLandsExactlyWhen(l: Level, w: State, shooter: string, v: nat, instant: real)
    requires Tables(w) && shooter in w.people && v < MAX_OCCUPANTS && w.slots[v] != ""
    ensures var n := Shot(l, w, w.people[shooter].slot, Some(Man(v)), instant);
            var me, p, past := w.people[shooter], w.people[w.slots[v]], Rewound(w.past, instant);
            var lands := && w.slots[v] != shooter && p.body.health > 0 && w.tick >= p.protectedUntil
                         && (Man(v) in past ==> past[Man(v)].alive)
                         && (InView(l, me.body.sector, SeenIn(past, Man(v), p.body.sector))
                             || LatelySeen(w, me.slot, Man(v)));
            && (!lands ==> n == w)
            && (lands ==>
                  var q := n.people[w.slots[v]];
                  && n == w.(people := w.people[w.slots[v] := q])
                  && q.body.health == (if p.body.health > 50 then p.body.health - 50 else 0) && q.body.inject == 0.0
                  && (q.body.health > 0 ==> q == p.(body := p.body.(health := q.body.health, inject := 0.0)))
                  && (q.body.health == 0 ==> q == p.(downUntil := w.tick + 60, protectedUntil := 0,
                        body := p.body.(health := 0, inject := 0.0, cooldown := 0.0, reload := 0.0, shelter := 0.0))))
  {
    hide Rewound, CanSee, InView;
    var me, p, past := w.people[shooter], w.people[w.slots[v]], Rewound(w.past, instant);
    InViewIsCanSee(l, me.body.sector, SeenIn(past, Man(v), p.body.sector));
    assert w.slots[me.slot] == shooter && (w.slots[v] == shooter <==> v == me.slot);
  }

  /** A shot at a slop takes one barrel off it exactly when it stands where it is in view, or was lately; one that has
      no more than that is gone, from its place and from everything remembered of it, and nothing else changes. */
  lemma AShotAtASlopLandsExactlyWhen(l: Level, w: State, shooter: string, k: nat, instant: real)
    requires Tables(w) && shooter in w.people && k < SLOP_POPULATION && w.slops[k].Some?
    ensures var n := Shot(l, w, w.people[shooter].slot, Some(Foe(k)), instant);
            var me, s, past := w.people[shooter], w.slops[k].value, Rewound(w.past, instant);
            var lands := InView(l, me.body.sector, SeenIn(past, Foe(k), s.sector)) || LatelySeen(w, me.slot, Foe(k));
            && (!lands ==> n == w)
            && (lands && s.health > 50 ==> n == w.(slops := w.slops[k := Some(s.(health := s.health - 50))]))
            && (lands && s.health <= 50 ==>
                  && n.slops == w.slops[k := None] && n.people == w.people && n.slots == w.slots
                  && |n.past| == |w.past|
                  && (forall i, r :: 0 <= i < |w.past| ==>
                        (r in n.past[i].spots <==> r in w.past[i].spots && r != Foe(k))
                        && (r in n.past[i].spots ==> n.past[i].spots[r] == w.past[i].spots[r]))
                  && forall key :: (key in n.glimpses <==> key in w.glimpses && key.1 != Foe(k))
                       && (key in n.glimpses ==> n.glimpses[key] == w.glimpses[key]))
  {
    hide Rewound, CanSee, InView;
    var me, s, past := w.people[shooter], w.slops[k].value, Rewound(w.past, instant);
    InViewIsCanSee(l, me.body.sector, SeenIn(past, Foe(k), s.sector));
    assert w.slots[me.slot] == shooter;
  }

  /** A ray that meets nobody, an empty slot or an empty place changes nothing. */
  lemma AMissChangesNothing(l: Level, w: State, shooter: nat, aim: Option<Target>, instant: real)
    requires aim.Some? && aim.value.Man? ==> aim.value.slot >= MAX_OCCUPANTS || w.slots[aim.value.slot] == ""
    requires aim.Some? && aim.value.Foe? ==> aim.value.id >= SLOP_POPULATION || w.slops[aim.value.id].None?
    ensures Shot(l, w, shooter, aim, instant) == w
  {}

  /** A shot is resolved where its shooter saw it: his own round trip back, and none for one nobody has measured. */
  lemma AShotIsRewoundByHisRoundTrip(plan: Plan, id: string)
    ensures var rtt := if id in plan.rtt then plan.rtt[id] else 0.0;
            plan.now - InstantOf(plan, id) == if rtt <= 0.0 then 0.12 else if rtt >= 0.38 then 0.5 else rtt + 0.12
  {
    ARewindIs(plan.now, if id in plan.rtt then plan.rtt[id] else 0.0);
  }

  // ---- Coming, going and getting up ----

  /** A newcomer takes the lowest free slot, whole, with a full gun, sheltered for two seconds and forty ticks, in the
      middle of the first room; in a full building, or for somebody already in, nothing changes. */
  lemma AJoinSeats(l: Level, w: State, id: string, i: nat)
    requires |l.sectors| > 0 && i <= MAX_OCCUPANTS && (i < MAX_OCCUPANTS ==> w.slots[i] == "")
    requires forall j :: 0 <= j < i ==> w.slots[j] != ""
    ensures var n, c := Joined(l, w, id), l.sectors[0];
            && (id in w.people || i == MAX_OCCUPANTS ==> n == w)
            && (id !in w.people && i < MAX_OCCUPANTS ==>
                  && id in n.people && n.slots == w.slots[i := id] && n.roster == w.roster + 1
                  && n.people == w.people[id := n.people[id]]
                  && var p := n.people[id];
                     && p.slot == i && p.downUntil == 0 && p.protectedUntil == w.tick + 40
                     && p.body.health == 100 && p.body.loaded == 2 && p.body.shelter == 2.0 && p.body.sector == 0
                     && p.body.cooldown == 0.0 && p.body.reload == 0.0 && p.body.inject == 0.0
                     && p.body.pos == Vec2((c.minX + c.maxX) / 2.0, (c.minY + c.maxY) / 2.0)
                     && p.lane.pending == [] && p.lane.budget == 0.0 && p.lane.high == 0 && p.lane.last == 0)
  {
    FirstFreeIsIt(w.slots, i);
  }

  lemma FirstFreeIsIt(slots: seq<string>, i: nat)
    requires i <= |slots| && (i < |slots| ==> slots[i] == "") && forall j :: 0 <= j < i ==> slots[j] != ""
    ensures FreeSlot(slots) == i
  {}

  /** A departure frees the slot and takes from every frame and every sight what was his, and nothing else. */
  lemma ADepartureTakesOnlyWhatWasHis(w: State, id: string)
    requires id in w.people
    ensures var n, slot := Released(w, id), w.people[id].slot;
            && n.people == w.people - {id} && n.slots == w.slots[slot := ""] && n.slops == w.slops
            && n.roster == w.roster + 1 && |n.past| == |w.past|
            && (forall i, r :: 0 <= i < |w.past| ==>
                  (r in n.past[i].spots <==> r in w.past[i].spots && r != Man(slot))
                  && (r in n.past[i].spots ==> n.past[i].spots[r] == w.past[i].spots[r]))
            && forall key :: (key in n.glimpses <==> key in w.glimpses && key.0 != slot && key.1 != Man(slot))
                 && (key in n.glimpses ==> n.glimpses[key] == w.glimpses[key])
  {}

  /** A man on the floor does nothing until his term is over, whatever he sends, and on the first turn at or after it
      he is up, whole, with a full gun and nothing running but a shelter of forty ticks. */
  lemma ADownedManGetsUpOnTime(l: Level, w: State, id: string, plan: Plan)
    requires Inv(l, w) && |l.sectors| > 0 && id in w.people && w.people[id].body.health == 0
    ensures var p, q := w.people[id], Turn(l, w, id, plan).people[id];
            && (w.tick < p.downUntil ==> q.body == p.body && q.downUntil == p.downUntil)
            && (w.tick >= p.downUntil ==> q.body.health == 100 && q.protectedUntil == w.tick + 40 && q.downUntil == 0)
  {
    hide Inv, Tick, Soldier.Step, StepAll, CommandedAll, Commanded, ProtectLeft, Closed;
    var p := w.people[id];
    FitOf(l, w, id);
    RisenKeeps(l, w, id);
    CommandsAreForward(l, w, id);
    var risen, cmds := Risen(l, w, id), TurnCommands(w, id);
    OwnCommandsStep(l, risen, id, cmds, InstantOf(plan, id));
    var body := StepAll(l, risen.people[id].body, cmds);
    var n := CommandedAll(l, risen, id, cmds, InstantOf(plan, id));
    TurnLane(p.lane, Ticking(body));
    LaneOf(l, w.tick, p);
    TickPays(p.lane, Ticking(body));
    DownLiesStill(l, w.tick, p, cmds, Tick(p.lane, Ticking(p.body)), id in plan.reached);
    RisenIsWhole(l, w, id);
    StaysWhole(l, w.tick, risen.people[id], cmds, Tick(p.lane, Ticking(body)), id in plan.reached);
  }

  lemma DownLiesStill(l: Level, tick: nat, p: Person, cmds: seq<Command<Order>>, t: Ticked<Order>, reached: bool)
    requires Sound(p.body)
    ensures p.body.health == 0 ==>
              StepAll(l, p.body, cmds) == p.body && Closed(l, tick, p, t, reached).body == p.body
              && Closed(l, tick, p, t, reached).downUntil == p.downUntil
  {
    if p.body.health == 0 { StepAllLiesStill(l, p.body, cmds); }
  }

  lemma {:induction false} StepAllLiesStill(l: Level, p: Fighter, cmds: seq<Command<Order>>)
    requires p.health <= 0
    ensures StepAll(l, p, cmds) == p
    decreases |cmds|
  {
    if cmds != [] { StepAllLiesStill(l, p, cmds[1..]); }
  }

  lemma RisenIsWhole(l: Level, w: State, id: string)
    requires |l.sectors| > 0 && id in w.people && w.people[id].body.health <= 0
    ensures var p := Risen(l, w, id).people[id];
            && (w.tick < w.people[id].downUntil ==> p == w.people[id])
            && (w.tick >= w.people[id].downUntil ==>
                  && p.body.health == 100 && p.body.loaded == 2 && p.body.cooldown == 0.0 && p.body.reload == 0.0
                  && p.body.inject == 0.0 && p.body.shelter == 2.0 && p.protectedUntil == w.tick + 40
                  && p.downUntil == 0
                  && p.body.sector == 0
                  && p.body.pos == Vec2((l.sectors[0].minX + l.sectors[0].maxX) / 2.0,
                      (l.sectors[0].minY + l.sectors[0].maxY) / 2.0))
  {}

  lemma StaysWhole(l: Level, tick: nat, p: Person, cmds: seq<Command<Order>>, t: Ticked<Order>, reached: bool)
    requires Sound(p.body) && Forward(cmds) && t.idle >= 0.0
    ensures p.body.health == 100 ==>
              var q := Closed(l, tick, p.(body := StepAll(l, p.body, cmds)), t, reached);
              q.body.health == 100 && q.protectedUntil == p.protectedUntil && q.downUntil == p.downUntil
  {
    hide Soldier.Step, ProtectLeft;
    if p.body.health == 100 {
      StepAllStaysWhole(l, p.body, cmds);
      StepKeepsSound(l, StepAll(l, p.body, cmds), STILLNESS, t.idle);
    }
  }

  lemma {:induction false} StepAllStaysWhole(l: Level, p: Fighter, cmds: seq<Command<Order>>)
    requires Sound(p) && Forward(cmds) && p.health == 100
    ensures Sound(StepAll(l, p, cmds)) && StepAll(l, p, cmds).health == 100
    decreases |cmds|
  {
    hide Soldier.Step;
    if cmds != [] {
      StepKeepsSound(l, p, cmds[0].intent, cmds[0].dt);
      StepAllStaysWhole(l, Soldier.Step(l, p, cmds[0].intent, cmds[0].dt), cmds[1..]);
    }
  }

  /** The close of a turn: a quiet tick is stepped as stillness, the shelter clock shows no more than the deadline
      leaves, and an ampoule is begun exactly by a man on his feet, hurt, with none running, who reached one. */
  lemma ATurnCloses(l: Level, tick: nat, p: Person, t: Ticked<Order>, reached: bool)
    ensures var q := Closed(l, tick, p, t, reached);
            var b := if t.idle > 0.0 then Soldier.Step(l, p.body, STILLNESS, t.idle) else p.body;
            var left := if tick < p.protectedUntil then (p.protectedUntil - tick) as real * 0.05 else 0.0;
            && q.body.shelter == (if b.shelter <= left then b.shelter else left)
            && q.body.inject == (if reached && 0 < b.health < 100 && b.inject <= 0.0 then 2.5 else b.inject)
            && q.body == b.(shelter := q.body.shelter, inject := q.body.inject)
            && q == p.(body := q.body, lane := t.lane)
  {
    hide Soldier.Step;
  }

  // ---- Slops ----

  /** With somebody in the building and a place free, one slop more stands there exactly when its time has come,
      whole, two radii inside a room of the building, and the next is eight seconds off; with no place free only the
      clock restarts. */
  lemma ASlopArrivesExactlyWhenDue(l: Level, w: State, plan: Plan, i: nat)
    requires WellBuilt(l) && |l.sectors| > 0 && i <= SLOP_POPULATION && (i < SLOP_POPULATION ==> w.slops[i].None?)
    requires forall j :: 0 <= j < i ==> w.slops[j].Some?
    ensures var n := Spawned(l, w, plan);
            && (w.people == map[] ==> n == w)
            && (w.people != map[] && i == SLOP_POPULATION ==> n == w.(spawnAt := w.tick + 160))
            && (w.people != map[] && i < SLOP_POPULATION && w.tick < w.spawnAt ==> n == w)
            && (w.people != map[] && i < SLOP_POPULATION && w.tick >= w.spawnAt ==>
                  && n.slops[i].Some? && n.slops == w.slops[i := n.slops[i]]
                  && n == w.(slops := n.slops, spawnAt := w.tick + 160, born := w.born + 1)
                  && var s := n.slops[i].value;
                     && s.health == 50 && s.touchAt == 0 && s.sector < |l.sectors|
                     && l.sectors[s.sector].minX + 0.7 <= s.pos.x <= l.sectors[s.sector].maxX - 0.7
                     && l.sectors[s.sector].minY + 0.7 <= s.pos.y <= l.sectors[s.sector].maxY - 0.7)
  {
    hide WellBuilt, RandomSpot, SpawnSector;
    FreePlaceIsIt(w.slops, i);
    var sector := SpawnSector(l, w.people, plan.draws);
    RoomIsSized(l, sector);
    RandomSpotInside(plan.draws, 1, l.sectors[sector]);
  }

  /** Somebody on his feet has the room in view. */
  predicate Watched(l: Level, people: map<string, Person>, sector: nat) {
    exists id :: id in people && people[id].body.health > 0 && InView(l, people[id].body.sector, sector)
  }

  lemma WatchedIsOverlooked(l: Level, people: map<string, Person>, sector: nat)
    ensures Watched(l, people, sector) <==> Overlooked(l, people, sector)
  {
    hide InView, CanSee;
    forall id | id in people
      ensures CanSee(l, people[id].body.sector, sector) <==> InView(l, people[id].body.sector, sector)
    {
      InViewIsCanSee(l, people[id].body.sector, sector);
    }
  }

  /** A slop never arrives in a room somebody on his feet has in view, unless there is no other. */
  lemma ASlopArrivesUnseen(l: Level, w: State, plan: Plan, i: nat)
    requires |l.sectors| > 0 && i < SLOP_POPULATION && w.slops[i].None? && Spawned(l, w, plan).slops[i].Some?
    ensures var s := Spawned(l, w, plan).slops[i].value;
            s.sector < |l.sectors|
            && (Watched(l, w.people, s.sector) ==> forall r: nat :: r < |l.sectors| ==> Watched(l, w.people, r))
  {
    hide Watched, Overlooked, Spawned;
    NobodySeesItArrive(l, w, plan, i);
    forall r: nat ensures Watched(l, w.people, r) <==> Overlooked(l, w.people, r) {
      WatchedIsOverlooked(l, w.people, r);
    }
  }

  lemma FreePlaceIsIt(slops: seq<Option<Slop>>, i: nat)
    requires i <= |slops| && (i < |slops| ==> slops[i].None?) && forall j :: 0 <= j < i ==> slops[j].Some?
    ensures FreePlace(slops) == i
  {}

  lemma RoomIsSized(l: Level, i: nat)
    requires WellBuilt(l) && i < |l.sectors|
    ensures Sized(l.sectors[i])
  {}

  /** A slop that reaches somebody takes a quarter of him, or all he has left, exactly when its second is up and he is
      on his feet and past his deadline, and then not again for twenty ticks; otherwise nothing changes. */
  lemma ATouchHurtsExactlyWhen(w: State, i: nat, touches: map<nat, string>)
    requires i < SLOP_POPULATION && w.slops[i].Some? && i in touches && touches[i] in w.people
    ensures var n, id, s := Touched(w, i, touches), touches[i], w.slops[i].value;
            var p := w.people[id];
            var hurts := w.tick >= s.touchAt && p.body.health > 0 && w.tick >= p.protectedUntil;
            && (!hurts ==> n == w)
            && (hurts ==>
                  && n == w.(people := w.people[id := n.people[id]], slops :=
                      w.slops[i := Some(s.(touchAt := w.tick + 20))])
                  && var q := n.people[id];
                     && q.body.health == (if p.body.health > 25 then p.body.health - 25 else 0) && q.body.inject == 0.0
                     && (q.body.health > 0 ==> q == p.(body := p.body.(health := q.body.health, inject := 0.0)))
                     && (q.body.health == 0 ==>
                         q.downUntil == w.tick + 60 && q.protectedUntil == 0 && !Ticking(q.body)))
  {}

  // ---- What a tick remembers ----

  /** Everything in view of anybody is glimpsed now, and every other glimpse is as it was. */
  lemma EverySightIsRemembered(l: Level, w: State, now: real, a: nat, r: Target)
    requires a < MAX_OCCUPANTS && w.slots[a] in w.people && Holder(w, r).Some? && r != Man(a)
    ensures var g := Recorded(l, w, now).glimpses;
            if InView(l, SectorOf(w, Man(a)), SectorOf(w, r)) then (a, r) in g && g[(a, r)].at == w.tick
            else ((a, r) in g <==> (a, r) in w.glimpses) && ((a, r) in g ==> g[(a, r)] == w.glimpses[(a, r)])
  {
    hide CanSee, InView, Numbers;
    NumbersAreHeld(w, r);
    InViewIsCanSee(l, SectorOf(w, Man(a)), SectorOf(w, r));
    SectorOfSpot(w, r);
    assert (a, r) in InSight(l, w.slots, w.people, w.slops) <==> CanSee(l, SectorOf(w, Man(a)), SectorOf(w, r));
  }

  lemma SectorOfSpot(w: State, r: Target)
    requires Holder(w, r).Some?
    ensures SpotOf(w.slots, w.people, w.slops, r).sector == SectorOf(w, r)
  {}

  /** The frame a tick records has everybody, and every slop, where they stand, and nobody else. */
  lemma TheFrameHasEverybody(l: Level, w: State, now: real)
    ensures var past := Recorded(l, w, now).past;
            && |past| == (if |w.past| < 12 then |w.past| + 1 else 12)
            && (forall i :: 0 <= i < |past| - 1 ==> past[i] == w.past[i + |w.past| + 1 - |past|])
            && var f := past[|past|-1];
               && f.tick == w.tick && f.at == now
               && (forall r :: r in f.spots <==> Holder(w, r).Some?)
               && (forall slot: nat :: slot < MAX_OCCUPANTS && w.slots[slot] in w.people ==>
                     Man(slot) in f.spots
                     && var b := w.people[w.slots[slot]].body;
                        f.spots[Man(slot)].pos == b.pos && f.spots[Man(slot)].sector == b.sector
                        && f.spots[Man(slot)].alive == (b.health > 0))
               && forall k: nat :: k < SLOP_POPULATION && w.slops[k].Some? ==>
                    Foe(k) in f.spots && f.spots[Foe(k)].pos == w.slops[k].value.pos
                    && f.spots[Foe(k)].sector == w.slops[k].value.sector && f.spots[Foe(k)].alive
  {
    hide Numbers, Glimpsed;
    forall r ensures r in Numbers(w.slots, w.people, w.slops) <==> Holder(w, r).Some? { NumbersAreHeld(w, r); }
  }
}
