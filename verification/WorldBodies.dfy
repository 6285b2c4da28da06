/** What the clock of the building costs a body in it: neither an ampoule nor a gun can be hurried by anything a client
    sends over any stretch of a stay. */
module WorldBodies {
  import opened Wrappers
  import opened Sequences
  import opened Levels
  import opened CommandLane
  import opened LaneRuns
  import opened Soldier
  import opened Injection
  import opened Rewind
  import opened World
  import opened WorldRuns
  import opened WorldLanes

  // ---- What others do to a man ----

  /** As long as he is on his feet afterwards he was before, and his gun is as it was. */
  predicate GunKept(p: Fighter, q: Fighter) {
    q.health > 0 ==> p.health > 0 && q.loaded == p.loaded && q.cooldown == p.cooldown && q.reload == p.reload
  }

  /** A shot never reaches its own shooter, and leaves the gun of anybody who stands as it was. */
  lemma ShotKeepsGuns(l: Level, w: State, shooter: string, aim: Option<Target>, instant: real, id: string)
    requires Inv(l, w) && shooter in w.people && id in w.people
    ensures var n := Shot(l, w, w.people[shooter].slot, aim, instant);
            && id in n.people && GunKept(w.people[id].body, n.people[id].body)
            && (id == shooter ==> n.people[id] == w.people[id])
  {
    hide Inv, Rewound, CanSee, HeldVisible, Shot;
    ShotKeeps(l, w, w.people[shooter].slot, aim, instant);
    var n := Shot(l, w, w.people[shooter].slot, aim, instant);
    if n.people[id] != w.people[id] {
      AShotHarmsOnlyItsTarget(l, w, w.people[shooter].slot, aim, instant, id);
    }
  }

  lemma {:induction false} OthersCommandsKeepGuns(l: Level, w: State, other: string, cmds: seq<Command<Order>>,
                                                  instant: real, id: string)
    requires Inv(l, w) && other in w.people && id in w.people && id != other && Forward(cmds)
    ensures var n := CommandedAll(l, w, other, cmds, instant);
            id in n.people && GunKept(w.people[id].body, n.people[id].body)
    decreases |cmds|
  {
    hide Inv, Shot, Soldier.Step, Clamped;
    if cmds != [] {
      ActedKeeps(l, w, other, cmds[0]);
      CommandKeeps(l, w, other, cmds[0], instant);
      ShotKeepsGuns(l, Acted(l, w, other, cmds[0]), other, cmds[0].intent.aim, instant, id);
      OthersCommandsKeepGuns(l, Commanded(l, w, other, cmds[0], instant), other, cmds[1..], instant, id);
    }
  }

  /** His own commands step his body and nothing else of him. */
  lemma {:induction false} OwnCommandsStep(l: Level, w: State, id: string, cmds: seq<Command<Order>>, instant: real)
    requires Inv(l, w) && id in w.people && Forward(cmds)
    ensures CommandedAll(l, w, id, cmds, instant).people[id]
         == w.people[id].(body := StepAll(l, w.people[id].body, cmds))
    decreases |cmds|
  {
    hide Inv, Shot, Soldier.Step, Clamped;
    if cmds != [] {
      ActedKeeps(l, w, id, cmds[0]);
      CommandKeeps(l, w, id, cmds[0], instant);
      ShotKeepsGuns(l, Acted(l, w, id, cmds[0]), id, cmds[0].intent.aim, instant, id);
      OwnCommandsStep(l, Commanded(l, w, id, cmds[0], instant), id, cmds[1..], instant);
    }
  }

  lemma OthersTurnKeepsGuns(l: Level, w: State, other: string, plan: Plan, id: string)
    requires Inv(l, w) && |l.sectors| > 0 && other in w.people && id in w.people && id != other
    ensures var n := Turn(l, w, other, plan); id in n.people && GunKept(w.people[id].body, n.people[id].body)
  {
    hide Inv, CommandedAll, Closed, Rise, Tick, Clamped, Commanded;
    RisenKeeps(l, w, other);
    CommandsAreForward(l, w, other);
    OthersCommandsKeepGuns(l, Risen(l, w, other), other, TurnCommands(w, other), InstantOf(plan, other), id);
  }

  // ---- His own turn ----

  /** The time one tick of a lane steps. */
  function TickTime(lane: Lane<Order>, guard: bool): real {
    TotalDt(Tick(lane, guard).stepped) + Tick(lane, guard).idle
  }

  /** His body once his own turn's commands and idle fill are through. */
  function Played(l: Level, p: Person, guard: bool): Fighter {
    var t := Tick(p.lane, guard);
    var q := StepAll(l, p.body, t.stepped);
    if t.idle > 0.0 then Soldier.Step(l, q, STILLNESS, t.idle) else q
  }

  /** The barrels his commands spend in his turn. */
  function ShotsInTurn(l: Level, p: Person): nat { Shots(l, p.body, Tick(p.lane, false).stepped) }

  lemma OwnTurnPlays(l: Level, w: State, id: string, plan: Plan)
    requires Inv(l, w) && |l.sectors| > 0 && id in w.people && w.people[id].body.health > 0
    ensures id in Turn(l, w, id, plan).people
    ensures var b, q := Turn(l, w, id, plan).people[id].body, Played(l, w.people[id], TurnGuard(l, w, id, plan));
            && b.loaded == q.loaded && b.cooldown == q.cooldown && b.reload == q.reload && b.health == q.health
            && b.inject >= q.inject
  {
    hide Inv, Tick, Soldier.Step, StepAll, CommandedAll, ProtectLeft, Commanded;
    var p := w.people[id];
    var instant := InstantOf(plan, id);
    assert Rise(l, w.tick, p) == p && Risen(l, w, id) == w;
    CommandsAreForward(l, w, id);
    OwnCommandsStep(l, w, id, TurnCommands(w, id), instant);
    var guard := TurnGuard(l, w, id, plan);
    GuardDoesNotChooseCommands(w, id, guard);
    ClosedKeepsTheGun(l, w.tick, p.(body := StepAll(l, p.body, TurnCommands(w, id))), Tick(p.lane, guard),
        id in plan.reached);
  }

  lemma ClosedKeepsTheGun(l: Level, tick: nat, p: Person, t: Ticked<Order>, reached: bool)
    ensures var b := Closed(l, tick, p, t, reached).body;
            var q := if t.idle > 0.0 then Soldier.Step(l, p.body, STILLNESS, t.idle) else p.body;
            && b.loaded == q.loaded && b.cooldown == q.cooldown && b.reload == q.reload && b.health == q.health
            && b.inject >= q.inject
  {
    hide Soldier.Step, ProtectLeft;
  }

  /** What so many shots cost in the long run. */
  function Cost(shots: nat): real { shots as real * SHOT_SECONDS }

  lemma CostAdds(a: nat, b: nat)
    ensures Cost(a + b) == Cost(a) + Cost(b) && Cost(0) == 0.0
  {}

  /** What a body keeps, and loses at most, over a span of time with so many shots in it. */
  predicate Pays(p: Fighter, q: Fighter, time: real, shots: nat) {
    && time >= 0.0 && Sound(q) && q.health > 0 && q.inject >= p.inject - time
    && Owed(q) >= Owed(p) - time + Cost(shots)
  }

  lemma PaysAdd(p: Fighter, q: Fighter, r: Fighter, a: real, m: nat, b: real, n: nat)
    requires Pays(p, q, a, m) && Pays(q, r, b, n)
    ensures Pays(p, r, a + b, m + n)
  {
    hide Owed, Sound;
    CostAdds(m, n);
    hide Cost;
  }

  lemma CommandsPay(l: Level, p: Fighter, cmds: seq<Command<Order>>)
    requires Sound(p) && p.health > 0 && Forward(cmds)
    ensures Pays(p, StepAll(l, p, cmds), TotalDt(cmds), Shots(l, p, cmds))
  {
    hide StepAll, Shots, Owed, Sound, Healing;
    TotalIsForward(cmds);
    AnyHealthHeals(p);
    HealingIsUnsliced(l, p, cmds, p.health - Delivered(p.inject));
    StepAllKeepsSound(l, p, cmds);
    ShotsAreOwed(l, p, cmds);
  }

  lemma StillnessPays(l: Level, p: Fighter, dt: real)
    requires Sound(p) && p.health > 0 && dt >= 0.0
    ensures Pays(p, Soldier.Step(l, p, STILLNESS, dt), dt, 0)
  {
    hide Soldier.Step, Owed, Sound, Healing, Granted;
    AnyHealthHeals(p);
    StepHeals(l, p, STILLNESS, dt, p.health - Delivered(p.inject));
    StepKeepsSound(l, p, STILLNESS, dt);
    StepOwes(l, p, STILLNESS, dt);
    StillnessSpendsNothing(p, dt);
  }

  /** What a turn's time does to a standing body: the ampoule loses no more than the time, and the gun owes for it. */
  lemma PlayedPays(l: Level, p: Person, guard: bool)
    requires Sound(p.body) && QueueOk(p.lane) && p.body.health > 0
    ensures Pays(p.body, Played(l, p, guard), TickTime(p.lane, guard), ShotsInTurn(l, p))
  {
    hide Tick, Soldier.Step, StepAll, Shots, Sound, Pays;
    var t := Tick(p.lane, guard);
    SameCommands(p.lane, guard);
    TurnLane(p.lane, guard);
    TickPays(p.lane, guard);
    CommandsPay(l, p.body, t.stepped);
    if t.idle > 0.0 {
      var q := StepAll(l, p.body, t.stepped);
      PaysLeavesSound(p.body, q, TotalDt(t.stepped), ShotsInTurn(l, p));
      StillnessPays(l, q, t.idle);
      PaysAdd(p.body, q, Played(l, p, guard), TotalDt(t.stepped), ShotsInTurn(l, p), t.idle, 0);
    }
  }

  lemma PaysLeavesSound(p: Fighter, q: Fighter, time: real, shots: nat)
    requires Pays(p, q, time, shots)
    ensures Sound(q) && q.health > 0
  {}

  lemma SameCommands(lane: Lane<Order>, guard: bool)
    ensures Tick(lane, guard).stepped == Tick(lane, false).stepped
  {}

  lemma AnyHealthHeals(p: Fighter)
    requires Sound(p)
    ensures Healing(p, p.health - Delivered(p.inject))
  {}

  lemma StillnessSpendsNothing(p: Fighter, dt: real)
    ensures !Granted(p, STILLNESS, dt)
  {}

  // ---- One tick ----

  /** He is on his feet when the turns begin and after every one of them. */
  predicate TurnsUpright(l: Level, w: State, order: seq<string>, plan: Plan, id: string)
    requires |l.sectors| > 0
    decreases |order|
  {
    && id in w.people && w.people[id].body.health > 0
    && (order == [] || TurnsUpright(l, if order[0] in w.people then Turn(l, w, order[0], plan)
        else w, order[1..], plan, id))
  }

  /** Nobody else's turn leaves a mark on him. */
  predicate TurnsSpare(l: Level, w: State, order: seq<string>, plan: Plan, id: string)
    requires |l.sectors| > 0
    decreases |order|
  {
    order == [] ||
    (var n := if order[0] in w.people then Turn(l, w, order[0], plan) else w;
     && (order[0] != id ==> id in w.people && id in n.people && n.people[id].body == w.people[id].body)
     && TurnsSpare(l, n, order[1..], plan, id))
  }

  function TurnsShots(l: Level, w: State, order: seq<string>, plan: Plan, id: string): nat
    requires |l.sectors| > 0
    decreases |order|
  {
    if order == [] then 0
    else if order[0] !in w.people then TurnsShots(l, w, order[1..], plan, id)
    else
      var now := if order[0] == id then ShotsInTurn(l, w.people[id]) else 0;
      now + TurnsShots(l, Turn(l, w, order[0], plan), order[1..], plan, id)
  }

  lemma FitBody(l: Level, w: State, id: string)
    requires Inv(l, w) && id in w.people
    ensures Sound(w.people[id].body) && QueueOk(w.people[id].lane)
  {}

  lemma {:induction false} NoTurnNoShots(l: Level, w: State, order: seq<string>, plan: Plan, id: string)
    requires |l.sectors| > 0 && id !in order
    ensures TurnsShots(l, w, order, plan, id) == 0
    decreases |order|
  {
    hide Turn;
    if order != [] {
      NoTurnNoShots(l, if order[0] in w.people then Turn(l, w, order[0], plan) else w, order[1..], plan, id);
    }
  }

  /** The time his turn steps, if he has one. */
  function TimeInTurns(l: Level, w: State, order: seq<string>, plan: Plan, id: string): real
    requires |l.sectors| > 0 && id in w.people
  {
    if id in order then TickTime(w.people[id].lane, GuardAt(l, w, order, id, plan)) else 0.0
  }

  /** His own turn: time and shots, and a body on its feet. */
  lemma OwnTurnPays(l: Level, w: State, id: string, plan: Plan)
    requires Inv(l, w) && |l.sectors| > 0 && id in w.people && w.people[id].body.health > 0
    ensures id in Turn(l, w, id, plan).people
    ensures var b, q, time := w.people[id].body, Turn(l, w, id, plan).people[id].body,
                              TickTime(w.people[id].lane, TurnGuard(l, w, id, plan));
            && time >= 0.0 && q.health > 0 && q.inject >= b.inject - time
            && Owed(q) >= Owed(b) - time + Cost(ShotsInTurn(l, w.people[id]))
  {
    hide Inv, Turn, ShotsInTurn, TickTime, TurnGuard, Owed, Played, Cost, Sound;
    FitBody(l, w, id);
    OwnTurnPlays(l, w, id, plan);
    PlayedPays(l, w.people[id], TurnGuard(l, w, id, plan));
    OwedIsOfTheGun(Turn(l, w, id, plan).people[id].body, Played(l, w.people[id], TurnGuard(l, w, id, plan)));
  }

  /** Somebody else's turn: a man still on his feet owes what he owed. */
  lemma OthersTurnOwes(l: Level, w: State, other: string, plan: Plan, id: string)
    requires Inv(l, w) && |l.sectors| > 0 && other in w.people && id in w.people && id != other
    requires id in Turn(l, w, other, plan).people && Turn(l, w, other, plan).people[id].body.health > 0
    ensures Owed(Turn(l, w, other, plan).people[id].body) == Owed(w.people[id].body)
  {
    hide Inv, Turn, Owed;
    OthersTurnKeepsGuns(l, w, other, plan, id);
    OwedIsOfTheGun(Turn(l, w, other, plan).people[id].body, w.people[id].body);
  }

  /** How the time and the shots of the turns split into the first and the rest. */
  lemma TurnsSplitOff(l: Level, w: State, order: seq<string>, plan: Plan, id: string)
    requires Inv(l, w) && |l.sectors| > 0 && Distinct(order) && id in w.people && order != [] && order[0] in w.people
    ensures var n, rest := Turn(l, w, order[0], plan), order[1..];
            && id in n.people
            && TimeInTurns(l, w, order, plan, id)
               == (if order[0] == id then TickTime(w.people[id].lane, TurnGuard(l, w, id, plan))
                   else TimeInTurns(l, n, rest, plan, id))
            && TurnsShots(l, w, order, plan, id)
               == (if order[0] == id then ShotsInTurn(l, w.people[id]) else TurnsShots(l, n, rest, plan, id))
            && (order[0] == id ==> TimeInTurns(l, n, rest, plan, id) == 0.0 && TurnsShots(l, n, rest, plan, id) == 0)
  {
    hide Inv, Turn, ShotsInTurn, TickTime, TurnGuard;
    var first, rest := order[0], order[1..];
    assert first !in rest && (id in order <==> id == first || id in rest);
    TurnLanes(l, w, first, plan);
    if first == id { NoTurnNoShots(l, Turn(l, w, first, plan), rest, plan, id); }
  }

  lemma {:induction false} TurnsOwe(l: Level, w: State, order: seq<string>, plan: Plan, id: string)
    requires Inv(l, w) && |l.sectors| > 0 && Distinct(order) && TurnsUpright(l, w, order, plan, id)
    ensures var n := Turns(l, w, order, plan);
            && id in n.people && n.people[id].body.health > 0
            && Owed(n.people[id].body)
               >= Owed(w.people[id].body) - TimeInTurns(l, w, order, plan, id) + Cost(TurnsShots(l, w, order, plan, id))
    decreases |order|
  {
    hide Inv, Turn, Owed, Cost, TimeInTurns, TurnsShots;
    CostAdds(0, 0);
    if order == [] {
      NoTurns(l, w, order, plan, id);
    } else if order[0] !in w.people {
      AbsentTurn(l, w, order, plan, id);
      TurnsOwe(l, w, order[1..], plan, id);
    } else {
      TurnKeeps(l, w, order[0], plan);
      TurnsSplitOff(l, w, order, plan, id);
      TurnsOwe(l, Turn(l, w, order[0], plan), order[1..], plan, id);
      if order[0] == id { OwnTurnPays(l, w, id, plan); } else { OthersTurnOwes(l, w, order[0], plan, id); }
    }
  }

  lemma NoTurns(l: Level, w: State, order: seq<string>, plan: Plan, id: string)
    requires |l.sectors| > 0 && id in w.people && order == []
    ensures TimeInTurns(l, w, order, plan, id) == 0.0 && TurnsShots(l, w, order, plan, id) == 0
  {}

  lemma AbsentTurn(l: Level, w: State, order: seq<string>, plan: Plan, id: string)
    requires |l.sectors| > 0 && id in w.people && order != [] && order[0] !in w.people
    ensures TimeInTurns(l, w, order, plan, id) == TimeInTurns(l, w, order[1..], plan, id)
    ensures TurnsShots(l, w, order, plan, id) == TurnsShots(l, w, order[1..], plan, id)
  {
    assert id in order <==> id in order[1..];
  }

  lemma OwedIsOfTheGun(p: Fighter, q: Fighter)
    requires p.loaded == q.loaded && p.cooldown == q.cooldown && p.reload == q.reload
    ensures Owed(p) == Owed(q)
  {}

  lemma {:induction false} TurnsInject(l: Level, w: State, order: seq<string>, plan: Plan, id: string)
    requires Inv(l, w) && |l.sectors| > 0 && Distinct(order) && id in w.people && w.people[id].body.health > 0
    requires TurnsSpare(l, w, order, plan, id)
    ensures var n := Turns(l, w, order, plan);
            && id in n.people && n.people[id].body.health > 0
            && n.people[id].body.inject >= w.people[id].body.inject - TimeInTurns(l, w, order, plan, id)
    decreases |order|
  {
    hide Inv, Turn, Owed, Cost, TimeInTurns, TurnsShots;
    if order == [] {
      NoTurns(l, w, order, plan, id);
    } else if order[0] !in w.people {
      AbsentTurn(l, w, order, plan, id);
      TurnsInject(l, w, order[1..], plan, id);
    } else {
      TurnKeeps(l, w, order[0], plan);
      TurnsSplitOff(l, w, order, plan, id);
      if order[0] == id { OwnTurnPays(l, w, id, plan); }
      TurnsInject(l, Turn(l, w, order[0], plan), order[1..], plan, id);
    }
  }

  // ---- The rest of a tick ----

  lemma TouchKeepsGuns(w: State, i: nat, touches: map<nat, string>, id: string)
    requires i < SLOP_POPULATION && id in w.people
    ensures id in Touched(w, i, touches).people && GunKept(w.people[id].body, Touched(w, i, touches).people[id].body)
  {}

  lemma {:induction false} TouchesKeepGuns(w: State, i: nat, touches: map<nat, string>, id: string)
    requires i <= SLOP_POPULATION && id in w.people
    ensures var n := TouchedFrom(w, i, touches); id in n.people && GunKept(w.people[id].body, n.people[id].body)
    decreases SLOP_POPULATION - i
  {
    hide Touched;
    if i < SLOP_POPULATION {
      TouchKeepsGuns(w, i, touches, id);
      TouchesKeepGuns(Touched(w, i, touches), i + 1, touches, id);
    }
  }

  lemma {:induction false} ReleasesKeepBodies(w: State, ids: seq<string>, id: string)
    ensures var n := ReleasedAll(w, ids); id in n.people ==> id in w.people && n.people[id] == w.people[id]
    decreases |ids|
  {
    hide Forgotten;
    if ids != [] { ReleasesKeepBodies(Released(w, ids[0]), ids[1..], id); }
  }

  lemma ClosingKeepsGuns(l: Level, played: State, plan: Plan, id: string)
    requires |l.sectors| > 0 && id in played.people
    ensures var n := Closing(l, played, plan); id in n.people ==> GunKept(played.people[id].body, n.people[id].body)
  {
    hide TouchedFrom, ReleasedAll, SlopsMoved, Spots, Glimpsed, LastN, RandomSpot, SpawnSector;
    var spawned := Spawned(l, played, plan);
    var moved := spawned.(slops := SlopsMoved(l, spawned.slops, plan.settles));
    TouchesKeepGuns(moved, 0, plan.touches, id);
    var touched := TouchedFrom(moved, 0, plan.touches);
    ReleasesKeepBodies(Recorded(l, touched, plan.now), plan.abandoned, id);
  }

  /** The building as the turns of a tick begin, and their order. */
  function Begun(w: State): State { w.(tick := w.tick + 1) }

  function OrderOf(w: State, plan: Plan): seq<string> { TurnOrder(plan.keys, w.tick + 1) }

  /** He is on his feet at every turn of the tick and at its end. */
  predicate TickUpright(l: Level, w: State, plan: Plan, id: string)
    requires |l.sectors| > 0
  {
    && TurnsUpright(l, Begun(w), OrderOf(w, plan), plan, id)
    && id in Advanced(l, w, plan).people && Advanced(l, w, plan).people[id].body.health > 0
  }

  /** Nobody and nothing marks him in the tick. */
  predicate TickSpares(l: Level, w: State, plan: Plan, id: string)
    requires |l.sectors| > 0
  {
    var played := Turns(l, Begun(w), OrderOf(w, plan), plan);
    && TurnsSpare(l, Begun(w), OrderOf(w, plan), plan, id)
    && id in played.people && id in Advanced(l, w, plan).people
    && Advanced(l, w, plan).people[id].body == played.people[id].body
  }

  function TickShots(l: Level, w: State, plan: Plan, id: string): nat
    requires |l.sectors| > 0
  {
    TurnsShots(l, Begun(w), OrderOf(w, plan), plan, id)
  }

  lemma TickOwes(l: Level, w: State, plan: Plan, id: string)
    requires Good(l, w) && Fits(w, Advance(plan)) && |l.sectors| > 0 && TickUpright(l, w, plan, id)
    ensures id in w.people
    ensures Owed(Advanced(l, w, plan).people[id].body)
         >= Owed(w.people[id].body) - TickTime(w.people[id].lane, AdvanceGuard(l, w, id, plan))
          + Cost(TickShots(l, w, plan, id))
  {
    hide Inv, AllClamped, Turns, TurnsShots, TurnOrder, GuardAt, TickTime, Owed, Closing, Advanced, Cost;
    TickOn(l, w);
    EverybodyHasATurn(plan.keys, w.tick + 1, id);
    RotationIsDistinct(plan.keys, w.tick + 1);
    TurnsOwe(l, Begun(w), OrderOf(w, plan), plan, id);
    var played := Turns(l, Begun(w), OrderOf(w, plan), plan);
    AdvancedIsClosing(l, w, plan);
    ClosingKeepsGuns(l, played, plan, id);
    OwedIsOfTheGun(Advanced(l, w, plan).people[id].body, played.people[id].body);
  }

  lemma TickInjects(l: Level, w: State, plan: Plan, id: string)
    requires Good(l, w) && Fits(w, Advance(plan)) && |l.sectors| > 0 && TickSpares(l, w, plan, id)
    requires id in w.people && w.people[id].body.health > 0
    ensures var b := Advanced(l, w, plan).people[id].body;
            && b.health > 0
            && b.inject >= w.people[id].body.inject - TickTime(w.people[id].lane, AdvanceGuard(l, w, id, plan))
  {
    hide Inv, AllClamped, Turns, TurnsSpare, TurnOrder, GuardAt, TickTime, Advanced;
    TickOn(l, w);
    EverybodyHasATurn(plan.keys, w.tick + 1, id);
    RotationIsDistinct(plan.keys, w.tick + 1);
    TurnsInject(l, Begun(w), OrderOf(w, plan), plan, id);
  }

  // ---- A stretch of a stay ----

  /** He is there, and on his feet, through all of it. */
  predicate StaysUpright(l: Level, w: State, es: seq<Event>, id: string)
    requires |l.sectors| > 0
    decreases |es|
  {
    && id in w.people && w.people[id].body.health > 0
    && (es == [] ||
        ((es[0].Advance? ==> TickUpright(l, w, es[0].plan, id)) && StaysUpright(l, Outcome(l, w, es[0]), es[1..], id)))
  }

  /** He is there, and nobody and nothing marks him, through all of it. */
  predicate StaysSpared(l: Level, w: State, es: seq<Event>, id: string)
    requires |l.sectors| > 0
    decreases |es|
  {
    && id in w.people
    && (es == [] ||
        ((es[0].Advance? ==> TickSpares(l, w, es[0].plan, id)) && StaysSpared(l, Outcome(l, w, es[0]), es[1..], id)))
  }

  /** The barrels he spends in one event: those of a tick, and none in anything else. */
  function EventShots(l: Level, w: State, e: Event, id: string): nat
    requires |l.sectors| > 0
  {
    if e.Advance? then TickShots(l, w, e.plan, id) else 0
  }

  /** The barrels he spends in it. */
  function ShotsIn(l: Level, w: State, es: seq<Event>, id: string): nat
    requires |l.sectors| > 0
    decreases |es|
  {
    if es == [] then 0
    else EventShots(l, w, es[0], id) + ShotsIn(l, Outcome(l, w, es[0]), es[1..], id)
  }

  lemma {:induction false} UprightStays(l: Level, w: State, es: seq<Event>, id: string)
    requires |l.sectors| > 0 && StaysUpright(l, w, es, id)
    ensures Stays(l, w, es, id)
    decreases |es|
  {
    hide Outcome, TickUpright;
    if es != [] { UprightStays(l, Outcome(l, w, es[0]), es[1..], id); }
  }

  lemma {:induction false} SparedStays(l: Level, w: State, es: seq<Event>, id: string)
    requires |l.sectors| > 0 && StaysSpared(l, w, es, id)
    ensures Stays(l, w, es, id)
    decreases |es|
  {
    hide Outcome, TickSpares;
    if es != [] { SparedStays(l, Outcome(l, w, es[0]), es[1..], id); }
  }

  /** The time his history has stepped. */
  function LoggedTime(log: seq<Happens<Order>>): real { After(Born<Order>(), log).time }

  /** What one event adds to it: a tick's time, and nothing for anything else. */
  lemma EventTime(l: Level, w: State, e: Event, id: string, log: seq<Happens<Order>>)
    requires Good(l, w) && Fits(w, e) && |l.sectors| > 0 && Tells(w, id, log)
    requires id in w.people && id in Outcome(l, w, e).people
    ensures LoggedTime(Logged(l, w, e, id, log))
         == LoggedTime(log) + if e.Advance? then TickTime(w.people[id].lane, AdvanceGuard(l, w, id, e.plan)) else 0.0
    ensures !e.Advance? ==> Outcome(l, w, e).people[id].body == w.people[id].body
  {
    hide Good, Advanced, AdvanceGuard, CommandLane.Enqueue, FreeSlot, Tick, Accept, Forgotten;
    match e
    case Join(who) =>
    case Leave(who) =>
    case Input(who, cmds) =>
      AfterOneMore(Born<Order>(), log, LaneRuns.Frame(cmds));
    case Advance(plan) =>
      AfterOneMore(Born<Order>(), log, TickOf(AdvanceGuard(l, w, id, plan)));
  }

  lemma EventOwes(l: Level, w: State, e: Event, id: string, log: seq<Happens<Order>>)
    requires Good(l, w) && Fits(w, e) && |l.sectors| > 0 && Tells(w, id, log)
    requires id in w.people && id in Outcome(l, w, e).people && (e.Advance? ==> TickUpright(l, w, e.plan, id))
    ensures Owed(Outcome(l, w, e).people[id].body)
         >= Owed(w.people[id].body) - (LoggedTime(Logged(l, w, e, id, log)) - LoggedTime(log))
          + Cost(EventShots(l, w, e, id))
  {
    hide Good, Outcome, Fits, Tells, Logged, LoggedTime, Owed, TickTime, TickShots, TickUpright, AdvanceGuard;
    CostAdds(0, 0);
    hide Cost;
    EventTime(l, w, e, id, log);
    if e.Advance? {
      OutcomeOfAdvance(l, w, e.plan);
      TickOwes(l, w, e.plan, id);
    }
  }

  lemma {:induction false} StayOwes(l: Level, w: State, es: seq<Event>, id: string, log: seq<Happens<Order>>)
    requires Good(l, w) && |l.sectors| > 0 && FitsAll(l, w, es) && Tells(w, id, log) && StaysUpright(l, w, es, id)
    ensures var n := Run(l, w, es);
            && id in n.people
            && Cost(ShotsIn(l, w, es, id))
               <= LoggedTime(LogOf(l, w, es, id, log)) - LoggedTime(log)
                   + Owed(n.people[id].body) - Owed(w.people[id].body)
    decreases |es|
  {
    hide Good, Outcome, Fits, Tells, Logged, LoggedTime, Owed, EventShots, TickUpright, Cost;
    CostAdds(0, 0);
    if es != [] {
      EventKeeps(l, w, es[0]);
      EventTells(l, w, es[0], id, log);
      var n := Outcome(l, w, es[0]);
      assert id in n.people;
      EventOwes(l, w, es[0], id, log);
      StayOwes(l, n, es[1..], id, Logged(l, w, es[0], id, log));
      CostAdds(EventShots(l, w, es[0], id), ShotsIn(l, n, es[1..], id));
    }
  }

  lemma OutcomeOfAdvance(l: Level, w: State, plan: Plan)
    requires |l.sectors| > 0
    ensures Outcome(l, w, Advance(plan)) == Advanced(l, w, plan)
  {}

  lemma {:induction false} StayInjects(l: Level, w: State, es: seq<Event>, id: string, log: seq<Happens<Order>>)
    requires Good(l, w) && |l.sectors| > 0 && FitsAll(l, w, es) && Tells(w, id, log) && StaysSpared(l, w, es, id)
    requires w.people[id].body.health > 0
    ensures var n := Run(l, w, es);
            && id in n.people
            && n.people[id].body.inject
               >= w.people[id].body.inject - (LoggedTime(LogOf(l, w, es, id, log)) - LoggedTime(log))
    decreases |es|
  {
    hide Good, Outcome, Fits, Tells, Logged, LoggedTime, TickTime, TickSpares, AdvanceGuard;
    if es != [] {
      EventKeeps(l, w, es[0]);
      EventTells(l, w, es[0], id, log);
      var n := Outcome(l, w, es[0]);
      assert id in n.people;
      EventTime(l, w, es[0], id, log);
      if es[0].Advance? {
        OutcomeOfAdvance(l, w, es[0].plan);
        TickInjects(l, w, es[0].plan, id);
      }
      StayInjects(l, n, es[1..], id, Logged(l, w, es[0], id, log));
    }
  }

  /** Where a run has brought somebody: the building is good and his log tells of his lane. */
  lemma BroughtHere(l: Level, before: seq<Event>, id: string)
    requires WellBuilt(l) && |l.sectors| > 0 && FitsAll(l, Founded(), before) && id in Run(l, Founded(), before).people
    ensures Good(l, Run(l, Founded(), before))
            && Tells(Run(l, Founded(), before), id, LogOf(l, Founded(), before, id, []))
    ensures Sound(Run(l, Founded(), before).people[id].body)
  {
    hide WellBuilt, Run, FitsAll, LogOf, Tells, Inv, AllClamped;
    FoundedIsGood(l);
    FoundedTells(id);
    EveryRunIsGood(l, Founded(), before);
    RunTells(l, Founded(), before, id, []);
    FitBody(l, Run(l, Founded(), before), id);
  }

  lemma FoundedTells(id: string)
    ensures Tells(Founded(), id, [])
  {}

  /** Over any k ticks of the building, whatever he sends: a man on his feet fires no more barrels than a bankful, k - 1
      ticks and the head start of a full gun have time for, at 1.1 seconds each. */
  lemma NobodyFiresFasterThanTheClock(l: Level, before: seq<Event>, es: seq<Event>, id: string)
    requires WellBuilt(l) && |l.sectors| > 0 && FitsAll(l, Founded(), before + es)
    requires StaysUpright(l, Run(l, Founded(), before), es, id) && AdvancesIn(es) > 0
    ensures ShotsIn(l, Run(l, Founded(), before), es, id) as real * 1.1
         <= TIME_BUDGET_CAP + (AdvancesIn(es) - 1) as real * SIM_STEP + RELOAD_SECONDS + FIRE_COOLDOWN
  {
    hide WellBuilt, Run, FitsAll, LogOf, Tells, Good, Owed, Sound, ShotsIn, StaysUpright, LoggedTime, Stays;
    var w, log := Run(l, Founded(), before), LogOf(l, Founded(), before, id, []);
    UprightStays(l, w, es, id);
    StaysIsThere(l, w, es, id);
    FitsSplits(l, Founded(), before, es);
    BroughtHere(l, before, id);
    StayOwes(l, w, es, id, log);
    StayTime(l, before, es, id);
    EndIsSound(l, w, es, id);
    OwedInRange(Run(l, w, es).people[id].body);
    OwedInRange(w.people[id].body);
  }

  lemma StaysIsThere(l: Level, w: State, es: seq<Event>, id: string)
    requires |l.sectors| > 0 && Stays(l, w, es, id)
    ensures id in w.people
  {}

  lemma OwedInRange(p: Fighter)
    requires Sound(p)
    ensures 0.0 <= Owed(p) <= RELOAD_SECONDS + FIRE_COOLDOWN
  {}

  /** An ampoule begun in a run by a man whom nothing marks is not over in fewer than 41 ticks of the building,
      whatever he sends; over any k ticks it loses no more than a bankful and k - 1 ticks. */
  lemma NobodyHurriesAnAmpoule(l: Level, before: seq<Event>, es: seq<Event>, id: string)
    requires WellBuilt(l) && |l.sectors| > 0 && FitsAll(l, Founded(), before + es)
    requires StaysSpared(l, Run(l, Founded(), before), es, id) && AdvancesIn(es) > 0
    requires var b := Run(l, Founded(), before).people[id].body; b.health > 0 && b.inject == SYRINGE_SECONDS
    ensures var n := Run(l, Run(l, Founded(), before), es);
            && id in n.people
            && n.people[id].body.inject >= SYRINGE_SECONDS - TIME_BUDGET_CAP - (AdvancesIn(es) - 1) as real * SIM_STEP
            && (n.people[id].body.inject == 0.0 ==> AdvancesIn(es) >= 41)
  {
    hide WellBuilt, Run, FitsAll, LogOf, Tells, Good, StaysSpared, LoggedTime;
    var w, log := Run(l, Founded(), before), LogOf(l, Founded(), before, id, []);
    SparedStays(l, w, es, id);
    FitsSplits(l, Founded(), before, es);
    BroughtHere(l, before, id);
    StayInjects(l, w, es, id, log);
    StayTime(l, before, es, id);
    if AdvancesIn(es) <= 40 { assert (AdvancesIn(es) - 1) as real * SIM_STEP <= 39.0 * SIM_STEP; }
  }

  lemma EndIsSound(l: Level, w: State, es: seq<Event>, id: string)
    requires Good(l, w) && |l.sectors| > 0 && FitsAll(l, w, es) && id in Run(l, w, es).people
    ensures Sound(Run(l, w, es).people[id].body)
  {
    hide Inv, AllClamped, Run, FitsAll;
    EveryRunIsGood(l, w, es);
    FitBody(l, Run(l, w, es), id);
  }

  lemma {:induction false} FitsSplits(l: Level, w: State, a: seq<Event>, b: seq<Event>)
    requires |l.sectors| > 0 && FitsAll(l, w, a + b)
    ensures FitsAll(l, w, a) && FitsAll(l, Run(l, w, a), b)
    decreases |a|
  {
    hide Outcome, Fits;
    if a == [] {
      assert a + b == b;
    } else {
      assert (a + b)[1..] == a[1..] + b && (a + b)[0] == a[0];
      FitsSplits(l, Outcome(l, w, a[0]), a[1..], b);
    }
  }

  /** The time of a stretch is bounded by the window. */
  lemma StayTime(l: Level, before: seq<Event>, es: seq<Event>, id: string)
    requires WellBuilt(l) && |l.sectors| > 0 && FitsAll(l, Founded(), before)
    requires Stays(l, Run(l, Founded(), before), es, id) && AdvancesIn(es) > 0
    ensures var log := LogOf(l, Founded(), before, id, []);
            LoggedTime(LogOf(l, Run(l, Founded(), before), es, id, log)) - LoggedTime(log)
            <= TIME_BUDGET_CAP + (AdvancesIn(es) - 1) as real * SIM_STEP
  {
    hide WellBuilt, Run, FitsAll, LogOf, Stays, After;
    NobodyIsSteppedMoreThanTheWindow(l, before, es, id);
    LogSplits(l, Founded(), before, es, id, []);
  }
}
