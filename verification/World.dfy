/** The shared building, as a state machine: who holds which slot, what a tick does to everybody, and what it records.

    Draws, clocks and geometry arrive with each tick as a plan: the order of turns is the program's own, and the plan
    says what each ray met, where each walk settled and who was reached, which the rules here may still refuse. */
module World {
  import opened Wrappers
  import opened Plane
  import opened Draws
  import opened Levels
  import opened CommandLane
  import opened Soldier
  import opened Rewind

  const MAX_OCCUPANTS: nat := 3
  const SLOP_POPULATION: nat := 2
  const BARREL_DAMAGE: int := 50
  const SLOP_HEALTH: int := BARREL_DAMAGE
  const SLOP_DAMAGE: int := 25
  const DOWN_TICKS: int := 60
  const PROTECT_TICKS: int := 40
  const SLOP_TOUCH_TICKS: int := 20
  const SLOP_SPAWN_TICKS: int := 160
  const VISIBLE_HOLD_TICKS: int := 4

  type Slot = s: nat | s < MAX_OCCUPANTS
  type SlotTable = s: seq<string> | |s| == MAX_OCCUPANTS witness ["", "", ""]
  type SlopTable = s: seq<Option<Slop>> | |s| == SLOP_POPULATION witness [None, None]

  /** A deadline of zero has passed. `who` numbers every arrival and is not in the program. */
  datatype Person = Person(slot: Slot, who: nat, body: Fighter, lane: Lane<Order>, downUntil: int, protectedUntil: int)

  datatype Slop = Slop(who: nat, pos: Vec2, sector: nat, health: int, touchAt: int)

  /** When a viewer last could see something. Whose eyes, and whose body, are not in the program. */
  datatype Glimpse = Glimpse(at: nat, viewer: nat, seen: nat)

  datatype State = State(
    tick: nat,
    slots: SlotTable,
    people: map<string, Person>,
    slops: SlopTable,
    spawnAt: int,
    past: seq<Frame>,
    glimpses: map<(nat, Target), Glimpse>,
    born: nat,
    roster: nat)

  function Founded(): State { State(0, ["", "", ""], map[], [None, None], SLOP_SPAWN_TICKS, [], map[], 0, 0) }

  function Spawn(l: Level): Vec2
    requires |l.sectors| > 0
  {
    Center(l.sectors[0])
  }

  // ---- Coming and going ----

  /** The lowest slot nobody holds, or the number of slots. */
  function FreeSlot(slots: seq<string>): (i: nat)
    ensures i <= |slots| && (i < |slots| ==> slots[i] == "") && forall j :: 0 <= j < i ==> slots[j] != ""
  {
    if slots == [] || slots[0] == "" then 0 else 1 + FreeSlot(slots[1..])
  }

  function Protect(tick: nat, p: Person): Person {
    p.(body := p.body.(shelter := SPAWN_PROTECT), protectedUntil := tick + PROTECT_TICKS)
  }

  predicate Protected(tick: nat, p: Person) { tick < p.protectedUntil }

  function ProtectLeft(tick: nat, p: Person): real {
    if Protected(tick, p) then (p.protectedUntil - tick) as real * SIM_STEP else 0.0
  }

  function Joined(l: Level, w: State, id: string): State
    requires |l.sectors| > 0
  {
    var slot := FreeSlot(w.slots);
    if id in w.people || slot == |w.slots| then w
    else
      var p := Protect(w.tick, Person(slot, w.born, NewFighter(Spawn(l)), NewLane(), 0, 0));
      w.(people := w.people[id := p], slots := w.slots[slot := id], born := w.born + 1,
         roster := w.roster + 1)
  }

  function Released(w: State, id: string): State
  {
    if id !in w.people then w
    else
      var slot := w.people[id].slot;
      w.(people := w.people - {id}, slots := w.slots[slot := ""], past := Forgotten(w.past, Man(slot)),
         glimpses := (map k | k in w.glimpses && k.0 != slot && k.1 != Man(slot) :: w.glimpses[k]),
         roster := w.roster + 1)
  }

  function Enqueued(w: State, id: string, cmds: seq<Sent<Order>>): State {
    if id !in w.people then w else w.(people := w.people[id := w.people[id].(lane := Enqueue(w.people[id].lane, cmds))])
  }

  // ---- Harm ----

  /** Harm cancels an ampoule always, and everything else only when it kills. */
  function Hurt(tick: nat, p: Person, damage: int): Person {
    var health := p.body.health - damage;
    if health > 0 then p.(body := p.body.(health := health, inject := 0.0))
    else
      p.(body := p.body.(health := 0, inject := 0.0, cooldown := 0.0, reload := 0.0, shelter := 0.0),
         protectedUntil := 0, downUntil := tick + DOWN_TICKS)
  }

  function Rise(l: Level, tick: nat, p: Person): Person
    requires |l.sectors| > 0
  {
    if p.body.health > 0 || tick < p.downUntil then p
    else
      Protect(tick, p.(body := p.body.(pos := Spawn(l), sector := 0, health := START_HEALTH, loaded := BARRELS,
                                       cooldown := 0.0, reload := 0.0, inject := 0.0),
                       downUntil := 0))
  }

  function KillSlop(w: State, id: nat): State
    requires id < SLOP_POPULATION
  {
    w.(slops := w.slops[id := None], past := Forgotten(w.past, Foe(id)),
       glimpses := (map k | k in w.glimpses && k.1 != Foe(id) :: w.glimpses[k]))
  }

  /** From one room one sees it and the rooms a doorway away; a room the level does not have hides nothing. */
  predicate CanSee(l: Level, from: nat, at: nat) {
    from >= |l.sectors| || at >= |l.sectors| || from == at || Adjacent(l.portals, from, at)
  }

  /** Seen within the hold, whatever a step through a doorway has done since. */
  predicate HeldVisible(w: State, viewer: nat, at: Target) {
    (viewer, at) in w.glimpses && w.tick - w.glimpses[(viewer, at)].at < VISIBLE_HOLD_TICKS
  }

  function SectorOf(w: State, at: Target): nat {
    match at
    case Man(slot) => if slot < |w.slots| && w.slots[slot] in w.people then w.people[w.slots[slot]].body.sector else 0
    case Foe(id) => if id < |w.slops| && w.slops[id].Some? then w.slops[id].value.sector else 0
  }

  /** Who may be hit from a slot: not the shooter, not a man down or sheltered now, nobody the rewound frames show on
      the floor, and nothing out of sight of where it stood then, unless it was in sight within the hold. */
  predicate MayBeHit(l: Level, w: State, shooter: nat, at: Target, past: map<Target, Spot>) {
    && (match at
        case Man(slot) =>
          && slot < |w.slots| && slot != shooter && w.slots[slot] != "" && w.slots[slot] in w.people
          && w.people[w.slots[slot]].body.health > 0 && !Protected(w.tick, w.people[w.slots[slot]])
          && (at in past ==> past[at].alive)
        case Foe(id) => id < |w.slops| && w.slops[id].Some?)
    && (CanSee(l, SectorOf(w, Man(shooter)), if at in past then past[at].sector else SectorOf(w, at))
        || HeldVisible(w, shooter, at))
  }

  function Shot(l: Level, w: State, shooter: nat, aim: Option<Target>, instant: real): State {
    if aim.None? || !MayBeHit(l, w, shooter, aim.value, Rewound(w.past, instant)) then w
    else
      match aim.value
      case Man(slot) => var id := w.slots[slot]; w.(people := w.people[id := Hurt(w.tick, w.people[id], BARREL_DAMAGE)])
      case Foe(id) =>
        var s := w.slops[id].value;
        if s.health - BARREL_DAMAGE > 0 then w.(slops := w.slops[id := Some(s.(health := s.health - BARREL_DAMAGE))])
        else KillSlop(w, id)
  }

  // ---- One turn ----

  /** One command of one man, before anything is resolved. */
  function Acted(l: Level, w: State, id: string, c: Command<Order>): State
    requires id in w.people
  {
    w.(people := w.people[id := w.people[id].(body := Soldier.Step(l, w.people[id].body, c.intent, c.dt))])
  }

  /** One command of one man, and the shot if the barrel count fell. */
  function Commanded(l: Level, w: State, id: string, c: Command<Order>, instant: real): (r: State)
    requires id in w.people
    ensures id in r.people
  {
    var n := Acted(l, w, id, c);
    if n.people[id].body.loaded < w.people[id].body.loaded then Shot(l, n, w.people[id].slot, c.intent.aim, instant)
        else n
  }

  function CommandedAll(l: Level, w: State, id: string, cmds: seq<Command<Order>>, instant: real): (n: State)
    requires id in w.people
    ensures id in n.people
    decreases |cmds|
  {
    if cmds == [] then w else CommandedAll(l, Commanded(l, w, id, cmds[0], instant), id, cmds[1..], instant)
  }

  datatype Plan = Plan(
    now: real,
    keys: seq<string>,
    rtt: map<string, real>,
    reached: set<string>,
    draws: Stream,
    settles: map<nat, seq<Vec2>>,
    touches: map<nat, string>,
    abandoned: seq<string>)

  /** What is left of the tick after the commands: the idle fill, the clamp to the world's own deadline, and the ampoule
      a man standing on one takes. */
  function Closed(l: Level, tick: nat, p: Person, t: Ticked<Order>, reached: bool): Person {
    var filled := if t.idle > 0.0 then Soldier.Step(l, p.body, STILLNESS, t.idle) else p.body;
    var clamped := filled.(shelter := MinR(filled.shelter, ProtectLeft(tick, p)));
    var healed := if reached && 0 < clamped.health < MAX_HEALTH && clamped.inject <= 0.0
                  then clamped.(inject := SYRINGE_SECONDS) else clamped;
    p.(body := healed, lane := t.lane)
  }

  function InstantOf(plan: Plan, id: string): real {
    RewindInstant(plan.now, if id in plan.rtt then plan.rtt[id] else 0.0)
  }

  function Risen(l: Level, w: State, id: string): State
    requires |l.sectors| > 0 && id in w.people
  {
    w.(people := w.people[id := Rise(l, w.tick, w.people[id])])
  }

  /** The commands a turn runs: what the budget covers, whatever the guard on the idle fill will say. */
  function TurnCommands(w: State, id: string): seq<Command<Order>>
    requires id in w.people
  {
    Tick(w.people[id].lane, false).stepped
  }

  function Turn(l: Level, w: State, id: string, plan: Plan): State
    requires |l.sectors| > 0 && id in w.people
  {
    var n := CommandedAll(l, Risen(l, w, id), id, TurnCommands(w, id), InstantOf(plan, id));
    var q := n.people[id];
    n.(people := n.people[id := Closed(l, w.tick, q, Tick(w.people[id].lane, Ticking(q.body)), id in plan.reached)])
  }

  /** The keys, rotated by the tick so that nobody is always first. */
  function TurnOrder(keys: seq<string>, tick: nat): (order: seq<string>)
    ensures |order| == |keys|
  {
    if keys == [] then [] else
    seq(|keys|, i requires 0 <= i < |keys| => keys[(i + tick % |keys|) % |keys|])
  }

  function Turns(l: Level, w: State, order: seq<string>, plan: Plan): State
    requires |l.sectors| > 0
    decreases |order|
  {
    if order == [] then w
    else Turns(l, if order[0] in w.people then Turn(l, w, order[0], plan) else w, order[1..], plan)
  }

  // ---- The slops ----

  function RandomSpot(u: Stream, i: nat, s: Sector): Vec2 {
    var inset := 2.0 * PLAYER_RADIUS;
    Vec2(s.minX + inset + Part(u(i), MaxR(0.0, s.maxX - s.minX - 2.0 * inset)),
         s.minY + inset + Part(u(i + 1), MaxR(0.0, s.maxY - s.minY - 2.0 * inset)))
  }

  function FreePlace(slops: seq<Option<Slop>>): (i: nat)
    ensures i <= |slops| && (i < |slops| ==> slops[i].None?) && forall j :: 0 <= j < i ==> slops[j].Some?
  {
    if slops == [] || slops[0].None? then 0 else 1 + FreePlace(slops[1..])
  }

  /** Somebody on his feet can see into a room. */
  predicate Overlooked(l: Level, people: map<string, Person>, sector: nat) {
    exists id :: id in people && people[id].body.health > 0 && CanSee(l, people[id].body.sector, sector)
  }

  /** Of the first n rooms, those nobody on his feet can see into. */
  function Hidden(l: Level, people: map<string, Person>, n: nat): (r: seq<nat>)
    ensures forall k :: 0 <= k < |r| ==> r[k] < n
  {
    if n == 0 then []
    else Hidden(l, people, n - 1) + if Overlooked(l, people, n - 1) then [] else [n - 1]
  }

  /** A room to appear in: a hidden one while there is one, and otherwise any. */
  function SpawnSector(l: Level, people: map<string, Person>, u: Stream): (sector: nat)
    requires |l.sectors| > 0
    ensures sector < |l.sectors|
  {
    var hidden := Hidden(l, people, |l.sectors|);
    if hidden == [] then Intn(u, 0, |l.sectors|) else hidden[Intn(u, 0, |hidden|)]
  }

  function Spawned(l: Level, w: State, plan: Plan): State
    requires |l.sectors| > 0
  {
    if w.people == map[] then w
    else
      var free := FreePlace(w.slops);
      if free == |w.slops| then w.(spawnAt := w.tick + SLOP_SPAWN_TICKS)
      else if w.tick < w.spawnAt then w
      else
        var sector := SpawnSector(l, w.people, plan.draws);
        var slop := Slop(w.born, RandomSpot(plan.draws, 1, l.sectors[sector]), sector, SLOP_HEALTH, 0);
        w.(slops := w.slops[free := Some(slop)],
           spawnAt := w.tick + SLOP_SPAWN_TICKS, born := w.born + 1)
  }

  function SettledAt(l: Level, s: Slop, settles: seq<Vec2>): Slop
    decreases |settles|
  {
    if settles == [] then s
    else
      var (pos, sector) := Resolve(l, s.pos, s.sector, settles[0]);
      SettledAt(l, s.(pos := pos, sector := sector), settles[1..])
  }

  function SlopsMoved(l: Level, slops: SlopTable, settles: map<nat, seq<Vec2>>): SlopTable {
    seq(|slops|, i requires 0 <= i < |slops| =>
      if slops[i].Some? && i in settles then Some(SettledAt(l, slops[i].value, settles[i])) else slops[i])
  }

  predicate MayBeTouched(w: State, id: string) {
    id in w.people && w.people[id].body.health > 0 && !Protected(w.tick, w.people[id])
  }

  function Touched(w: State, i: nat, touches: map<nat, string>): State
    requires i < |w.slops|
  {
    if w.slops[i].None? || w.tick < w.slops[i].value.touchAt || i !in touches || !MayBeTouched(w, touches[i]) then w
    else
      w.(slops := w.slops[i := Some(w.slops[i].value.(touchAt := w.tick + SLOP_TOUCH_TICKS))],
         people := w.people[touches[i] := Hurt(w.tick, w.people[touches[i]], SLOP_DAMAGE)])
  }

  function TouchedFrom(w: State, i: nat, touches: map<nat, string>): State
    requires i <= |w.slops|
    decreases |w.slops| - i
  {
    if i == |w.slops| then w else TouchedFrom(Touched(w, i, touches), i + 1, touches)
  }

  // ---- The record, and the whole tick ----

  /** Which numbers are held now, and by whom. */
  function HolderIn(slots: SlotTable, people: map<string, Person>, slops: SlopTable, r: Target): Option<nat> {
    match r
    case Man(slot) => if slot < |slots| && slots[slot] in people then Some(people[slots[slot]].who) else None
    case Foe(id) => if id < |slops| && slops[id].Some? then Some(slops[id].value.who) else None
  }

  function Holder(w: State, r: Target): Option<nat> { HolderIn(w.slots, w.people, w.slops, r) }

  function Numbers(slots: SlotTable, people: map<string, Person>, slops: SlopTable): set<Target> {
    (set slot | 0 <= slot < |slots| && slots[slot] in people :: Man(slot))
    + (set id | 0 <= id < |slops| && slops[id].Some? :: Foe(id))
  }

  function SpotOf(slots: SlotTable, people: map<string, Person>, slops: SlopTable, r: Target): Spot
    requires HolderIn(slots, people, slops, r).Some?
  {
    match r
    case Man(slot) =>
      var p := people[slots[slot]];
      Spot(p.body.pos, p.body.sector, p.body.health > 0, {p.who})
    case Foe(id) => var s := slops[id].value; Spot(s.pos, s.sector, true, {s.who})
  }

  /** Where everybody stands. */
  function Spots(slots: SlotTable, people: map<string, Person>, slops: SlopTable): map<Target, Spot> {
    map r | r in Numbers(slots, people, slops) :: SpotOf(slots, people, slops, r)
  }

  /** Who can see what: everybody held in a slot, and everything that is in his sight. */
  function InSight(l: Level, slots: SlotTable, people: map<string, Person>, slops: SlopTable): set<(nat, Target)> {
    set a, r | 0 <= a < |slots| && slots[a] in people && r in Numbers(slots, people, slops) && r != Man(a)
             && CanSee(l, people[slots[a]].body.sector, SpotOf(slots, people, slops, r).sector) :: (a, r)
  }

  function Glimpsed(l: Level, tick: nat, slots: SlotTable, people: map<string, Person>, slops: SlopTable): map<(nat,
                    Target), Glimpse> {
    map k | k in InSight(l, slots, people, slops) ::
      Glimpse(tick, HolderIn(slots, people, slops, Man(k.0)).value, HolderIn(slots, people, slops, k.1).value)
  }

  /** What everybody can see is remembered, and where everybody stands is recorded. */
  function Recorded(l: Level, w: State, now: real): State {
    w.(glimpses := w.glimpses + Glimpsed(l, w.tick, w.slots, w.people, w.slops),
       past := LastN(w.past + [Rewind.Frame(w.tick, now, Spots(w.slots, w.people, w.slops))], HISTORY_CAPACITY))
  }

  function ReleasedAll(w: State, ids: seq<string>): State
    decreases |ids|
  {
    if ids == [] then w
    else ReleasedAll(Released(w, ids[0]), ids[1..])
  }

  function Advanced(l: Level, w: State, plan: Plan): State
    requires |l.sectors| > 0
  {
    var began := w.(tick := w.tick + 1);
    var played := Turns(l, began, TurnOrder(plan.keys, began.tick), plan);
    var spawned := Spawned(l, played, plan);
    var moved := spawned.(slops := SlopsMoved(l, spawned.slops, plan.settles));
    var touched := TouchedFrom(moved, 0, plan.touches);
    ReleasedAll(Recorded(l, touched, plan.now), plan.abandoned)
  }

  // ---- What reaches a building ----

  datatype Event =
    | Join(id: string)
    | Leave(id: string)
    | Input(id: string, cmds: seq<Sent<Order>>)
    | Advance(plan: Plan)

  /** The keys of a plan are those of the people present: the program sorts them, any listing will do. */
  ghost predicate Fits(w: State, e: Event) {
    match e
    case Join(id) => id != ""
    case Advance(plan) =>
      && (forall id :: id in plan.keys <==> id in w.people)
      && (forall i, j :: 0 <= i < j < |plan.keys| ==> plan.keys[i] != plan.keys[j])
    case _ => true
  }

  function Outcome(l: Level, w: State, e: Event): State
    requires |l.sectors| > 0
  {
    match e
    case Join(id) => Joined(l, w, id)
    case Leave(id) => Released(w, id)
    case Input(id, cmds) => Enqueued(w, id, cmds)
    case Advance(plan) => Advanced(l, w, plan)
  }

  /** The slot table and the people agree, in both directions. */
  predicate Tables(w: State) {
    && "" !in w.people
    && (forall slot :: 0 <= slot < |w.slots| && w.slots[slot] != "" ==>
          w.slots[slot] in w.people && w.people[w.slots[slot]].slot == slot)
    && (forall id :: id in w.people ==> w.slots[w.people[id].slot] == id)
  }
}
