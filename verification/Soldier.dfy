/** One player of the shared building, one command, one fixed step: the gun, the ampoule, and where he may stand.

    Trigonometry and the wall slide are inputs: an order carries the point the walls let the walk settle at. */
module Soldier {
  import opened Wrappers
  import opened Plane
  import opened Levels
  import opened CommandLane

  const MAX_HEALTH: int := 100
  const START_HEALTH: int := 100
  const BARRELS: int := 2
  const FIRE_COOLDOWN: real := 0.35
  const RELOAD_SECONDS: real := 1.5
  const SPAWN_PROTECT: real := 2.0
  const SYRINGE_HEAL: int := 50
  const SYRINGE_SECONDS: real := 2.5

  /** Whom a ray can land on: the holder of a slot, or a slop. */
  datatype Target = Man(slot: nat) | Foe(id: nat)

  /** A sanitised command: the trigger, where the walk would settle if the stick is off centre, and what stands first
      on the ray. */
  datatype Order = Order(fire: bool, walk: Option<Vec2>, aim: Option<Target>)

  const STILLNESS: Order := Order(false, None, None)

  datatype Fighter = Fighter(
    pos: Vec2,
    sector: nat,
    health: int,
    loaded: int,
    cooldown: real,
    reload: real,
    shelter: real,
    inject: real)

  function NewFighter(spawn: Vec2): Fighter { Fighter(spawn, 0, START_HEALTH, BARRELS, 0.0, 0.0, 0.0, 0.0) }

  predicate Ticking(p: Fighter) { p.cooldown > 0.0 || p.reload > 0.0 || p.shelter > 0.0 || p.inject > 0.0 }

  function CountDown(left: real, dt: real): real { MaxR(0.0, left - dt) }

  /** How much of an ampoule has gone in when this many seconds of it are left, rounded half up. */
  function Delivered(left: real): int {
    (SYRINGE_HEAL as real * (SYRINGE_SECONDS - left) / SYRINGE_SECONDS + 0.5).Floor
  }

  function StepInject(p: Fighter, dt: real): Fighter {
    if p.inject <= 0.0 then p
    else
      var left := CountDown(p.inject, dt);
      var gain := Delivered(left) - Delivered(p.inject);
      var q := p.(inject := left);
      if gain > 0 then q.(health := if p.health + gain < MAX_HEALTH then p.health + gain else MAX_HEALTH) else q
  }

  /** The timers first, and then the trigger. */
  function GunTimers(p: Fighter, dt: real): Fighter {
    var reload := if p.reload > 0.0 then CountDown(p.reload, dt) else p.reload;
    p.(reload := reload, loaded := if p.reload > 0.0 && reload == 0.0 then BARRELS else p.loaded,
       cooldown := CountDown(p.cooldown, dt))
  }

  function StepGun(p: Fighter, fire: bool, dt: real): Fighter {
    var q := GunTimers(p, dt);
    if !fire || Ticking(q) then q
    else if q.loaded > 0 then q.(loaded := q.loaded - 1, cooldown := FIRE_COOLDOWN)
    else q.(reload := RELOAD_SECONDS)
  }

  /** The two ways a settled move is refused: it left the building, or the floor there is too far up or down. */
  function Resolve(l: Level, pos: Vec2, sector: nat, settled: Vec2): (Vec2, nat) {
    match SectorAt(l.sectors, settled)
    case None => (pos, sector)
    case Some(id) =>
      if sector < |l.sectors| && id < |l.sectors|
          && AbsR(l.sectors[id].floorZ - l.sectors[sector].floorZ) > MAX_STEP + EPS
      then (pos, sector) else (settled, id)
  }

  function Walk(l: Level, p: Fighter, walk: Option<Vec2>): Fighter {
    if p.inject > 0.0 || walk.None? then p
    else
      var (pos, sector) := Resolve(l, p.pos, p.sector, walk.value);
      p.(pos := pos, sector := sector)
  }

  function Step(l: Level, p: Fighter, o: Order, dt: real): Fighter {
    if p.health <= 0 then p
    else Walk(l, StepGun(StepInject(p.(shelter := CountDown(p.shelter, dt)), dt), o.fire, dt), o.walk)
  }

  // ---- What a fighter is ----

  /** He stands inside the room recorded for him. */
  predicate Stands(l: Level, pos: Vec2, sector: nat) { sector < |l.sectors| && Contains(l.sectors[sector], pos) }

  predicate TimersOk(p: Fighter) {
    && 0.0 <= p.cooldown <= FIRE_COOLDOWN && 0.0 <= p.reload <= RELOAD_SECONDS
    && 0.0 <= p.shelter <= SPAWN_PROTECT && 0.0 <= p.inject <= SYRINGE_SECONDS
  }

  /** Health in range, the gun busy for one reason at a time and loading only when empty, and a man on the floor with
      nothing running. */
  predicate Sound(p: Fighter) {
    && TimersOk(p) && 0 <= p.health <= MAX_HEALTH && 0 <= p.loaded <= BARRELS
    && !(p.cooldown > 0.0 && p.reload > 0.0) && (p.reload > 0.0 ==> p.loaded == 0)
    && (p.health == 0 ==> !Ticking(p))
  }

  lemma DeliveredRises(more: real, less: real)
    requires 0.0 <= less <= more <= SYRINGE_SECONDS
    ensures 0 <= Delivered(more) <= Delivered(less) <= SYRINGE_HEAL
    ensures Delivered(SYRINGE_SECONDS) == 0 && Delivered(0.0) == SYRINGE_HEAL
  {}

  lemma StepKeepsSound(l: Level, p: Fighter, o: Order, dt: real)
    requires Sound(p) && dt >= 0.0
    ensures Sound(Step(l, p, o, dt))
    ensures p.health > 0 ==> Step(l, p, o, dt).health >= p.health
    ensures p.health == 0 ==> Step(l, p, o, dt) == p
  {
    hide Delivered, Resolve;
    if p.inject > 0.0 { DeliveredRises(p.inject, CountDown(p.inject, dt)); }
  }

  /** Wherever the walls settle a walk, he ends up inside the room he is recorded in. */
  lemma ResolveStands(l: Level, pos: Vec2, sector: nat, settled: Vec2)
    requires WellBuilt(l) && Stands(l, pos, sector)
    ensures var (q, s) := Resolve(l, pos, sector, settled); Stands(l, q, s)
    ensures var (q, s) := Resolve(l, pos, sector, settled);
            (q, s) == (pos, sector) || (q == settled
                && AbsR(l.sectors[s].floorZ - l.sectors[sector].floorZ) <= MAX_STEP + EPS)
  {
    hide Sized, IsTree, Overlap, Contains;
  }

  lemma StepStands(l: Level, p: Fighter, o: Order, dt: real)
    requires WellBuilt(l) && Stands(l, p.pos, p.sector)
    ensures var q := Step(l, p, o, dt); Stands(l, q.pos, q.sector)
  {
    hide Resolve, Stands, StepInject, StepGun, WellBuilt;
    GunStays(StepInject(p.(shelter := CountDown(p.shelter, dt)), dt), o.fire, dt);
    InjectStays(p.(shelter := CountDown(p.shelter, dt)), dt);
    if o.walk.Some? { ResolveStands(l, p.pos, p.sector, o.walk.value); }
  }

  lemma GunStays(p: Fighter, fire: bool, dt: real)
    ensures var q := StepGun(p, fire, dt);
            q.pos == p.pos && q.sector == p.sector && q.health == p.health && q.inject == p.inject
  {}

  lemma InjectStays(p: Fighter, dt: real)
    ensures var q := StepInject(p, dt); q == p.(inject := q.inject, health := q.health)
  {}

  // ---- What the world sees of a shot ----

  /** The trigger is granted: this step spends a barrel. */
  predicate Granted(p: Fighter, o: Order, dt: real) {
    var q := GunTimers(StepInject(p.(shelter := CountDown(p.shelter, dt)), dt), dt);
    p.health > 0 && o.fire && !Ticking(q) && q.loaded > 0
  }

  /** The world takes a falling count for the shot. */
  predicate CountFalls(l: Level, p: Fighter, o: Order, dt: real) { Step(l, p, o, dt).loaded < p.loaded }

  /** Granted is what its name says: one barrel fewer than the timers left, and the cooldown started from its top. */
  lemma GrantedSpendsABarrel(l: Level, p: Fighter, o: Order, dt: real)
    requires Sound(p) && p.health > 0 && dt >= 0.0
    ensures var q := Step(l, p, o, dt);
            Granted(p, o, dt) <==> q.cooldown == FIRE_COOLDOWN && (p.cooldown < FIRE_COOLDOWN || dt > 0.0)
    ensures Granted(p, o, dt) ==> Step(l, p, o, dt).loaded == GunTimers(p, dt).loaded - 1
  {
    hide Delivered, Resolve;
  }

  /** A granted shot is seen by the world, and so can hit anybody, exactly unless a reload runs out on that very step:
      then the count goes from none to one, and no ray is ever cast for the barrel that was spent. */
  lemma AShotIsSeenUnlessTheReloadEnds(l: Level, p: Fighter, o: Order, dt: real)
    requires Sound(p) && dt >= 0.0
    ensures CountFalls(l, p, o, dt) <==> Granted(p, o, dt) && !(0.0 < p.reload <= dt)
  {
    hide Delivered, Resolve;
  }

  /** The missing shot, as it happens: a twentieth of a second of reload left, and the trigger held. */
  lemma TheFirstShotAfterAReloadIsLost(l: Level, at: Vec2)
    ensures var p := Fighter(at, 0, 100, 0, 0.0, 0.05, 0.0, 0.0);
            var o := Order(true, None, None);
            Sound(p) && Granted(p, o, 0.05) && Step(l, p, o, 0.05).loaded == 1 && !CountFalls(l, p, o, 0.05)
  {
    var p := Fighter(at, 0, 100, 0, 0.0, 0.05, 0.0, 0.0);
    assert GunTimers(p, 0.05).loaded == BARRELS;
  }

  // ---- Runs of steps ----

  function StepAll(l: Level, p: Fighter, cmds: seq<Command<Order>>): Fighter
    decreases |cmds|
  {
    if cmds == [] then p else StepAll(l, Step(l, p, cmds[0].intent, cmds[0].dt), cmds[1..])
  }

  /** How many barrels a run spends. */
  function Shots(l: Level, p: Fighter, cmds: seq<Command<Order>>): nat
    decreases |cmds|
  {
    if cmds == [] then 0
    else
      var q := Step(l, p, cmds[0].intent, cmds[0].dt);
      (if Granted(p, cmds[0].intent, cmds[0].dt) then 1 else 0) + Shots(l, q, cmds[1..])
  }

  predicate Forward(cmds: seq<Command<Order>>) { forall i :: 0 <= i < |cmds| ==> cmds[i].dt >= 0.0 }

  /** What a shot costs in the long run: its own cooldown and its share of a reload. */
  const SHOT_SECONDS: real := FIRE_COOLDOWN + RELOAD_SECONDS / BARRELS as real

  /** How much of the gun's own time has been spent ahead: three quarters of a second a barrel, half a reload each. */
  function Owed(p: Fighter): real {
    if p.reload > 0.0 then p.reload else (BARRELS - p.loaded) as real * (RELOAD_SECONDS / BARRELS as real) + p.cooldown
  }

  lemma StepOwes(l: Level, p: Fighter, o: Order, dt: real)
    requires Sound(p) && dt >= 0.0
    ensures var q := Step(l, p, o, dt);
            var shot := if Granted(p, o, dt) then SHOT_SECONDS else 0.0;
            Owed(q) >= Owed(p) - dt + shot
    ensures 0.0 <= Owed(p) <= RELOAD_SECONDS + FIRE_COOLDOWN
  {
    hide Delivered, Resolve;
  }

  lemma {:induction false} StepAllKeepsSound(l: Level, p: Fighter, cmds: seq<Command<Order>>)
    requires Sound(p) && Forward(cmds)
    ensures Sound(StepAll(l, p, cmds))
    decreases |cmds|
  {
    hide Step, Sound;
    if cmds != [] {
      StepKeepsSound(l, p, cmds[0].intent, cmds[0].dt);
      StepAllKeepsSound(l, Step(l, p, cmds[0].intent, cmds[0].dt), cmds[1..]);
    }
  }

  lemma {:induction false} ShotsAreOwed(l: Level, p: Fighter, cmds: seq<Command<Order>>)
    requires Sound(p) && Forward(cmds)
    ensures Shots(l, p, cmds) as real * SHOT_SECONDS
         <= TotalDt(cmds) + Owed(StepAll(l, p, cmds)) - Owed(p)
    decreases |cmds|
  {
    hide Step, Owed, Granted;
    if cmds != [] {
      var c := cmds[0];
      StepKeepsSound(l, p, c.intent, c.dt);
      StepOwes(l, p, c.intent, c.dt);
      ShotsAreOwed(l, Step(l, p, c.intent, c.dt), cmds[1..]);
    }
  }

  /** The rate of fire, whatever the commands: n shots need 1.1 n seconds of stepped time, less the head start of a
      full gun. */
  lemma RateOfFire(l: Level, p: Fighter, cmds: seq<Command<Order>>)
    requires Sound(p) && Forward(cmds)
    ensures SHOT_SECONDS == 1.1
            && Shots(l, p, cmds) as real * SHOT_SECONDS <= TotalDt(cmds) + RELOAD_SECONDS + FIRE_COOLDOWN
  {
    hide Step, Owed, Sound, Granted;
    ShotsAreOwed(l, p, cmds);
    StepAllKeepsSound(l, p, cmds);
    StepOwes(l, StepAll(l, p, cmds), STILLNESS, 0.0);
    StepOwes(l, p, STILLNESS, 0.0);
  }
}
