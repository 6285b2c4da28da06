/** One office shift: the fixed step of a player, and what a whole shift can earn. */
module Shift {
  import opened Wrappers
  import opened Plane
  import opened Floor
  import opened OnePass
  import opened CommandLane
  import opened LaneRuns

  const WALK_SPEED: real := 6.4
  const DASH_SPEED: real := 20.0
  const DASH_SECONDS: real := 0.26
  const DASH_COOLDOWN: real := 2.2
  const IDLE_THRESHOLD: real := 0.05
  const SLOW_FACTOR: real := 0.8
  const GRACE_SECONDS: real := 0.18
  const BASE_PER_SECOND: real := 120.0
  const RAMP_SECONDS: real := 3.5
  const MAX_MULTIPLIER: real := 3.0

  /** The sanitised stick of one command; `mag` is its length. */
  datatype Stick = Stick(mx: real, my: real, mag: real, dash: bool)

  const STILL: Stick := Stick(0.0, 0.0, 0.0, false)

  datatype Player = Player(
    pos: Vec2,
    salary: real,
    streak: real,
    moveGrace: real,
    dashLeft: real,
    dashCooldown: real,
    dashDX: real,
    dashDY: real,
    slowLeft: real)

  function Multiplier(streak: real): real {
    1.0 + (MAX_MULTIPLIER - 1.0) * MinR(streak / RAMP_SECONDS, 1.0)
  }

  predicate StartsDash(p: Player, s: Stick) { s.dash && p.dashCooldown <= 0.0 && p.dashLeft <= 0.0 }

  /** The first operation: a granted dash commits to a direction. */
  function DashStarted(p: Player, s: Stick): Player {
    if !StartsDash(p, s) then p
    else
      var q := p.(dashLeft := DASH_SECONDS, dashCooldown := DASH_COOLDOWN);
      if s.mag > 0.0 then q.(dashDX := s.mx / s.mag, dashDY := s.my / s.mag) else q.(dashDX := 0.0, dashDY := 0.0)
  }

  /** The displacement a step asks for, the dash committed and the walk slowed. */
  function Heading(p: Player, s: Stick, dashing: bool, dt: real): Vec2 {
    if dashing then Vec2(p.dashDX * DASH_SPEED * dt, p.dashDY * DASH_SPEED * dt)
    else
      var speed := if p.slowLeft > 0.0 then WALK_SPEED * SLOW_FACTOR else WALK_SPEED;
      Vec2(s.mx * speed * dt, s.my * speed * dt)
  }

  /** The streak and its grace window. */
  function Ramped(p: Player, moving: bool, dashing: bool, dt: real): Player {
    if dashing then p
    else if moving then
      if p.moveGrace + dt > GRACE_SECONDS then p.(streak := 0.0, moveGrace := GRACE_SECONDS)
      else p.(moveGrace := p.moveGrace + dt)
    else p.(moveGrace := 0.0, streak := p.streak + dt)
  }

  function Paid(p: Player, moving: bool, dashing: bool, dt: real): Player {
    if !moving && !dashing then p.(salary := p.salary + Pay(p.streak, dt)) else p
  }

  function Pay(streak: real, dt: real): real { BASE_PER_SECOND * Multiplier(streak) * dt }

  function Step(rects: seq<Rect>, p: Player, s: Stick, dt: real): Player {
    var q := DashStarted(p, s);
    var dashing := q.dashLeft > 0.0;
    var t := q.(dashLeft := MaxR(0.0, q.dashLeft - dt), dashCooldown := MaxR(0.0, q.dashCooldown - dt),
                slowLeft := MaxR(0.0, q.slowLeft - dt));
    var go := Heading(t, s, dashing, dt);
    var moved := t.(pos := Sweep(rects, ClampToFloor(Vec2(t.pos.x + go.x, t.pos.y + go.y), PLAYER_RADIUS),
        PLAYER_RADIUS));
    var moving := s.mag > IDLE_THRESHOLD;
    Paid(Ramped(moved, moving, dashing, dt), moving, dashing, dt)
  }

  /** The step as the program runs it, field by field in its documented order. */
  method RunStep(rects: seq<Rect>, before: Player, s: Stick, dt: real) returns (p: Player)
    ensures p == Step(rects, before, s, dt)
  {
    hide Multiplier, Sweep;
    p := before;
    if s.dash && p.dashCooldown <= 0.0 && p.dashLeft <= 0.0 {
      p := p.(dashLeft := DASH_SECONDS, dashCooldown := DASH_COOLDOWN);
      if s.mag > 0.0 {
        p := p.(dashDX := s.mx / s.mag, dashDY := s.my / s.mag);
      } else {
        p := p.(dashDX := 0.0, dashDY := 0.0);
      }
    }
    assert p == DashStarted(before, s);
    var dashing := p.dashLeft > 0.0;
    p := p.(dashLeft := MaxR(0.0, p.dashLeft - dt), dashCooldown := MaxR(0.0, p.dashCooldown - dt),
            slowLeft := MaxR(0.0, p.slowLeft - dt));
    var go := Heading(p, s, dashing, dt);
    var at := ClampToFloor(Vec2(p.pos.x + go.x, p.pos.y + go.y), PLAYER_RADIUS);
    at := SweepOnce(rects, at, PLAYER_RADIUS);
    p := p.(pos := at);
    var moving := s.mag > IDLE_THRESHOLD;
    p := Ramped(p, moving, dashing, dt);
    p := Paid(p, moving, dashing, dt);
  }

  // ---- One step ----

  lemma MultiplierInRange(streak: real)
    requires streak >= 0.0
    ensures 1.0 <= Multiplier(streak) <= MAX_MULTIPLIER
    ensures streak >= RAMP_SECONDS ==> Multiplier(streak) == MAX_MULTIPLIER
    ensures forall longer :: longer >= streak ==> Multiplier(longer) >= Multiplier(streak)
  {
    assert streak / RAMP_SECONDS >= 0.0;
    forall longer | longer >= streak ensures Multiplier(longer) >= Multiplier(streak) {
      assert longer / RAMP_SECONDS >= streak / RAMP_SECONDS;
    }
  }

  lemma ProductNonNegative(a: real, b: real)
    requires a >= 0.0 && b >= 0.0
    ensures a * b >= 0.0
  {}

  lemma PayInRange(streak: real, dt: real)
    requires streak >= 0.0 && dt >= 0.0
    ensures 0.0 <= Pay(streak, dt) <= BASE_PER_SECOND * MAX_MULTIPLIER * dt
  {
    MultiplierInRange(streak);
    var m := Multiplier(streak);
    ProductNonNegative(MAX_MULTIPLIER - m, dt);
    ProductNonNegative(m, dt);
    hide Multiplier;
    assert Pay(streak, dt) == BASE_PER_SECOND * (m * dt);
    assert BASE_PER_SECOND * MAX_MULTIPLIER * dt
           == BASE_PER_SECOND * (m * dt) + BASE_PER_SECOND * ((MAX_MULTIPLIER - m) * dt);
  }

  /** What every step keeps of the money, and its price ceiling. */
  lemma StepEarns(rects: seq<Rect>, p: Player, s: Stick, dt: real)
    requires p.streak >= 0.0 && dt >= 0.0
    ensures var q := Step(rects, p, s, dt);
            q.streak >= 0.0 && p.salary <= q.salary <= p.salary + BASE_PER_SECOND * MAX_MULTIPLIER * dt
  {
    hide Sweep, ClampToFloor, Heading, Pay;
    PayInRange(p.streak + dt, dt);
    PayInRange(0.0, dt);
    PayInRange(p.streak, dt);
  }

  /** The asymmetry the game is played on: a step inside a dash earns nothing and costs none of the ramp, and a walk
      costs the ramp exactly when the grace is spent. */
  lemma DashKeepsTheRamp(rects: seq<Rect>, p: Player, s: Stick, dt: real)
    requires dt >= 0.0
    ensures var q := Step(rects, p, s, dt);
            var dashing := StartsDash(p, s) || p.dashLeft > 0.0;
            && (dashing ==> q.salary == p.salary && q.streak == p.streak && q.moveGrace == p.moveGrace)
            && (!dashing && s.mag > IDLE_THRESHOLD ==>
                  q.salary == p.salary && q.streak == (if p.moveGrace + dt > GRACE_SECONDS then 0.0 else p.streak))
            && (!dashing && s.mag <= IDLE_THRESHOLD ==>
                  q.streak == p.streak + dt && q.moveGrace == 0.0 && q.salary == p.salary + Pay(p.streak + dt, dt))
  {
    hide Sweep, ClampToFloor, Heading, Pay;
  }

  /** On a spaced floor every step, from anywhere and in any direction, ends inside the room and inside no furniture. */
  lemma StepStaysClear(rects: seq<Rect>, p: Player, s: Stick, dt: real)
    requires Spaced(rects, 2.0 * PLAYER_RADIUS)
    ensures var q := Step(rects, p, s, dt); OnFloor(q.pos, PLAYER_RADIUS) && Clear(rects, q.pos, PLAYER_RADIUS)
  {
    hide Sweep, ClampToFloor, Heading, Pay, Spaced;
    var t := DashStarted(p, s);
    var u := t.(dashLeft := MaxR(0.0, t.dashLeft - dt), dashCooldown := MaxR(0.0, t.dashCooldown - dt),
                slowLeft := MaxR(0.0, t.slowLeft - dt));
    var go := Heading(u, s, t.dashLeft > 0.0, dt);
    OnePassSuffices(rects, Vec2(u.pos.x + go.x, u.pos.y + go.y), PLAYER_RADIUS);
  }

  // ---- A whole shift ----

  function StepAll(rects: seq<Rect>, p: Player, cmds: seq<Command<Stick>>): Player
    decreases |cmds|
  {
    if cmds == [] then p else StepAll(rects, Step(rects, p, cmds[0].intent, cmds[0].dt), cmds[1..])
  }

  /** A shift: the lane, and the player it steps. */
  datatype Work = Work(lane: History<Stick>, player: Player)

  function Hired(at: Vec2): Work { Work(Born(), Player(at, 0.0, 0.0, 0.0, 0.0, 0.0, 0.0, 0.0, 0.0)) }

  /** A frame only queues; a tick steps what it affords, or stillness when nothing was sent. */
  function WorkOn(rects: seq<Rect>, w: Work, e: Happens<Stick>): Work {
    match e
    case Frame(_) => w.(lane := Next(w.lane, e))
    case TickOf(_) =>
      var t := Tick(w.lane.lane, true);
      var p := StepAll(rects, w.player, t.stepped);
      Work(Next(w.lane, TickOf(true)), if t.idle > 0.0 then Step(rects, p, STILL, t.idle) else p)
  }

  function Worked(rects: seq<Rect>, w: Work, es: seq<Happens<Stick>>): Work
    decreases |es|
  {
    if es == [] then w else Worked(rects, WorkOn(rects, w, es[0]), es[1..])
  }

  predicate Dashing(p: Player, s: Stick) { StartsDash(p, s) || p.dashLeft > 0.0 }

  /** Every command of it finds him dashing or standing still. */
  predicate NeverWalks(rects: seq<Rect>, p: Player, cmds: seq<Command<Stick>>)
    decreases |cmds|
  {
    cmds == [] ||
    ((Dashing(p, cmds[0].intent) || cmds[0].intent.mag <= IDLE_THRESHOLD)
     && NeverWalks(rects, Step(rects, p, cmds[0].intent, cmds[0].dt), cmds[1..]))
  }

  /** The time of it he stood still. */
  function StillTime(rects: seq<Rect>, p: Player, cmds: seq<Command<Stick>>): real
    decreases |cmds|
  {
    if cmds == [] then 0.0
    else (if Dashing(p, cmds[0].intent) then 0.0 else cmds[0].dt)
         + StillTime(rects, Step(rects, p, cmds[0].intent, cmds[0].dt), cmds[1..])
  }

  /** The asymmetry the game is played on, over any run of commands: dashing between two stillnesses costs none of the
      ramp, which is the time stood still since it began, and once that fills the ramp the pay is at its top. */
  lemma {:induction false} DashingCostsNoRamp(rects: seq<Rect>, p: Player, cmds: seq<Command<Stick>>)
    requires NeverWalks(rects, p, cmds) && forall i :: 0 <= i < |cmds| ==> cmds[i].dt >= 0.0
    ensures var q := StepAll(rects, p, cmds);
            && q.streak == p.streak + StillTime(rects, p, cmds)
            && (p.streak >= 0.0 && StillTime(rects, p, cmds) >= RAMP_SECONDS ==> Multiplier(q.streak) == MAX_MULTIPLIER)
    decreases |cmds|
  {
    hide Step, Multiplier;
    if cmds != [] {
      DashKeepsTheRamp(rects, p, cmds[0].intent, cmds[0].dt);
      DashingCostsNoRamp(rects, Step(rects, p, cmds[0].intent, cmds[0].dt), cmds[1..]);
    }
    if p.streak >= 0.0 && StillTime(rects, p, cmds) >= RAMP_SECONDS {
      MultiplierInRange(StepAll(rects, p, cmds).streak);
    }
  }

  lemma {:induction false} StepAllEarns(rects: seq<Rect>, p: Player, cmds: seq<Command<Stick>>)
    requires p.streak >= 0.0 && forall i :: 0 <= i < |cmds| ==> cmds[i].dt >= 0.0
    ensures var q := StepAll(rects, p, cmds);
            q.streak >= 0.0 && p.salary <= q.salary <= p.salary + BASE_PER_SECOND * MAX_MULTIPLIER * TotalDt(cmds)
    decreases |cmds|
  {
    hide Step;
    if cmds != [] {
      StepEarns(rects, p, cmds[0].intent, cmds[0].dt);
      StepAllEarns(rects, Step(rects, p, cmds[0].intent, cmds[0].dt), cmds[1..]);
    }
  }

  /** The pay is bounded by the time stepped, and that by the ticks the office has run. */
  ghost predicate FairlyPaid(w: Work) {
    && Kept(w.lane) && w.player.streak >= 0.0
    && 0.0 <= w.player.salary <= BASE_PER_SECOND * MAX_MULTIPLIER * w.lane.time
  }

  lemma WorkKeepsFair(rects: seq<Rect>, w: Work, e: Happens<Stick>)
    requires FairlyPaid(w)
    ensures FairlyPaid(WorkOn(rects, w, e))
  {
    hide Step, Kept;
    match e
    case Frame(cmds) => FrameKeeps(w.lane, cmds);
    case TickOf(_) =>
      TickKeeps(w.lane, true);
      var t := Tick(w.lane.lane, true);
      KeptQueue(w.lane);
      TickPays(w.lane.lane, true);
      StepAllEarns(rects, w.player, t.stepped);
      var p := StepAll(rects, w.player, t.stepped);
      if t.idle > 0.0 { StepEarns(rects, p, STILL, t.idle); }
  }

  lemma KeptQueue(h: History<Stick>)
    requires Kept(h)
    ensures QueueOk(h.lane)
  {}

  lemma {:induction false} EveryShiftIsFair(rects: seq<Rect>, w: Work, es: seq<Happens<Stick>>)
    requires FairlyPaid(w)
    ensures FairlyPaid(Worked(rects, w, es))
    decreases |es|
  {
    hide FairlyPaid, WorkOn;
    if es != [] {
      WorkKeepsFair(rects, w, es[0]);
      EveryShiftIsFair(rects, WorkOn(rects, w, es[0]), es[1..]);
    }
  }

  /** No client, whatever it sends, earns faster than the top rate on the office's own clock. */
  lemma SalaryIsBounded(rects: seq<Rect>, at: Vec2, es: seq<Happens<Stick>>)
    ensures var w := Worked(rects, Hired(at), es);
            0.0 <= w.player.salary <= BASE_PER_SECOND * MAX_MULTIPLIER * (w.lane.ticks as real * SIM_STEP)
    ensures Worked(rects, Hired(at), es).lane.ticks == TicksIn(es)
  {
    hide WorkOn;
    BornKept<Stick>();
    EveryShiftIsFair(rects, Hired(at), es);
    TicksCounted(rects, Hired(at), es);
  }

  lemma {:induction false} TicksCounted(rects: seq<Rect>, w: Work, es: seq<Happens<Stick>>)
    ensures Worked(rects, w, es).lane.ticks == w.lane.ticks + TicksIn(es)
    decreases |es|
  {
    hide Step, StepAll;
    if es != [] { TicksCounted(rects, WorkOn(rects, w, es[0]), es[1..]); }
  }

  /** Over a whole shift on a legal floor the player is never inside the furniture or out of the room. */
  lemma {:induction false} ShiftStaysClear(rects: seq<Rect>, w: Work, es: seq<Happens<Stick>>)
    requires Spaced(rects, 2.0 * PLAYER_RADIUS)
    requires OnFloor(w.player.pos, PLAYER_RADIUS) && Clear(rects, w.player.pos, PLAYER_RADIUS)
    ensures var p := Worked(rects, w, es).player;
            OnFloor(p.pos, PLAYER_RADIUS) && Clear(rects, p.pos, PLAYER_RADIUS)
    decreases |es|
  {
    hide Step, Spaced;
    if es != [] {
      if es[0].TickOf? {
        var t := Tick(w.lane.lane, true);
        StepAllStaysClear(rects, w.player, t.stepped);
        StepStaysClear(rects, StepAll(rects, w.player, t.stepped), STILL, t.idle);
      }
      ShiftStaysClear(rects, WorkOn(rects, w, es[0]), es[1..]);
    }
  }

  lemma {:induction false} StepAllStaysClear(rects: seq<Rect>, p: Player, cmds: seq<Command<Stick>>)
    requires Spaced(rects, 2.0 * PLAYER_RADIUS)
    requires OnFloor(p.pos, PLAYER_RADIUS) && Clear(rects, p.pos, PLAYER_RADIUS)
    ensures var q := StepAll(rects, p, cmds); OnFloor(q.pos, PLAYER_RADIUS) && Clear(rects, q.pos, PLAYER_RADIUS)
    decreases |cmds|
  {
    hide Step, Spaced;
    if cmds != [] {
      StepStaysClear(rects, p, cmds[0].intent, cmds[0].dt);
      StepAllStaysClear(rects, Step(rects, p, cmds[0].intent, cmds[0].dt), cmds[1..]);
    }
  }
}
