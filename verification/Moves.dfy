/** Where a step takes a player: exactly where he asked when nothing is in the way, never far from where he stood, and
    what it earns him. */
module Moves {
  import opened Wrappers
  import opened Plane
  import opened Floor
  import opened OnePass
  import opened CommandLane
  import opened LaneRuns
  import opened Shift

  // ---- The clamp ----

  /** A point of the floor is left alone, and any other goes, on each axis, to the nearest coordinate of the floor. */
  lemma TheClampIsNearest(p: Vec2, r: real)
    requires 2.0 * r <= OFFICE_W && 2.0 * r <= OFFICE_H
    ensures var q := ClampToFloor(p, r);
            && r <= q.x <= OFFICE_W - r && r <= q.y <= OFFICE_H - r
            && (r <= p.x <= OFFICE_W - r && r <= p.y <= OFFICE_H - r ==> q == p)
            && forall f: Vec2 :: r <= f.x <= OFFICE_W - r && r <= f.y <= OFFICE_H - r ==>
                 AbsR(q.x - p.x) <= AbsR(f.x - p.x) && AbsR(q.y - p.y) <= AbsR(f.y - p.y)
  {}

  /** Clamping brings nobody further from a point of the floor. */
  lemma ClampIsNoFurther(from: Vec2, asked: Vec2, r: real)
    requires OnFloor(from, r)
    ensures Squared(ClampToFloor(asked, r), from) <= Squared(asked, from)
  {
    var c := ClampToFloor(asked, r);
    assert AbsR(c.x - from.x) <= AbsR(asked.x - from.x) && AbsR(c.y - from.y) <= AbsR(asked.y - from.y);
    AbsSquare(c.x - from.x);
    AbsSquare(asked.x - from.x);
    AbsSquare(c.y - from.y);
    AbsSquare(asked.y - from.y);
    SquareGrows(AbsR(c.x - from.x), AbsR(asked.x - from.x));
    SquareGrows(AbsR(c.y - from.y), AbsR(asked.y - from.y));
  }

  lemma AbsSquare(a: real)
    ensures AbsR(a) * AbsR(a) == a * a && AbsR(a) >= 0.0
  {}

  /** Nothing is in the way of a body here. */
  predicate Free(rects: seq<Rect>, p: Vec2, r: real) { OnFloor(p, r) && Clear(rects, p, r) }

  /** Clamp and sweep: a free point is where it ends, and from a free point it ends within twice the way asked for. */
  lemma SettlesNear(rects: seq<Rect>, from: Vec2, asked: Vec2, r: real)
    requires 0.0 < r <= OFFICE_W / 2.0 && Spaced(rects, 2.0 * r)
    ensures var q := Sweep(rects, ClampToFloor(asked, r), r);
            && (Free(rects, asked, r) ==> q == asked)
            && (Free(rects, from, r) ==> Squared(q, from) <= 4.0 * Squared(asked, from))
  {
    hide Squared, PushOut, SepAxis, WallGap;
    var c := ClampToFloor(asked, r);
    if OnFloor(asked, r) { assert c == asked; }
    if k :| 0 <= k < |rects| && Overlaps(rects[k], c, r) {
      SweepIsOnePush(rects, c, r, k);
      if Free(rects, from, r) {
        ClampIsNoFurther(from, asked, r);
        PushIsShortest(rects[k], c, r, from);
        TwoLegs(from, c, PushOut(rects[k], c, r), Squared(asked, from));
      }
    } else {
      ClearStays(rects, c, r);
      if Free(rects, from, r) {
        ClampIsNoFurther(from, asked, r);
        NonNegativeSquare(asked, from);
      }
    }
  }

  lemma NonNegativeSquare(p: Vec2, q: Vec2)
    ensures Squared(p, q) >= 0.0
  {
    AbsSquare(p.x - q.x);
    AbsSquare(p.y - q.y);
    ProductNonNegative(AbsR(p.x - q.x), AbsR(p.x - q.x));
    ProductNonNegative(AbsR(p.y - q.y), AbsR(p.y - q.y));
  }

  function Sq(a: real): real { a * a }

  lemma Spread(a: real, b: real)
    ensures Sq(a + b) <= 2.0 * Sq(a) + 2.0 * Sq(b)
  {
    var d := a - b;
    AbsSquare(d);
    ProductNonNegative(AbsR(d), AbsR(d));
    assert d * d == a * a - 2.0 * (a * b) + b * b && (a + b) * (a + b) == a * a + 2.0 * (a * b) + b * b;
  }

  lemma SquaredIs(p: Vec2, q: Vec2)
    ensures Squared(p, q) == Sq(p.x - q.x) + Sq(p.y - q.y) && Squared(p, q) == Squared(q, p)
  {
    AbsSquare(p.x - q.x);
    AbsSquare(p.y - q.y);
    AbsSquare(q.x - p.x);
    AbsSquare(q.y - p.y);
  }

  /** Two legs each within a length end within twice that length. */
  lemma TwoLegs(from: Vec2, c: Vec2, q: Vec2, square: real)
    requires Squared(c, from) <= square && Squared(c, q) <= square
    ensures Squared(q, from) <= 4.0 * square
  {
    hide Squared, Sq;
    SquaredIs(c, from);
    SquaredIs(q, c);
    SquaredIs(q, from);
    Spread(c.x - from.x, q.x - c.x);
    Spread(c.y - from.y, q.y - c.y);
    assert q.x - from.x == (c.x - from.x) + (q.x - c.x) && q.y - from.y == (c.y - from.y) + (q.y - c.y);
  }

  // ---- The step ----

  /** Where a step asks to be, said outright: dashing, twenty metres a second along the committed direction, which a
      dash granted on this very step takes from the stick; walking, the stick at 6.4 metres a second, four fifths of
      it while slowed. */
  function Asked(p: Player, s: Stick, dt: real): Vec2 {
    var granted := s.dash && p.dashCooldown <= 0.0 && p.dashLeft <= 0.0;
    var along := if !granted then Vec2(p.dashDX, p.dashDY)
                 else if s.mag > 0.0 then Vec2(s.mx / s.mag, s.my / s.mag) else Vec2(0.0, 0.0);
    if granted || p.dashLeft > 0.0 then Vec2(p.pos.x + 20.0 * dt * along.x, p.pos.y + 20.0 * dt * along.y)
    else if p.slowLeft > dt && p.slowLeft > 0.0 then Vec2(p.pos.x + 5.12 * dt * s.mx, p.pos.y + 5.12 * dt * s.my)
    else Vec2(p.pos.x + 6.4 * dt * s.mx, p.pos.y + 6.4 * dt * s.my)
  }

  /** A step whose way is free lands exactly where it asked; any step, from a free point, ends within twice as far as it
      asked to go. */
  lemma AStepGoesWhereItAsks(rects: seq<Rect>, p: Player, s: Stick, dt: real)
    requires Spaced(rects, 2.0 * PLAYER_RADIUS) && dt >= 0.0
    ensures var q, asked := Step(rects, p, s, dt), Asked(p, s, dt);
            && (Free(rects, asked, PLAYER_RADIUS) ==> q.pos == asked)
            && (Free(rects, p.pos, PLAYER_RADIUS) ==> Squared(q.pos, p.pos) <= 4.0 * Squared(asked, p.pos))
  {
    hide Sweep, ClampToFloor, Squared, Spaced, Free, Ramped, Paid;
    StepSettles(rects, p, s, dt);
    SettlesNear(rects, p.pos, Asked(p, s, dt), PLAYER_RADIUS);
  }

  lemma StepSettles(rects: seq<Rect>, p: Player, s: Stick, dt: real)
    requires dt >= 0.0
    ensures Step(rects, p, s, dt).pos == Sweep(rects, ClampToFloor(Asked(p, s, dt), PLAYER_RADIUS), PLAYER_RADIUS)
  {
    hide Sweep, ClampToFloor;
    var t := DashStarted(p, s);
    var u := t.(dashLeft := MaxR(0.0, t.dashLeft - dt), dashCooldown := MaxR(0.0, t.dashCooldown - dt),
                slowLeft := MaxR(0.0, t.slowLeft - dt));
    var to := Heading(u, s, t.dashLeft > 0.0, dt);
    AskedIsHeading(p, s, dt, u, to);
  }

  lemma AskedIsHeading(p: Player, s: Stick, dt: real, u: Player, to: Vec2)
    requires dt >= 0.0
    requires var t := DashStarted(p, s);
             && u == t.(dashLeft := MaxR(0.0, t.dashLeft - dt), dashCooldown := MaxR(0.0, t.dashCooldown - dt),
                        slowLeft := MaxR(0.0, t.slowLeft - dt))
             && to == Heading(u, s, t.dashLeft > 0.0, dt)
    ensures Asked(p, s, dt) == Vec2(p.pos.x + to.x, p.pos.y + to.y)
  {
    Regroup(u.dashDX, dt);
    Regroup(u.dashDY, dt);
    Regroup(s.mx, dt);
    Regroup(s.my, dt);
  }

  lemma Regroup(d: real, dt: real)
    ensures d * DASH_SPEED * dt == 20.0 * dt * d && d * WALK_SPEED * dt == 6.4 * dt * d
    ensures d * (WALK_SPEED * SLOW_FACTOR) * dt == 5.12 * dt * d
  {}

  // ---- A whole dash ----

  /** Every step of it finds its way free. */
  predicate Unhindered(rects: seq<Rect>, p: Player, cmds: seq<Command<Stick>>)
    decreases |cmds|
  {
    cmds == [] ||
    (Free(rects, Asked(p, cmds[0].intent, cmds[0].dt), PLAYER_RADIUS)
     && Unhindered(rects, Step(rects, p, cmds[0].intent, cmds[0].dt), cmds[1..]))
  }

  lemma StepKeepsTheDash(rects: seq<Rect>, p: Player, s: Stick, dt: real)
    requires p.dashLeft > 0.0 && dt >= 0.0
    ensures var q := Step(rects, p, s, dt);
            q.dashLeft == MaxR(0.0, p.dashLeft - dt) && q.dashDX == p.dashDX && q.dashDY == p.dashDY
  {
    hide Sweep, ClampToFloor, Heading;
  }

  /** Within a dash, whatever the stick says, an unhindered player goes twenty metres a second the way he committed
      to. */
  lemma {:induction false} ADashHoldsItsLine(rects: seq<Rect>, p: Player, cmds: seq<Command<Stick>>)
    requires Spaced(rects, 2.0 * PLAYER_RADIUS) && p.dashLeft > 0.0 && TotalDt(cmds) <= p.dashLeft
    requires (forall i :: 0 <= i < |cmds| ==> cmds[i].dt > 0.0) && Unhindered(rects, p, cmds)
    ensures StepAll(rects, p, cmds).pos
         == Vec2(p.pos.x + 20.0 * TotalDt(cmds) * p.dashDX, p.pos.y + 20.0 * TotalDt(cmds) * p.dashDY)
    decreases |cmds|
  {
    hide Step, Spaced, Free;
    if cmds != [] {
      var c, rest := cmds[0], cmds[1..];
      var q := Step(rects, p, c.intent, c.dt);
      AStepGoesWhereItAsks(rects, p, c.intent, c.dt);
      StepKeepsTheDash(rects, p, c.intent, c.dt);
      Share(c.dt, TotalDt(rest), p.dashDX);
      Share(c.dt, TotalDt(rest), p.dashDY);
      if rest != [] {
        TimeLeft(rest);
        ADashHoldsItsLine(rects, q, rest);
      }
    }
  }

  lemma Share(a: real, b: real, d: real)
    ensures 20.0 * (a + b) * d == 20.0 * a * d + 20.0 * b * d
  {}

  lemma {:induction false} TimeLeft(cmds: seq<Command<Stick>>)
    requires cmds != [] && forall i :: 0 <= i < |cmds| ==> cmds[i].dt > 0.0
    ensures TotalDt(cmds) > 0.0
    decreases |cmds|
  {
    if cmds[1..] != [] { TimeLeft(cmds[1..]); }
  }

  /** A whole dash, started by a full stick on its first step and let run for its 0.26 seconds, is 5.2 metres along
      it. */
  lemma AWholeDash(rects: seq<Rect>, p: Player, cmds: seq<Command<Stick>>)
    requires Spaced(rects, 2.0 * PLAYER_RADIUS) && p.dashLeft <= 0.0 && p.dashCooldown <= 0.0
    requires cmds != [] && cmds[0].intent.dash && cmds[0].intent.mag == 1.0 && TotalDt(cmds) == 0.26
    requires (forall i :: 0 <= i < |cmds| ==> cmds[i].dt > 0.0) && Unhindered(rects, p, cmds)
    ensures StepAll(rects, p, cmds).pos
         == Vec2(p.pos.x + 5.2 * cmds[0].intent.mx, p.pos.y + 5.2 * cmds[0].intent.my)
  {
    hide Step, Spaced, Free;
    var c, rest := cmds[0], cmds[1..];
    var q := Step(rects, p, c.intent, c.dt);
    AStepGoesWhereItAsks(rects, p, c.intent, c.dt);
    DashBegins(rects, p, c.intent, c.dt);
    Share(c.dt, TotalDt(rest), c.intent.mx);
    Share(c.dt, TotalDt(rest), c.intent.my);
    if rest != [] {
      TimeLeft(rest);
      ADashHoldsItsLine(rects, q, rest);
    }
  }

  lemma DashBegins(rects: seq<Rect>, p: Player, s: Stick, dt: real)
    requires s.dash && p.dashLeft <= 0.0 && p.dashCooldown <= 0.0 && s.mag == 1.0 && dt >= 0.0
    ensures var q := Step(rects, p, s, dt); q.dashLeft == MaxR(0.0, 0.26 - dt) && q.dashDX == s.mx && q.dashDY == s.my
  {
    hide Sweep, ClampToFloor, Heading;
  }

  // ---- How often, and what for ----

  /** How many dashes a run begins. */
  function Dashes(rects: seq<Rect>, p: Player, cmds: seq<Command<Stick>>): nat
    decreases |cmds|
  {
    if cmds == [] then 0
    else
      var s := cmds[0].intent;
      (if s.dash && p.dashCooldown <= 0.0 && p.dashLeft <= 0.0 then 1 else 0)
      + Dashes(rects, Step(rects, p, s, cmds[0].dt), cmds[1..])
  }

  lemma StepCoolsDown(rects: seq<Rect>, p: Player, s: Stick, dt: real)
    requires p.dashCooldown >= 0.0 && dt >= 0.0
    ensures var granted := s.dash && p.dashCooldown <= 0.0 && p.dashLeft <= 0.0;
            Step(rects, p, s, dt).dashCooldown == MaxR(0.0, (if granted then 2.2 else p.dashCooldown) - dt)
  {
    hide Sweep, ClampToFloor, Heading;
  }

  /** A dash needs 2.2 seconds of stepped time after the one before it, however the commands are cut. */
  lemma {:induction false} DashesKeepTheirCadence(rects: seq<Rect>, p: Player, cmds: seq<Command<Stick>>)
    requires 0.0 <= p.dashCooldown && forall i :: 0 <= i < |cmds| ==> cmds[i].dt >= 0.0
    ensures 2.2 * Dashes(rects, p, cmds) as real
         <= TotalDt(cmds) + StepAll(rects, p, cmds).dashCooldown - p.dashCooldown
    ensures StepAll(rects, p, cmds).dashCooldown <= MaxR(2.2, p.dashCooldown)
    decreases |cmds|
  {
    hide Step;
    if cmds != [] {
      StepCoolsDown(rects, p, cmds[0].intent, cmds[0].dt);
      DashesKeepTheirCadence(rects, Step(rects, p, cmds[0].intent, cmds[0].dt), cmds[1..]);
    }
  }

  /** The ramp is a straight line from one to three over three and a half seconds. */
  lemma TheRampIsStraight(streak: real)
    requires streak >= 0.0
    ensures streak <= 3.5 ==> (Multiplier(streak) - 1.0) * 3.5 == 2.0 * streak
    ensures streak >= 3.5 ==> Multiplier(streak) == 3.0
  {
    assert streak / RAMP_SECONDS * 3.5 == streak;
  }

  /** Standing still, and not dashing, is paid at once: a hundred and twenty a second times the multiplier the stillness
      has grown to, so a hundred and twenty at least and three times that at the top of the ramp. */
  lemma StillnessIsPaid(rects: seq<Rect>, p: Player, s: Stick, dt: real)
    requires p.streak >= 0.0 && dt >= 0.0 && s.mag <= 0.05
    requires !(s.dash && p.dashCooldown <= 0.0 && p.dashLeft <= 0.0) && p.dashLeft <= 0.0
    ensures var q := Step(rects, p, s, dt);
            && q.salary - p.salary == 120.0 * Multiplier(p.streak + dt) * dt
            && q.salary - p.salary >= 120.0 * dt
            && (p.streak + dt >= 3.5 ==> q.salary - p.salary == 360.0 * dt)
  {
    hide Sweep, ClampToFloor, Heading, Multiplier;
    DashKeepsTheRamp(rects, p, s, dt);
    MultiplierInRange(p.streak + dt);
    var m := Multiplier(p.streak + dt);
    ProductNonNegative(m - 1.0, dt);
    assert 120.0 * m * dt == 120.0 * ((m - 1.0) * dt) + 120.0 * dt;
  }

  /** Every command walks, and none asks for a dash. */
  predicate Walks(cmds: seq<Command<Stick>>) {
    forall i :: 0 <= i < |cmds| ==> cmds[i].intent.mag > 0.05 && !cmds[i].intent.dash && cmds[i].dt >= 0.0
  }

  lemma AStepOfAWalk(rects: seq<Rect>, p: Player, s: Stick, dt: real)
    requires p.dashLeft <= 0.0 && s.mag > 0.05 && !s.dash && dt >= 0.0
    ensures var q := Step(rects, p, s, dt);
            && q.dashLeft <= 0.0 && q.salary == p.salary
            && (p.moveGrace + dt <= 0.18 ==> q.streak == p.streak && q.moveGrace == p.moveGrace + dt)
            && (p.moveGrace + dt > 0.18 ==> q.streak == 0.0 && q.moveGrace == 0.18)
  {
    hide Sweep, ClampToFloor, Heading;
  }

  /** A walk earns nothing, and costs the whole streak exactly when it has lasted longer than the grace of 0.18
      seconds, however the commands are cut. */
  lemma {:induction false} AWalkSpendsTheGrace(rects: seq<Rect>, p: Player, cmds: seq<Command<Stick>>)
    requires Walks(cmds) && p.dashLeft <= 0.0 && p.moveGrace <= 0.18
    ensures var q, walked := StepAll(rects, p, cmds), p.moveGrace + TotalDt(cmds);
            && q.salary == p.salary
            && (walked <= 0.18 ==> q.streak == p.streak && q.moveGrace == walked)
            && (walked > 0.18 ==> q.streak == 0.0 && q.moveGrace == 0.18)
    decreases |cmds|
  {
    hide Step;
    if cmds != [] {
      var c, rest := cmds[0], cmds[1..];
      AStepOfAWalk(rects, p, c.intent, c.dt);
      AWalkSpendsTheGrace(rects, Step(rects, p, c.intent, c.dt), rest);
      TimeRunsOn(rest);
    }
  }

  lemma {:induction false} TimeRunsOn(cmds: seq<Command<Stick>>)
    requires Walks(cmds)
    ensures TotalDt(cmds) >= 0.0
    decreases |cmds|
  {
    if cmds != [] { TimeRunsOn(cmds[1..]); }
  }

  /** A shift begins with nothing earned, nothing running and nothing sent; and a tick nobody sent anything for is a
      twentieth of a second stood still. */
  lemma AQuietShiftIsStoodStill(rects: seq<Rect>, at: Vec2, w: Work, wants: bool)
    ensures var p, lane := Hired(at).player, Hired(at).lane.lane;
            && p.pos == at && p.salary == 0.0 && p.streak == 0.0 && p.moveGrace == 0.0 && p.slowLeft == 0.0
            && p.dashLeft == 0.0 && p.dashCooldown == 0.0
            && lane.pending == [] && lane.budget == 0.0 && lane.high == 0 && lane.last == 0
    ensures w.lane.lane.pending == [] ==>
              WorkOn(rects, w, TickOf(wants)).player == Step(rects, w.player, Stick(0.0, 0.0, 0.0, false), 0.05)
  {
    hide Step;
    NothingToStep(rects, w.player, Tick(w.lane.lane, true).stepped);
  }

  lemma NothingToStep(rects: seq<Rect>, p: Player, cmds: seq<Command<Stick>>)
    ensures cmds == [] ==> StepAll(rects, p, cmds) == p
  {}
}
