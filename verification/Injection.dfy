/** The ampoule: what it heals does not depend on how time is cut up, and what it costs cannot be bought back. */
module Injection {
  import opened Levels
  import opened CommandLane
  import opened LaneRuns
  import opened Soldier

  function Capped(health: int): int { if health < MAX_HEALTH then health else MAX_HEALTH }

  /** The health of a man who started on h0 and has had this much of the ampoule. */
  predicate Healing(p: Fighter, h0: int) { p.health == Capped(h0 + Delivered(p.inject)) }

  // ---- Slicing does not matter ----

  lemma StepHeals(l: Level, p: Fighter, o: Order, dt: real, h0: int)
    requires Sound(p) && p.health > 0 && Healing(p, h0) && dt >= 0.0
    ensures var q := Step(l, p, o, dt); Healing(q, h0) && q.inject == CountDown(p.inject, dt) && q.health > 0
    ensures var q := Step(l, p, o, dt); q.inject > 0.0 ==> q.pos == p.pos && q.sector == p.sector && !Granted(p, o, dt)
  {
    hide Delivered, Resolve;
    DeliveredRises(p.inject, CountDown(p.inject, dt));
  }

  /** At every moment of an uninterrupted injection, however the time is sliced and whatever the stick and the trigger
      ask for: the health is h0 plus what the clock says has gone in, capped, and the clock has lost just the time. */
  lemma {:induction false} HealingIsUnsliced(l: Level, p: Fighter, cmds: seq<Command<Order>>, h0: int)
    requires Sound(p) && p.health > 0 && Healing(p, h0) && Forward(cmds)
    ensures var q := StepAll(l, p, cmds);
            Healing(q, h0) && q.health > 0 && q.inject == CountDown(p.inject, TotalDt(cmds))
    decreases |cmds|
  {
    hide Step, Healing, Sound;
    SoundTimers(p);
    if cmds != [] {
      var c := cmds[0];
      StepHeals(l, p, c.intent, c.dt, h0);
      StepKeepsSound(l, p, c.intent, c.dt);
      HealingIsUnsliced(l, Step(l, p, c.intent, c.dt), cmds[1..], h0);
      TotalIsForward(cmds[1..]);
    }
  }

  lemma SoundTimers(p: Fighter)
    requires Sound(p)
    ensures p.inject >= 0.0
  {}

  lemma {:induction false} TotalIsForward(cmds: seq<Command<Order>>)
    requires Forward(cmds)
    ensures TotalDt(cmds) >= 0.0
    decreases |cmds|
  {
    if cmds != [] { TotalIsForward(cmds[1..]); }
  }

  /** A whole ampoule is worth exactly its price, and two ways of cutting the same time up agree at every point. */
  lemma AnAmpouleIsWorthFifty(l: Level, p: Fighter, cmds: seq<Command<Order>>, others: seq<Command<Order>>)
    requires Sound(p) && p.health > 0 && p.inject == SYRINGE_SECONDS && Forward(cmds) && Forward(others)
    ensures TotalDt(cmds) >= SYRINGE_SECONDS ==>
              StepAll(l, p, cmds).health == Capped(p.health + SYRINGE_HEAL) && StepAll(l, p, cmds).inject == 0.0
    ensures TotalDt(cmds) == TotalDt(others) ==> StepAll(l, p, cmds).health == StepAll(l, p, others).health
  {
    hide Sound, StepAll;
    DeliveredRises(SYRINGE_SECONDS, 0.0);
    SoundHealth(p);
    HealingIsUnsliced(l, p, cmds, p.health);
    HealingIsUnsliced(l, p, others, p.health);
  }

  lemma SoundHealth(p: Fighter)
    requires Sound(p)
    ensures p.health <= MAX_HEALTH
  {}

  /** The whole price: until the ampoule is empty he neither moves nor fires. */
  lemma {:induction false} RootedUntilEmpty(l: Level, p: Fighter, cmds: seq<Command<Order>>, h0: int)
    requires Sound(p) && p.health > 0 && Healing(p, h0) && Forward(cmds) && TotalDt(cmds) < p.inject
    ensures StepAll(l, p, cmds).pos == p.pos && Shots(l, p, cmds) == 0
    decreases |cmds|
  {
    hide Step, Healing, Sound, Granted;
    if cmds != [] {
      var c := cmds[0];
      StepHeals(l, p, c.intent, c.dt, h0);
      StepKeepsSound(l, p, c.intent, c.dt);
      TotalIsForward(cmds[1..]);
      RootedUntilEmpty(l, Step(l, p, c.intent, c.dt), cmds[1..], h0);
    }
  }

  // ---- Through the budgeted queue ----

  datatype Life = Life(lane: History<Order>, body: Fighter)

  datatype Beat = Sends(cmds: seq<Sent<Order>>) | Beats

  /** A tick steps what is affordable, and fills a quiet tick only while something is counting down. */
  function WantsIdle(l: Level, w: Life): bool { Ticking(StepAll(l, w.body, Tick(w.lane.lane, true).stepped)) }

  function Happened(l: Level, w: Life, b: Beat): Happens<Order> {
    if b.Sends? then Frame(b.cmds) else TickOf(WantsIdle(l, w))
  }

  function Lives(l: Level, w: Life, b: Beat): Life {
    match b
    case Sends(_) => w.(lane := Next(w.lane, Happened(l, w, b)))
    case Beats =>
      var t := Tick(w.lane.lane, WantsIdle(l, w));
      var q := StepAll(l, w.body, t.stepped);
      Life(Next(w.lane, Happened(l, w, b)), if t.idle > 0.0 then Step(l, q, STILLNESS, t.idle) else q)
  }

  function Lived(l: Level, w: Life, bs: seq<Beat>): Life
    decreases |bs|
  {
    if bs == [] then w else Lived(l, Lives(l, w, bs[0]), bs[1..])
  }

  function Trace(l: Level, w: Life, bs: seq<Beat>): seq<Happens<Order>>
    decreases |bs|
  {
    if bs == [] then [] else [Happened(l, w, bs[0])] + Trace(l, Lives(l, w, bs[0]), bs[1..])
  }

  function BeatsIn(bs: seq<Beat>): nat
    decreases |bs|
  {
    if bs == [] then 0 else (if bs[0].Beats? then 1 else 0) + BeatsIn(bs[1..])
  }

  lemma {:induction false} LaneFollowsTrace(l: Level, w: Life, bs: seq<Beat>)
    ensures Lived(l, w, bs).lane == After(w.lane, Trace(l, w, bs)) && TicksIn(Trace(l, w, bs)) == BeatsIn(bs)
    decreases |bs|
  {
    hide Next, StepAll, Tick, Step;
    if bs != [] {
      LaneFollowsTrace(l, Lives(l, w, bs[0]), bs[1..]);
      var t := Trace(l, w, bs);
      assert t[0] == Happened(l, w, bs[0]) && t[1..] == Trace(l, Lives(l, w, bs[0]), bs[1..]);
    }
  }

  lemma QueueIsForward(h: History<Order>, wantsIdle: bool)
    requires Kept(h)
    ensures var t := Tick(h.lane, wantsIdle); Forward(t.stepped) && t.idle >= 0.0
    ensures Next(h, TickOf(wantsIdle)).time
            == h.time + TotalDt(Tick(h.lane, wantsIdle).stepped) + Tick(h.lane, wantsIdle).idle
  {
    TickPays(h.lane, wantsIdle);
  }

  lemma BeatHeals(l: Level, w: Life, b: Beat, h0: int)
    requires Kept(w.lane) && Sound(w.body) && w.body.health > 0 && Healing(w.body, h0)
    ensures var n := Lives(l, w, b);
            && Kept(n.lane) && Sound(n.body) && n.body.health > 0 && Healing(n.body, h0)
            && n.lane.time >= w.lane.time && n.body.inject == CountDown(w.body.inject, n.lane.time - w.lane.time)
  {
    hide Kept, Step, Sound, Healing, Tick, StepAll, WantsIdle;
    SoundTimers(w.body);
    match b {
      case Sends(cmds) => FrameKeeps(w.lane, cmds);
      case Beats =>
        var wants := WantsIdle(l, w);
        var t := Tick(w.lane.lane, wants);
        QueueIsForward(w.lane, wants);
        TickKeeps(w.lane, wants);
        TotalIsForward(t.stepped);
        HealingIsUnsliced(l, w.body, t.stepped, h0);
        StepAllKeepsSound(l, w.body, t.stepped);
        var q := StepAll(l, w.body, t.stepped);
        StepHeals(l, q, STILLNESS, t.idle, h0);
        StepKeepsSound(l, q, STILLNESS, t.idle);
    }
  }

  lemma {:induction false} LifeHeals(l: Level, w: Life, bs: seq<Beat>, h0: int)
    requires Kept(w.lane) && Sound(w.body) && w.body.health > 0 && Healing(w.body, h0)
    ensures var n := Lived(l, w, bs);
            && Kept(n.lane) && n.lane.time >= w.lane.time && Healing(n.body, h0)
            && n.body.inject == CountDown(w.body.inject, n.lane.time - w.lane.time)
    decreases |bs|
  {
    hide Kept, Lives, Sound, Healing;
    SoundTimers(w.body);
    if bs != [] {
      BeatHeals(l, w, bs[0], h0);
      LifeHeals(l, Lives(l, w, bs[0]), bs[1..], h0);
    }
  }

  /** Whatever the client sends, from any reachable lane: an injection begun now is not over in fewer than 41 ticks,
      and over any k ticks the clock of it loses no more than a bankful and k - 1 ticks. */
  lemma FortyOneTicks(l: Level, w: Life, bs: seq<Beat>, h0: int)
    requires Kept(w.lane) && Sound(w.body) && w.body.health > 0 && Healing(w.body, h0)
             && w.body.inject == SYRINGE_SECONDS
    requires BeatsIn(bs) > 0
    ensures Lived(l, w, bs).body.inject >= SYRINGE_SECONDS - TIME_BUDGET_CAP - (BeatsIn(bs) - 1) as real * SIM_STEP
    ensures Lived(l, w, bs).body.inject == 0.0 ==> BeatsIn(bs) >= 41
  {
    hide Kept, Sound, Healing, Lived;
    LifeHeals(l, w, bs, h0);
    LaneFollowsTrace(l, w, bs);
    WindowBound(w.lane, Trace(l, w, bs));
    if BeatsIn(bs) <= 40 { assert (BeatsIn(bs) - 1) as real * SIM_STEP <= 39.0 * SIM_STEP; }
  }

  // ---- And 41 can be had ----

  function Quiet(k: nat): seq<Beat> { seq(k, _ => Beats) }

  /** With nothing queued and a clock running, k quiet ticks step k ticks of time. */
  lemma {:induction false} QuietTicksRun(l: Level, w: Life, k: nat)
    requires Sound(w.body) && w.body.health > 0 && w.lane.lane.pending == [] && 0.0 <= w.lane.lane.budget
    requires w.body.inject > (k as real - 1.0) * SIM_STEP
    ensures var n := Lived(l, w, Quiet(k)); n.body.inject == CountDown(w.body.inject, k as real * SIM_STEP)
    decreases k
  {
    if k == 0 {
      SoundTimers(w.body);
    } else {
      var n := Lives(l, w, Beats);
      QuietTick(l, w);
      hide Lives, Sound;
      assert Quiet(k)[1..] == Quiet(k - 1) && Quiet(k)[0] == Beats;
      assert (k - 1) as real * SIM_STEP + SIM_STEP == k as real * SIM_STEP;
      if k > 1 || n.body.inject > 0.0 {
        QuietTicksRun(l, n, k - 1);
      } else {
        assert Lived(l, n, Quiet(0)) == n;
      }
    }
  }

  lemma QuietTick(l: Level, w: Life)
    requires Sound(w.body) && w.body.health > 0 && w.lane.lane.pending == [] && 0.0 <= w.lane.lane.budget
             && w.body.inject > 0.0
    ensures var n := Lives(l, w, Beats);
            && Sound(n.body) && n.body.health > 0 && n.lane.lane.pending == [] && 0.0 <= n.lane.lane.budget
            && n.body.inject == CountDown(w.body.inject, SIM_STEP)
  {
    hide Step, Sound;
    var t := Tick(w.lane.lane, true);
    assert t.stepped == [] && t.idle == SIM_STEP && StepAll(l, w.body, t.stepped) == w.body;
    StepKeepsSound(l, w.body, STILLNESS, SIM_STEP);
    StillCounts(l, w.body);
  }

  lemma StillCounts(l: Level, p: Fighter)
    requires Sound(p) && p.health > 0
    ensures var q := Step(l, p, STILLNESS, SIM_STEP); q.health > 0 && q.inject == CountDown(p.inject, SIM_STEP)
  {
    hide Delivered, Resolve;
  }

  /** A man who joined, was hurt, and stands still with nothing running: his bank fills and he does not change. */
  lemma {:induction false} StandingStillBanks(l: Level, w: Life, k: nat)
    requires w.lane.lane.pending == [] && 0.0 <= w.lane.lane.budget <= TIME_BUDGET_CAP && !Ticking(w.body)
    ensures Lived(l, w, Quiet(k)) == Life(After(w.lane, Still(k)), w.body)
    decreases k
  {
    hide Next, After;
    if k == 0 {
      assert Quiet(0) == [] && Still<Order>(0) == [];
      LivedNone(l, w);
    } else {
      var n := Lives(l, w, Beats);
      StillBeat(l, w);
      hide Lives;
      StillnessBanks(w.lane, 1);
      assert Still<Order>(1) == [TickOf(false)] && Still<Order>(k) == [TickOf(false)] + Still(k - 1);
      AfterOne(w.lane, TickOf(false));
      AfterJoins(w.lane, [TickOf(false)], Still(k - 1));
      assert Quiet(k)[1..] == Quiet(k - 1) && Quiet(k)[0] == Beats;
      StandingStillBanks(l, n, k - 1);
      LivedOne(l, w, Quiet(k));
    }
  }

  lemma LivedNone(l: Level, w: Life)
    ensures Lived(l, w, []) == w && After(w.lane, []) == w.lane
  {}

  lemma StillBeat(l: Level, w: Life)
    requires w.lane.lane.pending == [] && !Ticking(w.body)
    ensures Lives(l, w, Beats) == Life(Next(w.lane, TickOf(false)), w.body)
  {
    hide Step;
    assert Tick(w.lane.lane, true).stepped == [] && Tick(w.lane.lane, false).stepped == [];
    assert StepAll(l, w.body, []) == w.body;
  }

  /** The bound is attained, from birth: a wounded man joins, keeps still for ten ticks, walks onto an ampoule as the
      tenth closes, and claims all of his bank in one frame. He is done on the forty-first tick. */
  lemma FortyOneTicksSuffice(l: Level, hurt: Fighter, a: Order)
    requires Sound(hurt) && 0 < hurt.health && !Ticking(hurt)
    ensures var banked := Lived(l, Life(Born(), hurt), Quiet(10));
            var needled := banked.(body := banked.body.(inject := SYRINGE_SECONDS));
            var sent := Lives(l, needled, Sends(Burst(a)));
            && banked.body == hurt && Sound(needled.body) && sent.body.inject == SYRINGE_SECONDS
            && Lived(l, sent, Quiet(41)).body.inject == 0.0 && BeatsIn(Quiet(41)) == 41
  {
    hide Lived, Sound, After, Tick, Enqueue;
    StandingStillBanks(l, Life(Born(), hurt), 10);
    StillnessBanks(Born<Order>(), 10);
    var banked := Lived(l, Life(Born(), hurt), Quiet(10));
    var needled := banked.(body := hurt.(inject := SYRINGE_SECONDS));
    NeedledIsSound(hurt);
    BurstQueues(needled.lane.lane, a);
    var w := Lives(l, needled, Sends(Burst(a)));
    BurstTick(l, w, a);
    var n := Lives(l, w, Beats);
    QuietTicksRun(l, n, 40);
    assert Quiet(41)[1..] == Quiet(40) && Quiet(41)[0] == Beats;
    LivedOne(l, w, Quiet(41));
    QuietCount(41);
  }

  lemma NeedledIsSound(p: Fighter)
    requires Sound(p) && 0 < p.health
    ensures Sound(p.(inject := SYRINGE_SECONDS))
  {}

  lemma LivedOne(l: Level, w: Life, bs: seq<Beat>)
    requires bs != []
    ensures Lived(l, w, bs) == Lived(l, Lives(l, w, bs[0]), bs[1..])
  {}

  lemma {:induction false} QuietCount(k: nat)
    ensures BeatsIn(Quiet(k)) == k
    decreases k
  {
    if k > 0 {
      assert Quiet(k)[1..] == Quiet(k - 1) && Quiet(k)[0] == Beats;
      QuietCount(k - 1);
    }
  }

  lemma BurstTick(l: Level, w: Life, a: Order)
    requires Sound(w.body) && w.body.health > 0 && w.body.inject == SYRINGE_SECONDS
    requires w.lane.lane.pending == Queued(a) && w.lane.lane.budget == TIME_BUDGET_CAP
    ensures var n := Lives(l, w, Beats);
            && Sound(n.body) && n.body.health > 0 && n.lane.lane.pending == [] && 0.0 <= n.lane.lane.budget
            && n.body.inject == SYRINGE_SECONDS - TIME_BUDGET_CAP
  {
    hide StepAll, Sound, Tick, Queued;
    BurstIsStepped(w.lane.lane, a, WantsIdle(l, w));
    QueuedIsForward(a);
    DeliveredRises(SYRINGE_SECONDS, 0.0);
    SoundHealth(w.body);
    HealingIsUnsliced(l, w.body, Queued(a), w.body.health);
    StepAllKeepsSound(l, w.body, Queued(a));
  }

  lemma QueuedIsForward(a: Order)
    ensures Forward(Queued(a))
  {}
}
