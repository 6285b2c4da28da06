/** What one step does to a man of the building, said of the fields before and after. */
module StepRules {
  import opened Wrappers
  import opened Plane
  import opened Levels
  import opened Soldier

  /** What is left of a timer, said of what there was. */
  predicate RunsDown(left: real, dt: real, after: real) { after == if left <= dt then 0.0 else left - dt }

  /** The gun, in every case. A timer that outlasts the step holds the trigger; otherwise it spends one of what is
      loaded, with a third of a second and a bit to wait, and an empty gun starts its second and a half of loading. A
      load that ends on the step is in the gun before the trigger is. */
  lemma TheGunAnswers(l: Level, p: Fighter, o: Order, dt: real)
    requires Sound(p) && p.health > 0 && dt >= 0.0
    ensures var q := Step(l, p, o, dt);
            var held := p.cooldown > dt || p.reload > dt || p.shelter > dt || p.inject > dt;
            var had := if 0.0 < p.reload <= dt then 2 else p.loaded;
            && RunsDown(p.shelter, dt, q.shelter) && RunsDown(p.inject, dt, q.inject)
            && (held || !o.fire ==>
                q.loaded == had && RunsDown(p.cooldown, dt, q.cooldown) && RunsDown(p.reload, dt, q.reload))
            && (!held && o.fire && had > 0 ==> q.loaded == had - 1 && q.cooldown == 0.35 && q.reload == 0.0)
            && (!held && o.fire && had == 0 ==> q.loaded == 0 && q.cooldown == 0.0 && q.reload == 1.5)
  {
    hide Resolve, Delivered;
  }

  /** How much of an ampoule is in, half a point either way: twenty points a second. */
  lemma AnAmpouleGoesInEvenly(left: real, k: int)
    ensures Delivered(left) == k <==> k as real - 0.5 <= 20.0 * (2.5 - left) < k as real + 0.5
  {
    assert SYRINGE_HEAL as real * (SYRINGE_SECONDS - left) / SYRINGE_SECONDS == 20.0 * (2.5 - left);
  }

  /** And what goes in heals, up to the whole of him. */
  lemma AnAmpouleHeals(l: Level, p: Fighter, o: Order, dt: real)
    requires Sound(p) && p.health > 0 && dt >= 0.0
    ensures var q := Step(l, p, o, dt);
            var whole := p.health + Delivered(q.inject) - Delivered(p.inject);
            q.health == if whole <= 100 then whole else 100
  {
    hide Resolve, Delivered;
    DeliveredRises(p.inject, CountDown(p.inject, dt));
  }

  /** He stands where he stood while an ampoule outlasts the step, or if he asks for nothing, or if the walls would
      settle him outside every room; otherwise the first room that holds the point takes him there, if its floor is
      within a step of the one he is on, and only then. */
  lemma AWalkLandsExactlyWhen(l: Level, p: Fighter, o: Order, dt: real, i: nat)
    requires WellBuilt(l) && Sound(p) && p.health > 0 && dt >= 0.0 && p.sector < |l.sectors| && i <= |l.sectors|
    requires o.walk.Some? ==>
               var at := o.walk.value;
               && (forall j :: 0 <= j < i ==> !InRoom(l.sectors[j], at))
               && (i < |l.sectors| ==> InRoom(l.sectors[i], at))
    ensures var q := Step(l, p, o, dt);
            var goes := && o.walk.Some? && p.inject <= dt && i < |l.sectors|
                        && l.sectors[p.sector].floorZ - 0.600000001 <= l.sectors[i].floorZ
                           <= l.sectors[p.sector].floorZ + 0.600000001;
            if goes then q.pos == o.walk.value && q.sector == i else q.pos == p.pos && q.sector == p.sector
  {
    hide StepInject, StepGun, WellBuilt, SectorAt;
    var shaded := p.(shelter := CountDown(p.shelter, dt));
    InjectStays(shaded, dt);
    AmpouleLeft(shaded, dt);
    GunStays(StepInject(shaded, dt), o.fire, dt);
    if o.walk.Some? { FirstRoomThatHolds(l, o.walk.value, i); }
  }

  lemma AmpouleLeft(p: Fighter, dt: real)
    requires p.inject >= 0.0 && dt >= 0.0
    ensures StepInject(p, dt).inject > 0.0 <==> p.inject > dt
  {}

  predicate InRoom(s: Sector, p: Vec2) { s.minX <= p.x && p.x <= s.maxX && s.minY <= p.y && p.y <= s.maxY }

  lemma FirstRoomThatHolds(l: Level, p: Vec2, i: nat)
    requires WellBuilt(l) && i <= |l.sectors| && (i < |l.sectors| ==> InRoom(l.sectors[i], p))
    requires forall j :: 0 <= j < i ==> !InRoom(l.sectors[j], p)
    ensures SectorAt(l.sectors, p) == if i < |l.sectors| then Some(i) else None
  {
    hide IsTree, Overlap, Sized;
    if i < |l.sectors| { assert Contains(l.sectors[i], p); }
    assert forall j :: 0 <= j < i ==> !Contains(l.sectors[j], p);
  }

  /** A quiet tick of a man nobody sent anything for changes him exactly if something is running. */
  lemma StillnessIsFelt(l: Level, p: Fighter, dt: real)
    requires Sound(p) && p.health > 0 && dt > 0.0
    ensures Step(l, p, STILLNESS, dt) == p <==> !Ticking(p)
  {
    hide Delivered, Resolve;
  }
}
