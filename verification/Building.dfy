/** The shared building as the program keeps it: fields updated in place, and a ring for its memory. */
module Building {
  import opened Wrappers
  import opened Levels
  import opened CommandLane
  import opened Soldier
  import opened Rewind
  import opened World

  class House {
    const level: Level
    const history: Ring
    var tick: nat
    var slots: SlotTable
    var people: map<string, Person>
    var slops: SlopTable
    var spawnAt: int
    var born: nat
    var roster: nat
    var glimpses: map<(nat, Target), Glimpse>

    ghost predicate Valid()
      reads this, history
    {
      |level.sectors| > 0 && history.Valid() && history.frames.Length == HISTORY_CAPACITY
    }

    /** What the building is, its memory read as a list. */
    ghost function Now(): State
      requires Valid()
      reads this, history, history.frames
    {
      State(tick, slots, people, slops, spawnAt, history.Contents(), glimpses, born, roster)
    }

    /** The fields without the memory, for the rules that do not consult it. */
    function Fields(): State
      reads this
    {
      State(tick, slots, people, slops, spawnAt, [], glimpses, born, roster)
    }

    constructor (l: Level)
      requires |l.sectors| > 0
      ensures Valid() && level == l && Now() == Founded() && fresh(history) && fresh(history.frames)
    {
      level, tick, slots, people, slops := l, 0, ["", "", ""], map[], [None, None];
      spawnAt, born, roster, glimpses := SLOP_SPAWN_TICKS, 0, 0, map[];
      history := new Ring();
    }

    method Join(id: string) returns (seated: bool)
      requires Valid()
      modifies this
      ensures Valid() && Now() == Joined(level, old(Now()), id) && seated == (id in people)
    {
      if id in people { return true; }
      var slot := 0;
      while slot < MAX_OCCUPANTS && slots[slot] != ""
        invariant slot <= MAX_OCCUPANTS && forall j :: 0 <= j < slot ==> slots[j] != ""
      {
        slot := slot + 1;
      }
      FirstFree(slots, slot);
      if slot == MAX_OCCUPANTS { return false; }
      var p := Person(slot, born, NewFighter(Spawn(level)), NewLane(), 0, 0);
      people := people[id := Protect(tick, p)];
      slots := slots[slot := id];
      born := born + 1;
      roster := roster + 1;
      return true;
    }

    method Release(id: string)
      requires Valid()
      modifies this, history.frames
      ensures Valid() && Now() == Released(old(Now()), id)
    {
      if id !in people { return; }
      var slot := people[id].slot;
      people := people - {id};
      slots := slots[slot := ""];
      history.Forget(Man(slot));
      glimpses := map k | k in glimpses && k.0 != slot && k.1 != Man(slot) :: glimpses[k];
      roster := roster + 1;
    }

    method EnqueueInput(id: string, cmds: seq<Sent<Order>>)
      requires Valid()
      modifies this
      ensures Valid() && Now() == Enqueued(old(Now()), id, cmds)
    {
      if id !in people { return; }
      var p := people[id];
      people := people[id := p.(lane := Enqueue(p.lane, cmds))];
    }

    method Wound(id: string, damage: int) returns (killed: bool)
      requires Valid() && id in people
      modifies this
      ensures Valid() && Now() == old(Now()).(people := old(people)[id := Hurt(tick, old(people)[id], damage)])
      ensures killed == (old(people)[id].body.health <= damage)
    {
      var p := people[id];
      p := p.(body := p.body.(health := p.body.health - damage, inject := 0.0));
      people := people[id := p];
      if p.body.health > 0 { return false; }
      p := p.(body := p.body.(health := 0, cooldown := 0.0, reload := 0.0, shelter := 0.0));
      p := p.(protectedUntil := 0, downUntil := tick + DOWN_TICKS);
      people := people[id := p];
      return true;
    }

    method ResolveShot(shooter: nat, aim: Option<Target>, instant: real)
      requires Valid()
      modifies this, history.frames
      ensures Valid() && Now() == Shot(level, old(Now()), shooter, aim, instant)
    {
      hide CanSee, Hurt, Forgotten, Rewound, Protected;
      var past := history.At(instant);
      if aim.None? || !MayBeHit(level, Fields(), shooter, aim.value, past) { return; }
      match aim.value
      case Man(slot) =>
        var killed := Wound(slots[slot], BARREL_DAMAGE);
      case Foe(id) =>
        var s := slops[id].value;
        s := s.(health := s.health - BARREL_DAMAGE);
        if s.health > 0 {
          slops := slops[id := Some(s)];
        } else {
          slops := slops[id := None];
          history.Forget(aim.value);
          glimpses := map k | k in glimpses && k.1 != aim.value :: glimpses[k];
        }
    }

    method RunCommand(id: string, c: Command<Order>, instant: real)
      requires Valid() && id in people
      modifies this, history.frames
      ensures Valid() && Now() == Commanded(level, old(Now()), id, c, instant)
    {
      hide Soldier.Step, Shot;
      var p := people[id];
      var body := Soldier.Step(level, p.body, c.intent, c.dt);
      people := people[id := p.(body := body)];
      if body.loaded < p.body.loaded {
        ResolveShot(p.slot, c.intent.aim, instant);
      }
    }

    method TakeTurn(id: string, plan: Plan)
      requires Valid() && id in people
      modifies this, history.frames
      ensures Valid() && Now() == Turn(level, old(Now()), id, plan)
    {
      hide Closed, Tick, Commanded;
      var p := Rise(level, tick, people[id]);
      people := people[id := p];
      var instant := InstantOf(plan, id);
      var cmds := Tick(p.lane, false).stepped;
      ghost var risen := Now();
      for i := 0 to |cmds|
        invariant Valid() && id in people && tick == old(tick)
        invariant CommandedAll(level, Now(), id, cmds[i..], instant) == CommandedAll(level, risen, id, cmds, instant)
      {
        assert cmds[i..][1..] == cmds[i+1..];
        CommandedKeepsKeys(level, Now(), id, cmds[i], instant);
        RunCommand(id, cmds[i], instant);
      }
      var q := people[id];
      people := people[id := Closed(level, tick, q, Tick(p.lane, Ticking(q.body)), id in plan.reached)];
    }

    method SpawnSlop(plan: Plan)
      requires Valid()
      modifies this
      ensures Valid() && Now() == Spawned(level, old(Now()), plan)
    {
      hide SpawnSector, RandomSpot, FreePlace;
      if people == map[] { return; }
      var free := 0;
      while free < SLOP_POPULATION && slops[free].Some?
        invariant free <= SLOP_POPULATION && forall j :: 0 <= j < free ==> slops[j].Some?
      {
        free := free + 1;
      }
      FirstPlace(slops, free);
      if free == SLOP_POPULATION { spawnAt := tick + SLOP_SPAWN_TICKS; return; }
      if tick < spawnAt { return; }
      var sector := SpawnSector(level, people, plan.draws);
      var slop := Slop(born, RandomSpot(plan.draws, 1, level.sectors[sector]), sector, SLOP_HEALTH, 0);
      slops := slops[free := Some(slop)];
      spawnAt := tick + SLOP_SPAWN_TICKS;
      born := born + 1;
    }

    method Touch(i: nat, touches: map<nat, string>)
      requires Valid() && i < SLOP_POPULATION
      modifies this
      ensures Valid() && Now() == Touched(old(Now()), i, touches)
    {
      if slops[i].None? || tick < slops[i].value.touchAt || i !in touches { return; }
      var nearest := touches[i];
      if nearest !in people || people[nearest].body.health <= 0 || Protected(tick, people[nearest]) { return; }
      slops := slops[i := Some(slops[i].value.(touchAt := tick + SLOP_TOUCH_TICKS))];
      var killed := Wound(nearest, SLOP_DAMAGE);
    }

    method StepSlops(plan: Plan)
      requires Valid()
      modifies this
      ensures Valid() && Now() == TouchedFrom(old(Now()).(slops := SlopsMoved(level, old(slops), plan.settles)), 0,
              plan.touches)
    {
      hide Touched, SettledAt;
      slops := SlopsMoved(level, slops, plan.settles);
      ghost var moved := Now();
      for i := 0 to SLOP_POPULATION
        invariant Valid() && TouchedFrom(Now(), i, plan.touches) == TouchedFrom(moved, 0, plan.touches)
      {
        Touch(i, plan.touches);
      }
    }

    method TakeTurns(order: seq<string>, plan: Plan)
      requires Valid()
      modifies this, history.frames
      ensures Valid() && Now() == Turns(level, old(Now()), order, plan)
    {
      hide Turn;
      ghost var began := Now();
      for i := 0 to |order|
        invariant Valid() && Turns(level, Now(), order[i..], plan) == Turns(level, began, order, plan)
      {
        assert order[i..][1..] == order[i+1..];
        if order[i] in people { TakeTurn(order[i], plan); }
      }
    }

    method ReleaseAbandoned(ids: seq<string>)
      requires Valid()
      modifies this, history.frames
      ensures Valid() && Now() == ReleasedAll(old(Now()), ids)
    {
      hide Released;
      ghost var before := Now();
      for i := 0 to |ids|
        invariant Valid() && ReleasedAll(Now(), ids[i..]) == ReleasedAll(before, ids)
      {
        assert ids[i..][1..] == ids[i+1..];
        Release(ids[i]);
      }
    }

    method RecordNow(now: real)
      requires Valid()
      modifies this, history, history.frames
      ensures Valid() && Now() == Recorded(level, old(Now()), now)
    {
      hide Spots, Glimpsed, LastN;
      glimpses := glimpses + Glimpsed(level, tick, slots, people, slops);
      history.Record(tick, now, Spots(slots, people, slops));
    }

    /** One tick of the building. The plan's keys list the people present. */
    method Advance(plan: Plan)
      requires Valid()
      modifies this, history, history.frames
      ensures Valid() && Now() == Advanced(level, old(Now()), plan)
    {
      hide Turns, Spawned, TouchedFrom, SlopsMoved, ReleasedAll, Recorded, TurnOrder;
      tick := tick + 1;
      TakeTurns(TurnOrder(plan.keys, tick), plan);
      SpawnSlop(plan);
      StepSlops(plan);
      RecordNow(plan.now);
      ReleaseAbandoned(plan.abandoned);
    }
  }

  lemma FirstPlace(slops: seq<Option<Slop>>, free: nat)
    requires free <= |slops| && (free < |slops| ==> slops[free].None?) && forall j :: 0 <= j < free ==> slops[j].Some?
    ensures free == FreePlace(slops)
  {}

  lemma CommandedKeepsKeys(l: Level, w: State, id: string, c: Command<Order>, instant: real)
    requires id in w.people
    ensures Commanded(l, w, id, c, instant).people.Keys == w.people.Keys
            && Commanded(l, w, id, c, instant).tick == w.tick
  {
    hide Soldier.Step, Rewound;
  }

  lemma FirstFree(slots: seq<string>, slot: nat)
    requires slot <= |slots| && (slot < |slots| ==> slots[slot] == "") && forall j :: 0 <= j < slot ==> slots[j] != ""
    ensures slot == FreeSlot(slots)
  {}
}
