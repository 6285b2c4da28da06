/** The building runs every command lane exactly as a lane is run alone: what a run of the building does to a person's
    lane is the run of a lane read off it, so everything proved of lanes holds of everybody in it. */
module WorldLanes {
  import opened Sequences
  import opened Levels
  import opened CommandLane
  import opened LaneRuns
  import opened Soldier
  import opened Rewind
  import opened World
  import opened WorldRuns

  // ---- One turn is one tick of the lane ----

  /** The guard on the idle fill, as the turn finds it once the commands have run. */
  function TurnGuard(l: Level, w: State, id: string, plan: Plan): bool
    requires |l.sectors| > 0 && id in w.people
  {
    Ticking(CommandedAll(l, Risen(l, w, id), id, TurnCommands(w, id), InstantOf(plan, id)).people[id].body)
  }

  lemma GuardDoesNotChooseCommands(w: State, id: string, guard: bool)
    requires id in w.people
    ensures Tick(w.people[id].lane, guard).stepped == TurnCommands(w, id)
  {}

  /** A turn ticks its own man's lane, under the guard it found, with exactly the commands it ran; no other lane
      moves. */
  lemma TurnLanes(l: Level, w: State, id: string, plan: Plan)
    requires Inv(l, w) && id in w.people && |l.sectors| > 0
    ensures var n, t := Turn(l, w, id, plan), Tick(w.people[id].lane, TurnGuard(l, w, id, plan));
            && n.people.Keys == w.people.Keys && n.people[id].lane == t.lane && t.stepped == TurnCommands(w, id)
            && forall other :: other in w.people && other != id ==> n.people[other].lane == w.people[other].lane
  {
    hide Inv, Fit, WellBuilt, Tick, Risen, CommandedAll, Closed, Clamped, QueueOk, TurnCommands, InstantOf;
    FitOf(l, w, id);
    RisenKeeps(l, w, id);
    CommandsAreForward(l, w, id);
    CommandsKeep(l, Risen(l, w, id), id, TurnCommands(w, id), InstantOf(plan, id));
    GuardDoesNotChooseCommands(w, id, TurnGuard(l, w, id, plan));
    var q := CommandedAll(l, Risen(l, w, id), id, TurnCommands(w, id), InstantOf(plan, id)).people[id];
    ClosedLane(l, w.tick, q, Tick(w.people[id].lane, Ticking(q.body)), id in plan.reached);
  }

  lemma CommandsAreForward(l: Level, w: State, id: string)
    requires Inv(l, w) && id in w.people
    ensures Forward(TurnCommands(w, id))
  {
    hide Inv, Fit, Tick;
    FitOf(l, w, id);
    LaneOf(l, w.tick, w.people[id]);
    TurnLane(w.people[id].lane, false);
  }

  lemma ClosedLane(l: Level, tick: nat, p: Person, t: Ticked<Order>, reached: bool)
    ensures Closed(l, tick, p, t, reached).lane == t.lane
  {}

  /** The guard of one man's turn within the order of a tick. */
  function GuardAt(l: Level, w: State, order: seq<string>, id: string, plan: Plan): bool
    requires |l.sectors| > 0
    decreases |order|
  {
    if order == [] then false
    else if order[0] !in w.people then GuardAt(l, w, order[1..], id, plan)
    else if order[0] == id then TurnGuard(l, w, id, plan)
    else GuardAt(l, Turn(l, w, order[0], plan), order[1..], id, plan)
  }

  lemma {:induction false} TurnsLanes(l: Level, w: State, order: seq<string>, id: string, plan: Plan)
    requires Inv(l, w) && |l.sectors| > 0 && Distinct(order) && id in w.people
    ensures var n := Turns(l, w, order, plan);
            && n.people.Keys == w.people.Keys
            && n.people[id].lane == if id in order then Tick(w.people[id].lane, GuardAt(l, w, order, id, plan)).lane
                else w.people[id].lane
    decreases |order|
  {
    hide Inv, Turn, Tick, TurnGuard;
    if order != [] {
      var next := w;
      if order[0] in w.people {
        TurnKeeps(l, w, order[0], plan);
        TurnLanes(l, w, order[0], plan);
        next := Turn(l, w, order[0], plan);
      }
      assert order[0] !in order[1..];
      TurnsLanes(l, next, order[1..], id, plan);
      assert id in order <==> id == order[0] || id in order[1..];
    }
  }

  lemma RotationIsDistinct(keys: seq<string>, tick: nat)
    requires Distinct(keys)
    ensures Distinct(TurnOrder(keys, tick))
  {
    var n, order := |keys|, TurnOrder(keys, tick);
    forall i, j | 0 <= i < j < n ensures order[i] != order[j] {
      OnceAround(i + tick % n, n);
      OnceAround(j + tick % n, n);
    }
  }

  /** The guard a tick of the building applies to one man. */
  function AdvanceGuard(l: Level, w: State, id: string, plan: Plan): bool
    requires |l.sectors| > 0
  {
    GuardAt(l, w.(tick := w.tick + 1), TurnOrder(plan.keys, w.tick + 1), id, plan)
  }

  /** A tick of the building is one tick of the lane of everybody who is still there. */
  lemma AdvanceTicksEveryLaneOnce(l: Level, w: State, plan: Plan, id: string)
    requires Good(l, w) && Fits(w, Advance(plan)) && |l.sectors| > 0 && id in Advanced(l, w, plan).people
    ensures id in w.people
    ensures Advanced(l, w, plan).people[id].lane == Tick(w.people[id].lane, AdvanceGuard(l, w, id, plan)).lane
  {
    hide Inv, Clamped, Turns, Spawned, TouchedFrom, Recorded, ReleasedAll, TurnOrder, GuardAt, Tick;
    var began := w.(tick := w.tick + 1);
    TickOn(l, w);
    var order := TurnOrder(plan.keys, began.tick);
    TurnsKeep(l, began, order, plan);
    var played := Turns(l, began, order, plan);
    AfterTheTurns(l, played, plan);
    EverybodyHasATurn(plan.keys, began.tick, id);
    RotationIsDistinct(plan.keys, began.tick);
    TurnsLanes(l, began, order, id, plan);
  }

  /** Everything a tick does once the turns are over. */
  function Closing(l: Level, played: State, plan: Plan): State
    requires |l.sectors| > 0
  {
    var spawned := Spawned(l, played, plan);
    var moved := spawned.(slops := SlopsMoved(l, spawned.slops, plan.settles));
    ReleasedAll(Recorded(l, TouchedFrom(moved, 0, plan.touches), plan.now), plan.abandoned)
  }

  lemma AfterTheTurns(l: Level, played: State, plan: Plan)
    requires Inv(l, played) && |l.sectors| > 0
    ensures var n := Closing(l, played, plan);
            n.tick == played.tick && forall id :: id in n.people ==>
                id in played.people && n.people[id].lane == played.people[id].lane
  {
    hide Inv, Clamped, Spawned, TouchedFrom, Recorded, ReleasedAll, SlopsMoved;
    SpawnKeeps(l, played, plan);
    var spawned := Spawned(l, played, plan);
    MoveKeeps(l, spawned, plan.settles);
    var moved := spawned.(slops := SlopsMoved(l, spawned.slops, plan.settles));
    TouchesKeep(l, moved, 0, plan.touches);
    var touched := TouchedFrom(moved, 0, plan.touches);
    RecordKeeps(l, touched, plan.now);
    RecordedTick(l, touched, plan.now);
    ReleasesKeep(l, Recorded(l, touched, plan.now), plan.abandoned);
  }

  lemma AdvanceTick(l: Level, w: State, plan: Plan)
    requires Good(l, w) && |l.sectors| > 0
    ensures Advanced(l, w, plan).tick == w.tick + 1
  {
    hide Inv, Clamped, Turns, Closing, TurnOrder;
    var began := w.(tick := w.tick + 1);
    TickOn(l, w);
    var order := TurnOrder(plan.keys, began.tick);
    TurnsKeep(l, began, order, plan);
    AfterTheTurns(l, Turns(l, began, order, plan), plan);
    AdvancedIsClosing(l, w, plan);
  }

  lemma AdvancedIsClosing(l: Level, w: State, plan: Plan)
    requires |l.sectors| > 0
    ensures var began := w.(tick := w.tick + 1);
            Advanced(l, w, plan) == Closing(l, Turns(l, began, TurnOrder(plan.keys, began.tick), plan), plan)
  {
    hide Turns, Spawned, TouchedFrom, Recorded, ReleasedAll, TurnOrder, SlopsMoved;
  }

  // ---- The log of one person's stay ----

  /** What one event adds to the log of a person: a new stay begins empty, a frame of his is a frame, and a tick of the
      building is a tick under the guard his turn found. */
  function Logged(l: Level, w: State, e: Event, id: string, log: seq<Happens<Order>>): seq<Happens<Order>>
    requires |l.sectors| > 0
  {
    match e
    case Join(who) => if who == id && id !in w.people then [] else log
    case Leave(_) => log
    case Input(who, cmds) => if who == id && id in w.people then log + [LaneRuns.Frame(cmds)] else log
    case Advance(plan) => if id in w.people then log + [TickOf(AdvanceGuard(l, w, id, plan))] else log
  }

  /** The log of his present stay, read off a whole run. */
  function LogOf(l: Level, w: State, es: seq<Event>, id: string, log: seq<Happens<Order>>): seq<Happens<Order>>
    requires |l.sectors| > 0
    decreases |es|
  {
    if es == [] then log else LogOf(l, Outcome(l, w, es[0]), es[1..], id, Logged(l, w, es[0], id, log))
  }

  /** The command history of a person: a lane born when he joined, and everything logged since. */
  function StayOf(l: Level, es: seq<Event>, id: string): History<Order>
    requires |l.sectors| > 0
  {
    After(Born<Order>(), LogOf(l, Founded(), es, id, []))
  }

  /** The log tells the truth of the lane, and of no more ticks than the building has had. */
  ghost predicate Tells(w: State, id: string, log: seq<Happens<Order>>) {
    id in w.people ==> After(Born<Order>(), log).lane == w.people[id].lane && TicksIn(log) <= w.tick
  }

  lemma {:induction false} AfterOneMore<P>(h: History<P>, es: seq<Happens<P>>, e: Happens<P>)
    ensures After(h, es + [e]) == Next(After(h, es), e)
    ensures TicksIn(es + [e]) == TicksIn(es) + if e.TickOf? then 1 else 0
    decreases |es|
  {
    hide Next;
    if es == [] {
      assert es + [e] == [e] && [e][1..] == [];
    } else {
      assert (es + [e])[1..] == es[1..] + [e];
      AfterOneMore(Next(h, es[0]), es[1..], e);
    }
  }

  lemma NextLane(h: History<Order>, guard: bool, cmds: seq<Sent<Order>>)
    ensures Next(h, TickOf(guard)).lane == Tick(h.lane, guard).lane
    ensures Next(h, LaneRuns.Frame(cmds)).lane == CommandLane.Enqueue(h.lane, cmds)
  {}

  lemma EventTells(l: Level, w: State, e: Event, id: string, log: seq<Happens<Order>>)
    requires Good(l, w) && Fits(w, e) && |l.sectors| > 0 && Tells(w, id, log)
    ensures Tells(Outcome(l, w, e), id, Logged(l, w, e, id, log))
  {
    hide Good, Advanced, AdvanceGuard, CommandLane.Enqueue, FreeSlot, Next, Tick;
    var h := After(Born<Order>(), log);
    match e
    case Join(who) =>
    case Leave(who) =>
    case Input(who, cmds) =>
      AfterOneMore(Born<Order>(), log, LaneRuns.Frame(cmds));
      NextLane(h, false, cmds);
    case Advance(plan) =>
      AdvanceTick(l, w, plan);
      if id in Advanced(l, w, plan).people {
        var guard := AdvanceGuard(l, w, id, plan);
        AdvanceTicksEveryLaneOnce(l, w, plan, id);
        AfterOneMore(Born<Order>(), log, TickOf(guard));
        NextLane(h, guard, []);
      }
  }

  lemma {:induction false} RunTells(l: Level, w: State, es: seq<Event>, id: string, log: seq<Happens<Order>>)
    requires Good(l, w) && |l.sectors| > 0 && FitsAll(l, w, es) && Tells(w, id, log)
    ensures Tells(Run(l, w, es), id, LogOf(l, w, es, id, log))
    decreases |es|
  {
    hide Good, Outcome, Fits, Tells, Logged;
    if es != [] {
      EventKeeps(l, w, es[0]);
      EventTells(l, w, es[0], id, log);
      RunTells(l, Outcome(l, w, es[0]), es[1..], id, Logged(l, w, es[0], id, log));
    }
  }

  /** In every run of the building, the lane of everybody in it is the lane of his own logged history, and that history
      balances: of what the run's frames brought him everything was stepped by a turn, trimmed or is waiting, never two
      of these, in order and up to the acknowledgement, and his turns stepped no more time than the building has had. */
  lemma EverybodysBooksBalance(l: Level, es: seq<Event>, id: string)
    requires WellBuilt(l) && FitsAll(l, Founded(), es) && id in Run(l, Founded(), es).people
    ensures var w, h := Run(l, Founded(), es), StayOf(l, es, id);
            && h.lane == w.people[id].lane && Kept(h) && h.ticks <= w.tick && 0.0 <= h.time <= w.tick as real * SIM_STEP
  {
    hide WellBuilt, Run, FitsAll, Books, LogOf, Next, After;
    FoundedIsGood(l);
    HasRooms(l);
    RunTells(l, Founded(), es, id, []);
    var log := LogOf(l, Founded(), es, id, []);
    EveryRunFromBirth(log);
    HistoryGrows(Born<Order>(), log);
  }

  // ---- A stretch of a stay ----

  /** He is there before each of these events and after the last. */
  predicate Stays(l: Level, w: State, es: seq<Event>, id: string)
    requires |l.sectors| > 0
    decreases |es|
  {
    id in w.people && (es == [] || Stays(l, Outcome(l, w, es[0]), es[1..], id))
  }

  /** While he stays his log only grows, by as many ticks as the building has. */
  lemma {:induction false} LogGrows(l: Level, w: State, es: seq<Event>, id: string, log: seq<Happens<Order>>)
    requires |l.sectors| > 0 && Stays(l, w, es, id)
    ensures LogOf(l, w, es, id, log) == log + LogOf(l, w, es, id, [])
    ensures TicksIn(LogOf(l, w, es, id, [])) == AdvancesIn(es)
    decreases |es|
  {
    hide Outcome, AdvanceGuard;
    if es != [] {
      var n, first := Outcome(l, w, es[0]), Logged(l, w, es[0], id, []);
      assert Logged(l, w, es[0], id, log) == log + first;
      LogGrows(l, n, es[1..], id, log + first);
      LogGrows(l, n, es[1..], id, first);
      TicksAdd(first, LogOf(l, n, es[1..], id, []));
      assert first == [] || (|first| == 1 && first[1..] == []);
    }
  }

  function AdvancesIn(es: seq<Event>): nat
    decreases |es|
  {
    if es == [] then 0 else (if es[0].Advance? then 1 else 0) + AdvancesIn(es[1..])
  }

  lemma {:induction false} TicksAdd<P>(a: seq<Happens<P>>, b: seq<Happens<P>>)
    ensures TicksIn(a + b) == TicksIn(a) + TicksIn(b)
    decreases |a|
  {
    if a == [] {
      assert a + b == b;
    } else {
      assert (a + b)[1..] == a[1..] + b;
      TicksAdd(a[1..], b);
    }
  }

  lemma {:induction false} LogSplits(l: Level, w: State, a: seq<Event>, b: seq<Event>, id: string,
                                     log: seq<Happens<Order>>)
    requires |l.sectors| > 0
    ensures Run(l, w, a + b) == Run(l, Run(l, w, a), b)
    ensures LogOf(l, w, a + b, id, log) == LogOf(l, Run(l, w, a), b, id, LogOf(l, w, a, id, log))
    decreases |a|
  {
    hide Outcome, Logged;
    if a == [] {
      assert a + b == b;
    } else {
      assert (a + b)[1..] == a[1..] + b && (a + b)[0] == a[0];
      LogSplits(l, Outcome(l, w, a[0]), a[1..], b, id, Logged(l, w, a[0], id, log));
    }
  }

  /** What a stretch of somebody's stay does to his history: it continues it, one tick a tick. */
  lemma StayContinues(l: Level, before: seq<Event>, es: seq<Event>, id: string) returns (more: seq<Happens<Order>>)
    requires WellBuilt(l) && |l.sectors| > 0 && FitsAll(l, Founded(), before)
             && Stays(l, Run(l, Founded(), before), es, id)
    ensures StayOf(l, before + es, id) == After(StayOf(l, before, id), more) && TicksIn(more) == AdvancesIn(es)
    ensures Kept(StayOf(l, before, id)) && StayOf(l, before, id).lane == Run(l, Founded(), before).people[id].lane
  {
    hide WellBuilt, Run, FitsAll, Next, After, Kept, LogOf;
    assert id in Run(l, Founded(), before).people;
    EverybodysBooksBalance(l, before, id);
    more := LogOf(l, Run(l, Founded(), before), es, id, []);
    var log := LogOf(l, Founded(), before, id, []);
    LogSplits(l, Founded(), before, es, id, []);
    LogGrows(l, Run(l, Founded(), before), es, id, log);
    AfterJoins(Born<Order>(), log, more);
  }

  /** Over any window of k ticks of the building a man who is there is stepped at most a bankful and k - 1 ticks. */
  lemma NobodyIsSteppedMoreThanTheWindow(l: Level, before: seq<Event>, es: seq<Event>, id: string)
    requires WellBuilt(l) && |l.sectors| > 0 && FitsAll(l, Founded(), before)
             && Stays(l, Run(l, Founded(), before), es, id)
    requires AdvancesIn(es) > 0
    ensures StayOf(l, before + es, id).time - StayOf(l, before, id).time <= TIME_BUDGET_CAP
            + (AdvancesIn(es) - 1) as real * SIM_STEP
  {
    hide WellBuilt, Run, FitsAll, After, Kept, StayOf, Stays;
    var more := StayContinues(l, before, es, id);
    WindowBound(StayOf(l, before, id), more);
  }

  /** The head of anybody's queue is stepped by one of his turns, or trimmed, within four ticks of the building. */
  lemma NobodyStarves(l: Level, before: seq<Event>, es: seq<Event>, id: string)
    requires WellBuilt(l) && |l.sectors| > 0 && FitsAll(l, Founded(), before)
             && Stays(l, Run(l, Founded(), before), es, id)
    requires id in Run(l, Founded(), before).people && Run(l, Founded(), before).people[id].lane.pending != []
             && AdvancesIn(es) >= 4
    ensures Settled(StayOf(l, before + es, id), Run(l, Founded(), before).people[id].lane.pending[0].seqNo)
  {
    hide WellBuilt, Run, FitsAll, After, StayOf, Stays, Books;
    var more := StayContinues(l, before, es, id);
    HeadSettles(StayOf(l, before, id), more, 4);
  }
}
