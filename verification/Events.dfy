/** The event model of the pet: one function interprets a verb, for a live press and for a replay alike. */
module Events {
  import opened Wrappers
  import opened Decay
  import opened Reads
  import opened Instants

  datatype StatDelta = StatDelta(statKey: string, delta: real)

  datatype Action = Action(
    key: string,
    effects: seq<StatDelta>,
    revivesFatal: bool,
    startsOver: bool,
    needsStat: string,
    needsAtLeast: real)

  datatype Catalogue = Catalogue(stats: seq<Stat>, actions: seq<Action>)

  datatype Event = Event(verb: string, at: real)

  datatype Snapshot = Snapshot(rows: Rows, diedAt: Option<real>)

  datatype Refusal = UnknownAction | UnknownStat | PetDead | NotYet

  predicate Alive(s: Snapshot) { s.diedAt.None? }

  function ActionByKey(actions: seq<Action>, key: string): Option<Action> {
    if actions == [] then None
    else if actions[0].key == key then Some(actions[0])
    else ActionByKey(actions[1..], key)
  }

  // ---- advance ----

  /** The row is a fatal stat at its floor by `to`, and its derived death is known. */
  predicate Died(stats: seq<Stat>, rows: Rows, k: string, to: real) {
    && k in rows
    && var def := StatByKey(stats, k);
       && def.Some?
       && Dead(stats, def.value, rows[k].value, rows[k].asOf, to, rows)
       && DeadAtWith(stats, def.value, rows[k].value, rows[k].asOf, rows).Some?
  }

  function DeathOf(stats: seq<Stat>, rows: Rows, k: string, to: real): real
    requires Died(stats, rows, k, to)
  {
    DeadAtWith(stats, StatByKey(stats, k).value, rows[k].value, rows[k].asOf, rows).value
  }

  function DeathsOver(stats: seq<Stat>, rows: Rows, keys: set<string>, to: real): map<string, real> {
    map k | k in keys && Died(stats, rows, k, to) :: DeathOf(stats, rows, k, to)
  }

  /** Every row moved to `to`, and the earliest death on the way recorded at the instant it is derived for. */
  ghost function Advance(stats: seq<Stat>, s: Snapshot, to: real): Snapshot {
    Snapshot(
      Restamp(stats, s.rows, to),
      if s.diedAt.Some? then s.diedAt else Earliest(DeathsOver(stats, s.rows, s.rows.Keys, to)))
  }

  /** Part-way through a visit: the rows in `todo` are as stored, the others are as they will be, and the
      earliest death among the others is known. */
  ghost predicate Moving(stats: seq<Stat>, stored: Rows, rows: Rows, death: Option<real>, todo: set<string>, to: real) {
    && rows.Keys == stored.Keys && todo <= stored.Keys
    && (forall k :: k in stored ==> rows[k] == if k in todo then stored[k] else Restamp(stats, stored, to)[k])
    && death == Earliest(DeathsOver(stats, stored, stored.Keys - todo, to))
  }

  function Sooner(death: Option<real>, at: Option<real>): Option<real> {
    if at.Some? && (death.None? || at.value < death.value) then at else death
  }

  lemma MoveOne(stats: seq<Stat>, stored: Rows, rows: Rows, death: Option<real>, todo: set<string>, to: real,
                key: string)
    requires Moving(stats, stored, rows, death, todo, to) && key in todo
    ensures key in stored
    ensures Moving(stats, stored, rows[key := Restamp(stats, stored, to)[key]],
      Sooner(death, if Died(stats, stored, key, to) then Some(DeathOf(stats, stored, key, to)) else None),
      todo - {key}, to)
  {
    hide Restamp, DeathsOver, Earliest, Died, DeathOf;
    assert stored.Keys - (todo - {key}) == (stored.Keys - todo) + {key};
    DeathsGrow(stats, stored, stored.Keys - todo, key, to);
  }

  /** One row read at `to`, and its death if it has died by then. A key that has left the catalogue is carried. */
  method AdvanceRow(stats: seq<Stat>, rows: Rows, key: string, to: real) returns (row: StatRow, death: Option<real>)
    requires key in rows
    ensures row == Restamp(stats, rows, to)[key]
    ensures death == if Died(stats, rows, key, to) then Some(DeathOf(stats, rows, key, to)) else None
  {
    row, death := rows[key], None;
    var def := StatByKey(stats, key);
    if def.None? { return; }
    var v := ReadAtWith(stats, def.value, row.value, row.asOf, to, rows);
    if def.value.fatal && v <= def.value.min {
      death := DeriveDeath(stats, def.value, row.value, row.asOf, rows);
    }
    row := StatRow(key, v, to);
  }

  /** Rows are visited in any order at all; the answer does not depend on it. */
  method AdvanceRows(stats: seq<Stat>, s: Snapshot, to: real) returns (next: Snapshot)
    ensures next == Advance(stats, s, to)
  {
    var rows := s.rows;
    var death: Option<real> := None;
    var todo := s.rows.Keys;
    assert s.rows.Keys - todo == {};
    while todo != {}
      invariant Moving(stats, s.rows, rows, death, todo, to)
      decreases |todo|
    {
      hide *;
      NonEmptyHasMember(todo);
      var key :| key in todo;
      MoveOne(stats, s.rows, rows, death, todo, to, key);
      todo := todo - {key};
      var row, at := AdvanceRow(stats, s.rows, key, to);
      rows := rows[key := row];
      death := Sooner(death, at);
    }
    assert rows == Restamp(stats, s.rows, to);
    assert s.rows.Keys - todo == s.rows.Keys;
    next := Snapshot(rows, if s.diedAt.Some? then s.diedAt else death);
  }

  /** One more row visited: the earliest death so far against the one this row adds. */
  lemma DeathsGrow(stats: seq<Stat>, rows: Rows, done: set<string>, k: string, to: real)
    requires k !in done
    ensures var was, now := Earliest(DeathsOver(stats, rows, done, to)),
            Earliest(DeathsOver(stats, rows, done + {k}, to));
            now == if Died(stats, rows, k, to) && (was.None? || DeathOf(stats, rows, k, to) < was.value)
                   then Some(DeathOf(stats, rows, k, to)) else was
  {
    hide Dead, AtWith, DeadAtWith, Taken;
    var before, after := DeathsOver(stats, rows, done, to), DeathsOver(stats, rows, done + {k}, to);
    if Died(stats, rows, k, to) {
      assert after == before[k := DeathOf(stats, rows, k, to)];
      EarliestGrows(before, k, DeathOf(stats, rows, k, to));
    } else {
      assert after == before;
    }
  }

  // ---- apply ----

  predicate EffectsKnown(stats: seq<Stat>, effects: seq<StatDelta>) {
    forall i :: 0 <= i < |effects| ==> StatByKey(stats, effects[i].statKey).Some?
  }

  /** The first n effects, in order, each clamped against its own stat; a stat the pet has no row for is skipped. */
  function Moved(stats: seq<Stat>, rows: Rows, effects: seq<StatDelta>, n: nat, at: real): (out: Rows)
    requires n <= |effects| && EffectsKnown(stats, effects)
    ensures out.Keys == rows.Keys
  {
    if n == 0 then rows
    else
      var before := Moved(stats, rows, effects, n - 1, at);
      var e := effects[n-1];
      if e.statKey !in before then before
      else before[e.statKey := StatRow(e.statKey,
                    Clamp(StatByKey(stats, e.statKey).value, before[e.statKey].value + e.delta), at)]
  }

  /** Every stat back at its start, the lifetime counters and the unknown rows excepted. */
  function StartedOver(stats: seq<Stat>, rows: Rows, at: real): (out: Rows)
    ensures out.Keys == rows.Keys
  {
    map k | k in rows ::
      match StatByKey(stats, k)
      case None => rows[k]
      case Some(def) => if def.counter then rows[k] else StatRow(k, Clamp(def, def.start), at)
  }

  predicate AllAlive(stats: seq<Stat>, rows: Rows) {
    forall k :: k in rows ==>
      var def := StatByKey(stats, k); def.Some? && def.value.fatal ==> rows[k].value > def.value.min
  }

  /** What a known verb does to a snapshot already advanced to its instant. */
  function Interpret(stats: seq<Stat>, next: Snapshot, action: Action, at: real): Result<Snapshot, Refusal>
    requires EffectsKnown(stats, action.effects)
  {
    if !Alive(next) && !action.revivesFatal then Err(PetDead)
    else if action.needsStat != ""
        && (action.needsStat !in next.rows || next.rows[action.needsStat].value < action.needsAtLeast)
    then Err(NotYet)
    else if action.startsOver then Ok(Snapshot(StartedOver(stats, next.rows, at), None))
    else
      var rows := Moved(stats, next.rows, action.effects, |action.effects|, at);
      if !Alive(next) && action.revivesFatal && AllAlive(stats, rows)
      then Ok(Snapshot(rows, None))
      else Ok(Snapshot(rows, next.diedAt))
  }

  ghost function Apply(cat: Catalogue, s: Snapshot, e: Event): Result<Snapshot, Refusal> {
    match ActionByKey(cat.actions, e.verb)
    case None => Err(UnknownAction)
    case Some(action) =>
      if !EffectsKnown(cat.stats, action.effects) then Err(UnknownStat)
      else Interpret(cat.stats, Advance(cat.stats, s, e.at), action, e.at)
  }

  method ApplyEvent(cat: Catalogue, s: Snapshot, e: Event) returns (r: Result<Snapshot, Refusal>)
    ensures r == Apply(cat, s, e)
  {
    hide Restamp, Earliest, DeathsOver, Clamp;
    var action := ActionByKey(cat.actions, e.verb);
    if action.None? { return Err(UnknownAction); }
    var effects := action.value.effects;
    for i := 0 to |effects|
      invariant forall j :: 0 <= j < i ==> StatByKey(cat.stats, effects[j].statKey).Some?
    {
      if StatByKey(cat.stats, effects[i].statKey).None? { return Err(UnknownStat); }
    }
    var next := AdvanceRows(cat.stats, s, e.at);
    if !Alive(next) && !action.value.revivesFatal { return Err(PetDead); }
    if action.value.needsStat != "" {
      if action.value.needsStat !in next.rows || next.rows[action.value.needsStat].value < action.value.needsAtLeast {
        return Err(NotYet);
      }
    }
    if action.value.startsOver {
      return Ok(Snapshot(StartedOver(cat.stats, next.rows, e.at), None));
    }
    var rows := next.rows;
    for i := 0 to |effects|
      invariant rows == Moved(cat.stats, next.rows, effects, i, e.at)
    {
      var effect := effects[i];
      if effect.statKey !in rows { continue; }
      var def := StatByKey(cat.stats, effect.statKey).value;
      var value := Clamp(def, rows[effect.statKey].value + effect.delta);
      rows := rows[effect.statKey := StatRow(effect.statKey, value, e.at)];
    }
    if !Alive(next) && action.value.revivesFatal && AllAlive(cat.stats, rows) {
      return Ok(Snapshot(rows, None));
    }
    r := Ok(Snapshot(rows, next.diedAt));
  }

  // ---- fold, genesis ----

  /** A whole history in order; an event that cannot be applied is skipped. */
  ghost function Fold(cat: Catalogue, s: Snapshot, events: seq<Event>): Snapshot
    decreases |events|
  {
    if events == [] then s
    else
      var r := Apply(cat, s, events[0]);
      Fold(cat, if r.Ok? then r.value else s, events[1..])
  }

  method FoldEvents(cat: Catalogue, s: Snapshot, events: seq<Event>) returns (out: Snapshot)
    ensures out == Fold(cat, s, events)
  {
    out := s;
    for i := 0 to |events|
      invariant Fold(cat, out, events[i..]) == Fold(cat, s, events)
    {
      assert events[i..][1..] == events[i+1..];
      var r := ApplyEvent(cat, out, events[i]);
      if r.Err? { continue; }
      out := r.value;
    }
  }

  /** The first n stats of the catalogue at their starts. */
  function GenesisRows(stats: seq<Stat>, n: nat, at: real): Rows
    requires n <= |stats|
  {
    if n == 0 then map[]
    else GenesisRows(stats, n - 1, at)[stats[n-1].key := StatRow(stats[n-1].key, stats[n-1].start, at)]
  }

  function Genesis(stats: seq<Stat>, at: real): Snapshot {
    Snapshot(GenesisRows(stats, |stats|, at), None)
  }

  method BuildGenesis(stats: seq<Stat>, at: real) returns (s: Snapshot)
    ensures s == Genesis(stats, at)
  {
    var rows: Rows := map[];
    for i := 0 to |stats|
      invariant rows == GenesisRows(stats, i, at)
    {
      rows := rows[stats[i].key := StatRow(stats[i].key, stats[i].start, at)];
    }
    s := Snapshot(rows, None);
  }
}
