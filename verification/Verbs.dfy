/** What a verb does, said of the snapshot before and after it: which rows move and where to, what is refused and when,
    and what brings a pet back. */
module Verbs {
  import opened Wrappers
  import opened Decay
  import opened Events

  /** A value brought into bounds: kept when it is inside them, and at the nearer bound otherwise. */
  predicate Brought(value: real, asked: real, min: real, max: real) {
    && (min <= asked <= max ==> value == asked) && (asked < min ==> value == min) && (asked > max ==> value == max)
  }

  /** The first action of the catalogue under this verb. */
  ghost predicate Named(actions: seq<Action>, verb: string, a: Action) {
    exists i :: 0 <= i < |actions| && actions[i] == a && a.key == verb
                && forall j :: 0 <= j < i ==> actions[j].key != verb
  }

  predicate Unnamed(actions: seq<Action>, verb: string) { forall i :: 0 <= i < |actions| ==> actions[i].key != verb }

  /** The catalogue has a stat of this key. */
  predicate Known(stats: seq<Stat>, key: string) { exists i :: 0 <= i < |stats| && stats[i].key == key }

  /** Which effects of an action name a stat. */
  predicate Names(effects: seq<StatDelta>, i: int, key: string) { 0 <= i < |effects| && effects[i].statKey == key }

  /** Of the first n effects this one names the stat, and no other does. */
  predicate NamesAlone(effects: seq<StatDelta>, n: nat, i: int, key: string) {
    Names(effects, i, key) && i < n && forall j :: 0 <= j < n && Names(effects, j, key) ==> j == i
  }

  /** Every fatal stat the pet has a row for stands above its floor. */
  predicate AboveEveryFloor(stats: seq<Stat>, rows: Rows) {
    forall k :: k in rows ==>
      (var def := StatByKey(stats, k); def.Some? && def.value.fatal ==> rows[k].value > def.value.min)
  }

  // ---- Looking things up ----

  lemma {:induction false} ActionFound(actions: seq<Action>, verb: string)
    ensures ActionByKey(actions, verb).None? <==> Unnamed(actions, verb)
    ensures ActionByKey(actions, verb).Some? ==> Named(actions, verb, ActionByKey(actions, verb).value)
    decreases |actions|
  {
    if actions != [] && actions[0].key != verb {
      ActionFound(actions[1..], verb);
      var a := ActionByKey(actions[1..], verb);
      if a.Some? {
        var i :| 0 <= i < |actions[1..]| && actions[1..][i] == a.value
                 && forall j :: 0 <= j < i ==> actions[1..][j].key != verb;
        assert actions[i + 1] == a.value;
        forall j | 0 <= j < i + 1 ensures actions[j].key != verb {
          if j > 0 { assert actions[j] == actions[1..][j-1]; }
        }
      } else {
        forall i | 0 <= i < |actions| ensures actions[i].key != verb {
          if i > 0 { assert actions[i] == actions[1..][i-1]; }
        }
      }
    } else if actions != [] {
      assert actions[0].key == verb;
    }
  }

  lemma {:induction false} StatFound(stats: seq<Stat>, key: string)
    ensures StatByKey(stats, key).Some? <==> Known(stats, key)
    decreases |stats|
  {
    if stats != [] && stats[0].key != key {
      StatFound(stats[1..], key);
      if Known(stats, key) {
        var i :| 0 <= i < |stats| && stats[i].key == key;
        assert stats[1..][i-1].key == key;
      }
      if Known(stats[1..], key) {
        var i :| 0 <= i < |stats[1..]| && stats[1..][i].key == key;
        assert stats[i+1].key == key;
      }
    }
  }

  /** The first stat of the catalogue with its key is the one found. */
  lemma {:induction false} FirstStatFound(stats: seq<Stat>, i: nat)
    requires i < |stats| && forall j :: 0 <= j < i ==> stats[j].key != stats[i].key
    ensures StatByKey(stats, stats[i].key) == Some(stats[i])
    decreases |stats|
  {
    if i > 0 { FirstStatFound(stats[1..], i - 1); }
  }

  // ---- Bringing a snapshot to an instant ----

  /** A fatal stat of the catalogue stands on its floor by the instant, read with the others, and its death is derived
      for `d`. */
  predicate DiesAt(stats: seq<Stat>, rows: Rows, k: string, to: real, d: real) {
    && k in rows
    && var def := StatByKey(stats, k);
       && def.Some? && def.value.fatal
       && AtWith(stats, def.value, rows[k].value, rows[k].asOf, to, rows) <= def.value.min
       && DeadAtWith(stats, def.value, rows[k].value, rows[k].asOf, rows) == Some(d)
  }

  /** Brought to an instant, a row of a known stat is that stat read there with the rows it was stored with, and
      stamped; any other is as it was. A recorded death stands; otherwise it is the earliest derived for a stat that
      is on its floor by then, and there is none exactly when no stat is. */
  lemma AnAdvanceIsARead(stats: seq<Stat>, s: Snapshot, to: real)
    ensures var n := Advance(stats, s, to);
            && (forall k :: k in n.rows <==> k in s.rows)
            && (forall k :: k in s.rows ==>
                  (var def, row := StatByKey(stats, k), s.rows[k];
                   && (def.None? ==> n.rows[k] == row)
                   && (def.Some? ==>
                         && n.rows[k].key == k && n.rows[k].asOf == to
                         && n.rows[k].value == AtWith(stats, def.value, row.value, row.asOf, to, s.rows))))
            && (s.diedAt.Some? ==> n.diedAt == s.diedAt)
            && (s.diedAt.None? ==>
                  && (forall k, d :: DiesAt(stats, s.rows, k, to, d) ==> n.diedAt.Some? && n.diedAt.value <= d)
                  && (n.diedAt.Some? ==> exists k :: DiesAt(stats, s.rows, k, to, n.diedAt.value)))
  {
    hide AtWith, DeadAtWith, StatByKey;
    var deaths := DeathsOver(stats, s.rows, s.rows.Keys, to);
    forall k, d | DiesAt(stats, s.rows, k, to, d) ensures k in deaths && deaths[k] == d {}
    forall k | k in deaths ensures DiesAt(stats, s.rows, k, to, deaths[k]) {}
  }

  // ---- Refusals ----

  /** Each refusal happens exactly on its own condition, in their order: nobody knows the verb; an effect moves a stat
      nobody knows; the pet is dead by then and the verb does not revive; the stat it needs is short by then. */
  lemma EachRefusalOnItsOwnCondition(cat: Catalogue, s: Snapshot, e: Event, a: Action)
    requires Unnamed(cat.actions, e.verb) || Named(cat.actions, e.verb, a)
    ensures Apply(cat, s, e) == Err(UnknownAction) <==> Unnamed(cat.actions, e.verb)
    ensures Named(cat.actions, e.verb, a) ==>
            var next := Advance(cat.stats, s, e.at);
            var known := forall i :: 0 <= i < |a.effects| ==> Known(cat.stats, a.effects[i].statKey);
            var dead := next.diedAt.Some? && !a.revivesFatal;
            var short := a.needsStat != ""
                         && (a.needsStat in next.rows ==> next.rows[a.needsStat].value < a.needsAtLeast);
            && (Apply(cat, s, e) == Err(UnknownStat) <==> !known)
            && (Apply(cat, s, e) == Err(PetDead) <==> known && dead)
            && (Apply(cat, s, e) == Err(NotYet) <==> known && !dead && short)
            && (Apply(cat, s, e).Ok? <==> known && !dead && !short)
  {
    hide Advance, Moved, StartedOver, AllAlive, ActionByKey;
    ActionFound(cat.actions, e.verb);
    if Named(cat.actions, e.verb, a) {
      OneIsNamed(cat.actions, e.verb, a, ActionByKey(cat.actions, e.verb));
      forall i | 0 <= i < |a.effects|
        ensures StatByKey(cat.stats, a.effects[i].statKey).Some? <==> Known(cat.stats, a.effects[i].statKey)
      {
        StatFound(cat.stats, a.effects[i].statKey);
      }
    }
  }

  lemma OneIsNamed(actions: seq<Action>, verb: string, a: Action, found: Option<Action>)
    requires Named(actions, verb, a) && (found.None? <==> Unnamed(actions, verb))
    requires found.Some? ==> Named(actions, verb, found.value)
    ensures found == Some(a)
  {
    var i :| 0 <= i < |actions| && actions[i] == a && a.key == verb
             && forall j :: 0 <= j < i ==> actions[j].key != verb;
    assert found.Some?;
    var k :| 0 <= k < |actions| && actions[k] == found.value && found.value.key == verb
             && forall j :: 0 <= j < k ==> actions[j].key != verb;
    assert i == k;
  }

  // ---- What an accepted verb moves ----

  /** What the first n effects leave of one row: nothing of it when none names it, and the one delta when one does. */
  lemma {:induction false} MovedRow(stats: seq<Stat>, rows: Rows, effects: seq<StatDelta>, n: nat, at: real, k: string)
    requires n <= |effects| && EffectsKnown(stats, effects) && k in rows
    ensures (forall i :: 0 <= i < n ==> !Names(effects, i, k)) ==> Moved(stats, rows, effects, n, at)[k] == rows[k]
    ensures forall i :: NamesAlone(effects, n, i, k) ==>
              Moved(stats, rows, effects, n, at)[k]
              == StatRow(k, Clamp(StatByKey(stats, k).value, rows[k].value + effects[i].delta), at)
  {
    hide Clamp;
    if n > 0 {
      MovedRow(stats, rows, effects, n - 1, at, k);
      assert Names(effects, n - 1, k) <==> effects[n-1].statKey == k;
    }
  }

  lemma ClampBrings(def: Stat, asked: real)
    requires def.min <= def.max
    ensures Brought(Clamp(def, asked), asked, def.min, def.max)
  {}

  /** One row, before and after: nothing of it moved when no effect names it, and by the one delta when one does. */
  predicate MovesAsNamed(stats: seq<Stat>, before: Rows, after: Rows, effects: seq<StatDelta>, at: real, k: string)
    requires k in before
  {
    && k in after && ((forall i :: 0 <= i < |effects| ==> !Names(effects, i, k)) ==> after[k] == before[k])
    && forall i :: 0 <= i < |effects| && NamesAlone(effects, |effects|, i, k) ==>
         (var def, row := StatByKey(stats, k), after[k];
          && row.key == k && row.asOf == at && def.Some?
          && Brought(row.value, before[k].value + effects[i].delta, def.value.min, def.value.max))
  }

  lemma RowMovesAsNamed(stats: seq<Stat>, rows: Rows, effects: seq<StatDelta>, at: real, k: string)
    requires EffectsKnown(stats, effects) && k in rows
    requires forall i :: 0 <= i < |stats| ==> stats[i].min <= stats[i].max
    ensures MovesAsNamed(stats, rows, Moved(stats, rows, effects, |effects|, at), effects, at, k)
  {
    hide Moved, Clamp, Brought;
    MovedRow(stats, rows, effects, |effects|, at, k);
    forall i | NamesAlone(effects, |effects|, i, k)
      ensures StatByKey(stats, k).Some?
      ensures var def, asked := StatByKey(stats, k).value, rows[k].value + effects[i].delta;
              Brought(Clamp(def, asked), asked, def.min, def.max)
    {
      assert effects[i].statKey == k;
      ClampBrings(StatByKey(stats, k).value, rows[k].value + effects[i].delta);
    }
  }

  /** An accepted verb that is no reset: a row exactly one effect names is the row brought to its instant plus that
      delta, brought into the stat's bounds and stamped there; a row no effect names is the row brought to the
      instant; and a death is cleared exactly by a reviving verb that leaves every fatal stat above its floor. */
  lemma AnAcceptedVerbMoves(cat: Catalogue, s: Snapshot, e: Event, a: Action)
    requires Named(cat.actions, e.verb, a) && Apply(cat, s, e).Ok? && !a.startsOver
    requires forall i :: 0 <= i < |cat.stats| ==> cat.stats[i].min <= cat.stats[i].max
    ensures var next, out := Advance(cat.stats, s, e.at), Apply(cat, s, e).value;
            && out.rows.Keys == next.rows.Keys
            && forall k :: k in next.rows ==> MovesAsNamed(cat.stats, next.rows, out.rows, a.effects, e.at, k)
    ensures var next, out := Advance(cat.stats, s, e.at), Apply(cat, s, e).value;
            out.diedAt == if a.revivesFatal && AboveEveryFloor(cat.stats, out.rows) then None else next.diedAt
  {
    hide Advance, Moved, StartedOver, ActionByKey, Brought, NamesAlone, Names;
    ActionFound(cat.actions, e.verb);
    OneIsNamed(cat.actions, e.verb, a, ActionByKey(cat.actions, e.verb));
    var next := Advance(cat.stats, s, e.at);
    forall k | k in next.rows
      ensures MovesAsNamed(cat.stats, next.rows, Moved(cat.stats, next.rows, a.effects, |a.effects|, e.at), a.effects,
                           e.at, k)
    {
      RowMovesAsNamed(cat.stats, next.rows, a.effects, e.at, k);
    }
  }

  /** An accepted reset: every known row stands at its start, brought into bounds and stamped at the instant, except the
      lifetime counters, which like the unknown rows are as they were brought to it; and nobody is dead. */
  lemma AnAcceptedResetStartsOver(cat: Catalogue, s: Snapshot, e: Event, a: Action)
    requires Named(cat.actions, e.verb, a) && Apply(cat, s, e).Ok? && a.startsOver
    requires forall i :: 0 <= i < |cat.stats| ==> cat.stats[i].min <= cat.stats[i].max
    ensures var next, out := Advance(cat.stats, s, e.at), Apply(cat, s, e).value;
            && out.rows.Keys == next.rows.Keys && out.diedAt.None?
            && forall k :: k in next.rows ==>
                 (var def := StatByKey(cat.stats, k);
                  && (def.None? || def.value.counter ==> out.rows[k] == next.rows[k])
                  && (def.Some? && !def.value.counter ==>
                        && out.rows[k].key == k && out.rows[k].asOf == e.at
                        && Brought(out.rows[k].value, def.value.start, def.value.min, def.value.max)))
  {
    hide Advance, Moved, ActionByKey, Clamp, Brought;
    ActionFound(cat.actions, e.verb);
    OneIsNamed(cat.actions, e.verb, a, ActionByKey(cat.actions, e.verb));
    var next := Advance(cat.stats, s, e.at);
    forall k | k in next.rows && StatByKey(cat.stats, k).Some?
      ensures var def := StatByKey(cat.stats, k).value; Brought(Clamp(def, def.start), def.start, def.min, def.max)
    {
      ClampBrings(StatByKey(cat.stats, k).value, StatByKey(cat.stats, k).value.start);
    }
  }

  // ---- A pet is born ----

  /** A newborn has exactly one row for every stat of the catalogue, at its start and stamped at birth, and is alive. */
  lemma ANewbornHasEveryStat(stats: seq<Stat>, at: real)
    requires forall i, j :: 0 <= i < j < |stats| ==> stats[i].key != stats[j].key
    ensures var born := Genesis(stats, at);
            && born.diedAt.None?
            && (forall k :: k in born.rows <==> exists i :: 0 <= i < |stats| && stats[i].key == k)
            && forall i :: 0 <= i < |stats| ==> born.rows[stats[i].key] == StatRow(stats[i].key, stats[i].start, at)
  {
    hide GenesisRows;
    NewbornKeys(stats, |stats|, at);
    NewbornRows(stats, |stats|, at);
  }

  lemma {:induction false} NewbornKeys(stats: seq<Stat>, n: nat, at: real)
    requires n <= |stats|
    ensures forall k :: k in GenesisRows(stats, n, at) <==> exists i :: 0 <= i < n && stats[i].key == k
  {
    if n > 0 {
      NewbornKeys(stats, n - 1, at);
      assert forall k :: k in GenesisRows(stats, n, at) <==> k in GenesisRows(stats, n - 1, at) || k == stats[n-1].key;
    }
  }

  lemma {:induction false} NewbornRows(stats: seq<Stat>, n: nat, at: real)
    requires n <= |stats| && forall i, j :: 0 <= i < j < |stats| ==> stats[i].key != stats[j].key
    ensures forall i :: 0 <= i < n ==>
              && stats[i].key in GenesisRows(stats, n, at)
              && GenesisRows(stats, n, at)[stats[i].key] == StatRow(stats[i].key, stats[i].start, at)
  {
    if n > 0 { NewbornRows(stats, n - 1, at); }
  }
}
