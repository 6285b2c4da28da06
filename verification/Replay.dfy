/** Folding the log of a pet from its genesis gives the very pet the live path produced. */
module Replay {
  import opened Wrappers
  import opened Decay
  import opened FirstHit
  import opened Reads
  import opened Instants
  import opened Events

  /** As far as a Duration reaches, or for ever if every stat of the catalogue exhausts its scale. */
  predicate AllInReach(stats: seq<Stat>, asOf: real, t: real) {
    forall i :: 0 <= i < |stats| ==> InReach(stats[i], asOf, t)
  }

  // ---- advance composes ----

  lemma DiedIsDead(stats: seq<Stat>, rows: Rows, asOf: real, k: string, to: real)
    requires WellFormed(stats) && Stamped(stats, rows, asOf) && asOf <= to && AllInReach(stats, asOf, to)
    requires k in rows && StatByKey(stats, k).Some?
    ensures var def := StatByKey(stats, k).value;
            Died(stats, rows, k, to) <==> Dead(stats, def, rows[k].value, asOf, to, rows)
    ensures Died(stats, rows, k, to) ==> DeathOf(stats, rows, k, to) <= to
  {
    hide AtWith, DeadAtWith, Taken;
    var def := StatByKey(stats, k).value;
    FitsByKey(stats, stats, k);
    assert RowFits(stats, rows[k], asOf);
    StampedIsStampedBy(stats, rows, asOf);
    if def.fatal { DeathIsThreshold(stats, def, rows[k].value, asOf, rows, to); }
  }

  /** One row, seen at `t` and again at `u`: it dies by `u` either way, and at the same instant. */
  lemma DeathSurvivesRead(stats: seq<Stat>, rows: Rows, asOf: real, t: real, u: real, k: string)
    requires WellFormed(stats) && Stamped(stats, rows, asOf) && asOf <= t <= u && AllInReach(stats, asOf, u)
    requires k in rows && StatByKey(stats, k).Some?
    ensures Died(stats, rows, k, t) ==>
              Died(stats, rows, k, u) && DeathOf(stats, rows, k, u) == DeathOf(stats, rows, k, t)
    ensures !Died(stats, rows, k, t) && Died(stats, rows, k, u) ==> DeathOf(stats, rows, k, u) > t
    ensures !Died(stats, rows, k, t) ==>
              (Died(stats, Restamp(stats, rows, t), k, u) <==> Died(stats, rows, k, u))
    ensures !Died(stats, rows, k, t) && Died(stats, rows, k, u) ==>
              DeathOf(stats, Restamp(stats, rows, t), k, u) == DeathOf(stats, rows, k, u)
  {
    hide AtWith, DeadAtWith, Taken;
    var def, later := StatByKey(stats, k).value, Restamp(stats, rows, t);
    FitsByKey(stats, stats, k);
    assert RowFits(stats, rows[k], asOf);
    RestampStamps(stats, rows, asOf, t);
    DiedIsDead(stats, rows, asOf, k, t);
    DiedIsDead(stats, rows, asOf, k, u);
    DiedIsDead(stats, later, t, k, u);
    if def.fatal {
      SameDeath(stats, def, rows[k].value, asOf, rows, t, t);
      SameDeath(stats, def, rows[k].value, asOf, rows, t, u);
      if !Died(stats, rows, k, t) && Died(stats, rows, k, u) {
        DeathsAgree(stats, def, rows[k].value, asOf, rows, t, u);
      }
    }
  }

  lemma RestampComposes(stats: seq<Stat>, rows: Rows, asOf: real, t: real, u: real)
    requires WellFormed(stats) && Stamped(stats, rows, asOf) && asOf <= t <= u && AllInReach(stats, asOf, u)
    ensures Restamp(stats, Restamp(stats, rows, t), u) == Restamp(stats, rows, u)
  {
    hide AtWith, Taken;
    var once, twice := Restamp(stats, rows, u), Restamp(stats, Restamp(stats, rows, t), u);
    forall k | k in rows ensures twice[k] == once[k] {
      assert RowFits(stats, rows[k], asOf);
      var def := StatByKey(stats, k);
      if def.Some? {
        FitsByKey(stats, stats, k);
        ReadsCompose(stats, def.value, rows[k].value, asOf, rows, t, u);
      }
    }
  }

  lemma DeathsCompose(stats: seq<Stat>, rows: Rows, asOf: real, t: real, u: real)
    requires WellFormed(stats) && Stamped(stats, rows, asOf) && asOf <= t <= u && AllInReach(stats, asOf, u)
    ensures var first := Earliest(DeathsOver(stats, rows, rows.Keys, t));
            Earliest(DeathsOver(stats, rows, rows.Keys, u)) ==
            if first.Some? then first
            else Earliest(DeathsOver(stats, Restamp(stats, rows, t), rows.Keys, u))
  {
    hide DeathsOver, Restamp;
    var early, late := DeathsOver(stats, rows, rows.Keys, t), DeathsOver(stats, rows, rows.Keys, u);
    var again := DeathsOver(stats, Restamp(stats, rows, t), rows.Keys, u);
    forall k
      ensures k in early ==> k in late && late[k] == early[k] && early[k] <= t
      ensures k !in early && k in late ==> late[k] > t
      ensures k !in early ==> (k in again <==> k in late) && (k in late ==> again[k] == late[k])
    {
      DeathsPointwise(stats, rows, asOf, t, u, k);
    }
    if Earliest(early).None? {
      assert again == late;
    } else {
      EarliestStays(early, late, t);
    }
  }

  lemma DeathsPointwise(stats: seq<Stat>, rows: Rows, asOf: real, t: real, u: real, k: string)
    requires WellFormed(stats) && Stamped(stats, rows, asOf) && asOf <= t <= u && AllInReach(stats, asOf, u)
    ensures var early, late := DeathsOver(stats, rows, rows.Keys, t), DeathsOver(stats, rows, rows.Keys, u);
            var again := DeathsOver(stats, Restamp(stats, rows, t), rows.Keys, u);
            && (k in early ==> k in late && late[k] == early[k] && early[k] <= t)
            && (k !in early && k in late ==> late[k] > t)
            && (k !in early ==> (k in again <==> k in late) && (k in late ==> again[k] == late[k]))
  {
    hide AtWith, DeadAtWith, Taken, Dead;
    if k in rows && StatByKey(stats, k).Some? {
      DeathSurvivesRead(stats, rows, asOf, t, u, k);
      DiedIsDead(stats, rows, asOf, k, t);
    }
  }

  /** Reading twice is reading once, rows and recorded death alike. */
  lemma AdvanceComposes(stats: seq<Stat>, s: Snapshot, asOf: real, t: real, u: real)
    requires WellFormed(stats) && Stamped(stats, s.rows, asOf) && asOf <= t <= u && AllInReach(stats, asOf, u)
    ensures Advance(stats, Advance(stats, s, t), u) == Advance(stats, s, u)
  {
    hide AtWith, DeadAtWith, Taken, Restamp, DeathsOver, Earliest;
    RestampComposes(stats, s.rows, asOf, t, u);
    DeathsCompose(stats, s.rows, asOf, t, u);
  }

  // ---- A verb keeps what the next read needs ----

  lemma AdvanceStamps(stats: seq<Stat>, s: Snapshot, asOf: real, t: real)
    requires WellFormed(stats) && Stamped(stats, s.rows, asOf) && asOf <= t
    ensures Stamped(stats, Advance(stats, s, t).rows, t)
  {
    RestampStamps(stats, s.rows, asOf, t);
  }

  lemma {:induction false} MovedStamps(stats: seq<Stat>, rows: Rows, effects: seq<StatDelta>, n: nat, at: real)
    requires WellFormed(stats) && Stamped(stats, rows, at) && n <= |effects| && EffectsKnown(stats, effects)
    ensures Stamped(stats, Moved(stats, rows, effects, n, at), at)
  {
    if n > 0 {
      MovedStamps(stats, rows, effects, n - 1, at);
      FitsByKey(stats, stats, effects[n-1].statKey);
    }
  }

  lemma StartedOverStamps(stats: seq<Stat>, rows: Rows, at: real)
    requires WellFormed(stats) && Stamped(stats, rows, at)
    ensures Stamped(stats, StartedOver(stats, rows, at), at)
  {
    var out := StartedOver(stats, rows, at);
    forall k | k in out ensures out[k].key == k && RowFits(stats, out[k], at) {
      assert RowFits(stats, rows[k], at);
      FitsByKey(stats, stats, k);
    }
  }

  lemma ApplyStamps(cat: Catalogue, s: Snapshot, asOf: real, e: Event)
    requires WellFormed(cat.stats) && Stamped(cat.stats, s.rows, asOf) && asOf <= e.at
    ensures Apply(cat, s, e).Ok? ==> Stamped(cat.stats, Apply(cat, s, e).value.rows, e.at)
  {
    hide Advance, Restamp, Stamped;
    var action := ActionByKey(cat.actions, e.verb);
    if Apply(cat, s, e).Ok? {
      AdvanceStamps(cat.stats, s, asOf, e.at);
      var rows, effects := Advance(cat.stats, s, e.at).rows, action.value.effects;
      StartedOverStamps(cat.stats, rows, e.at);
      MovedStamps(cat.stats, rows, effects, |effects|, e.at);
    }
  }

  lemma {:induction false} GenesisStamps(stats: seq<Stat>, n: nat, at: real)
    requires WellFormed(stats) && n <= |stats|
    ensures Stamped(stats, GenesisRows(stats, n, at), at)
  {
    if n > 0 {
      GenesisStamps(stats, n - 1, at);
      KeyFindsItself(stats, stats, n - 1);
    }
  }

  lemma {:induction false} KeyFindsItself(stats: seq<Stat>, tail: seq<Stat>, i: nat)
    requires forall a, b :: 0 <= a < b < |tail| ==> tail[a].key != tail[b].key
    requires i < |tail|
    ensures StatByKey(tail, tail[i].key) == Some(tail[i])
    decreases |tail|
  {
    if i > 0 { KeyFindsItself(stats, tail[1..], i - 1); }
  }

  // ---- The live path against the log ----

  /** What happens to a pet: somebody looks, which materialises a death; a checkpoint re-stamps every row; or a
      batch of verbs is pressed, which rules about the moment (where he stands, what is left) may refuse. */
  datatype Happening =
    | Look(at: real)
    | Checkpoint(at: real)
    | Press(verbs: seq<string>, at: real, allowed: bool)

  /** A batch is refused whole if any verb in it is refused. */
  ghost function ApplyAll(cat: Catalogue, s: Snapshot, verbs: seq<string>, at: real): Result<Snapshot, Refusal>
    decreases |verbs|
  {
    if verbs == [] then Ok(s)
    else
      match Apply(cat, s, Event(verbs[0], at))
      case Err(e) => Err(e)
      case Ok(next) => ApplyAll(cat, next, verbs[1..], at)
  }

  function Logged(verbs: seq<string>, at: real): seq<Event> {
    seq(|verbs|, i requires 0 <= i < |verbs| => Event(verbs[i], at))
  }

  /** The stored snapshot and the log, written together. */
  datatype Pet = Pet(state: Snapshot, log: seq<Event>)

  ghost function LookAt(cat: Catalogue, s: Snapshot, at: real): Snapshot {
    Snapshot(s.rows, Advance(cat.stats, s, at).diedAt)
  }

  ghost function Live(cat: Catalogue, p: Pet, h: Happening): Pet {
    match h
    case Look(at) => p.(state := LookAt(cat, p.state, at))
    case Checkpoint(at) => p.(state := Advance(cat.stats, p.state, at))
    case Press(verbs, at, allowed) =>
      var seen := LookAt(cat, p.state, at);
      var r := ApplyAll(cat, seen, verbs, at);
      if allowed && r.Ok? then Pet(r.value, p.log + Logged(verbs, at)) else p.(state := seen)
  }

  ghost function LiveRun(cat: Catalogue, p: Pet, hs: seq<Happening>): Pet
    decreases |hs|
  {
    if hs == [] then p else LiveRun(cat, Live(cat, p, hs[0]), hs[1..])
  }

  predicate InOrder(hs: seq<Happening>, from: real, to: real)
    decreases |hs|
  {
    if hs == [] then from <= to else from <= hs[0].at && InOrder(hs[1..], hs[0].at, to)
  }

  /** Two snapshots nobody will ever be able to tell apart: every later read of both is the same read. */
  ghost predicate Alike(cat: Catalogue, a: Snapshot, b: Snapshot, now: real, horizon: real) {
    forall t :: now <= t <= horizon ==> Advance(cat.stats, a, t) == Advance(cat.stats, b, t)
  }

  ghost predicate Usable(cat: Catalogue, s: Snapshot, born: real, now: real) {
    exists asOf :: born <= asOf <= now && Stamped(cat.stats, s.rows, asOf)
  }

  lemma LookIsHarmless(cat: Catalogue, s: Snapshot, asOf: real, at: real, horizon: real)
    requires WellFormed(cat.stats) && Stamped(cat.stats, s.rows, asOf)
    requires asOf <= at && AllInReach(cat.stats, asOf, horizon)
    ensures Alike(cat, LookAt(cat, s, at), s, at, horizon)
    ensures Alike(cat, Advance(cat.stats, s, at), s, at, horizon)
  {
    hide Restamp, Earliest, DeathsOver;
    forall t | at <= t <= horizon
      ensures Advance(cat.stats, LookAt(cat, s, at), t) == Advance(cat.stats, s, t)
      ensures Advance(cat.stats, Advance(cat.stats, s, at), t) == Advance(cat.stats, s, t)
    {
      AdvanceComposes(cat.stats, s, asOf, at, t);
    }
  }

  lemma {:induction false} FoldAppends(cat: Catalogue, s: Snapshot, a: seq<Event>, b: seq<Event>)
    ensures Fold(cat, s, a + b) == Fold(cat, Fold(cat, s, a), b)
    decreases |a|
  {
    hide Apply;
    if a == [] {
      assert a + b == b;
    } else {
      assert (a + b)[0] == a[0] && (a + b)[1..] == a[1..] + b;
      var r := Apply(cat, s, a[0]);
      FoldAppends(cat, if r.Ok? then r.value else s, a[1..], b);
    }
  }

  /** An accepted batch, replayed from any snapshot that reads alike, gives exactly the accepted snapshot. */
  lemma {:induction false} AcceptedBatchReplays(cat: Catalogue, live: Snapshot, replay: Snapshot, verbs: seq<string>,
                                                at: real)
    requires verbs != [] && Advance(cat.stats, live, at) == Advance(cat.stats, replay, at)
    requires ApplyAll(cat, live, verbs, at).Ok?
    ensures Fold(cat, replay, Logged(verbs, at)) == ApplyAll(cat, live, verbs, at).value
    decreases |verbs|
  {
    hide Interpret, Advance;
    var log := Logged(verbs, at);
    assert log[0] == Event(verbs[0], at) && log[1..] == Logged(verbs[1..], at);
    assert Apply(cat, live, log[0]) == Apply(cat, replay, log[0]);
    var next := Apply(cat, live, log[0]).value;
    if verbs[1..] == [] {
      assert log[1..] == [];
    } else {
      AcceptedBatchReplays(cat, next, next, verbs[1..], at);
    }
  }

  lemma {:induction false} BatchStamps(cat: Catalogue, s: Snapshot, asOf: real, verbs: seq<string>, at: real)
    requires WellFormed(cat.stats) && Stamped(cat.stats, s.rows, asOf) && asOf <= at && verbs != []
    ensures ApplyAll(cat, s, verbs, at).Ok? ==> Stamped(cat.stats, ApplyAll(cat, s, verbs, at).value.rows, at)
    decreases |verbs|
  {
    hide Apply, Stamped;
    ApplyStamps(cat, s, asOf, Event(verbs[0], at));
    var r := Apply(cat, s, Event(verbs[0], at));
    if r.Ok? && verbs[1..] != [] { BatchStamps(cat, r.value, at, verbs[1..], at); }
  }

  /** One happening keeps the stored snapshot and the folded log alike. */
  lemma StepKeepsAlike(cat: Catalogue, p: Pet, origin: Snapshot, h: Happening, born: real, now: real, horizon: real)
    requires WellFormed(cat.stats) && born <= now <= h.at <= horizon && AllInReach(cat.stats, born, horizon)
    requires Usable(cat, p.state, born, now) && Usable(cat, Fold(cat, origin, p.log), born, now)
    requires Alike(cat, p.state, Fold(cat, origin, p.log), now, horizon)
    ensures var q := Live(cat, p, h);
            Usable(cat, q.state, born, h.at) && Usable(cat, Fold(cat, origin, q.log), born, h.at)
            && Alike(cat, q.state, Fold(cat, origin, q.log), h.at, horizon)
  {
    hide Restamp, Earliest, DeathsOver, Apply, Stamped, ApplyAll, Fold;
    var asOf :| born <= asOf <= now && Stamped(cat.stats, p.state.rows, asOf);
    LookIsHarmless(cat, p.state, asOf, h.at, horizon);
    AdvanceStamps(cat.stats, p.state, asOf, h.at);
    var q, replay := Live(cat, p, h), Fold(cat, origin, p.log);
    var seen := LookAt(cat, p.state, h.at);
    if h.Press? && h.allowed && ApplyAll(cat, seen, h.verbs, h.at).Ok? {
      FoldAppends(cat, origin, p.log, Logged(h.verbs, h.at));
      if h.verbs == [] {
        EmptyBatch(cat, seen, replay, h.at);
      } else {
        AcceptedBatchReplays(cat, seen, replay, h.verbs, h.at);
        BatchStamps(cat, seen, asOf, h.verbs, h.at);
      }
    }
  }

  lemma EmptyBatch(cat: Catalogue, seen: Snapshot, replay: Snapshot, at: real)
    ensures ApplyAll(cat, seen, [], at) == Ok(seen)
    ensures Fold(cat, replay, Logged([], at)) == replay
  {}

  /** The instant of the last thing that happened. */
  function EndOf(hs: seq<Happening>, from: real): real
    decreases |hs|
  {
    if hs == [] then from else EndOf(hs[1..], hs[0].at)
  }

  /** From the last happening of any run on, the stored snapshot and the folded log can never be told apart; and a run
      stopped anywhere is a run. */
  lemma {:induction false} RunKeepsAlike(cat: Catalogue, p: Pet, origin: Snapshot, hs: seq<Happening>, born: real,
                                         now: real, horizon: real)
    requires WellFormed(cat.stats) && born <= now && InOrder(hs, now, horizon) && AllInReach(cat.stats, born, horizon)
    requires Usable(cat, p.state, born, now) && Usable(cat, Fold(cat, origin, p.log), born, now)
    requires Alike(cat, p.state, Fold(cat, origin, p.log), now, horizon)
    ensures var q := LiveRun(cat, p, hs);
            Alike(cat, q.state, Fold(cat, origin, q.log), EndOf(hs, now), horizon) && now <= EndOf(hs, now) <= horizon
    decreases |hs|
  {
    hide Restamp, Earliest, DeathsOver, Apply, Stamped, ApplyAll, Fold, Live, Usable;
    if hs != [] {
      InOrderEnds(hs[1..], hs[0].at, horizon);
      StepKeepsAlike(cat, p, origin, hs[0], born, now, horizon);
      RunKeepsAlike(cat, Live(cat, p, hs[0]), origin, hs[1..], born, hs[0].at, horizon);
    }
  }

  lemma {:induction false} InOrderEnds(hs: seq<Happening>, from: real, to: real)
    requires InOrder(hs, from, to)
    ensures from <= to
    decreases |hs|
  {
    if hs != [] { InOrderEnds(hs[1..], hs[0].at, to); }
  }

  /** The claim the event log exists for: whatever was looked at, checkpointed, pressed and refused since the pet was
      born, folding the log alone from genesis and bringing it to `now` gives the stored pet brought to `now`. */
  lemma ReplayEqualsLive(cat: Catalogue, born: real, hs: seq<Happening>, now: real)
    requires WellFormed(cat.stats) && InOrder(hs, born, now) && AllInReach(cat.stats, born, now)
    ensures var pet := LiveRun(cat, Pet(Genesis(cat.stats, born), []), hs);
            Advance(cat.stats, Fold(cat, Genesis(cat.stats, born), pet.log), now) == Advance(cat.stats, pet.state, now)
  {
    hide Restamp, Earliest, DeathsOver, Apply, ApplyAll, Live;
    var origin := Genesis(cat.stats, born);
    GenesisStamps(cat.stats, |cat.stats|, born);
    InOrderEnds(hs, born, now);
    assert Fold(cat, origin, []) == origin;
    RunKeepsAlike(cat, Pet(origin, []), origin, hs, born, born, now);
  }

  // ---- What a press is ----

  /** Each verb in turn, accepted from what the one before it left. */
  ghost predicate InTurn(cat: Catalogue, verbs: seq<string>, at: real, states: seq<Snapshot>) {
    && |states| == |verbs| + 1
    && forall i :: 0 <= i < |verbs| ==> Apply(cat, states[i], Event(verbs[i], at)) == Ok(states[i+1])
  }

  lemma {:induction false} AllInTurn(cat: Catalogue, s: Snapshot, verbs: seq<string>, at: real)
    ensures ApplyAll(cat, s, verbs, at).Ok? ==>
              exists states :: InTurn(cat, verbs, at, states) && states[0] == s
                && states[|verbs|] == ApplyAll(cat, s, verbs, at).value
    ensures forall states :: InTurn(cat, verbs, at, states) && states[0] == s ==>
              ApplyAll(cat, s, verbs, at) == Ok(states[|verbs|])
    decreases |verbs|
  {
    hide Apply;
    if verbs == [] {
      assert InTurn(cat, verbs, at, [s]);
    } else {
      var first := Apply(cat, s, Event(verbs[0], at));
      if first.Ok? {
        AllInTurn(cat, first.value, verbs[1..], at);
        if ApplyAll(cat, s, verbs, at).Ok? {
          var rest :| InTurn(cat, verbs[1..], at, rest) && rest[0] == first.value
            && rest[|verbs|-1] == ApplyAll(cat, first.value, verbs[1..], at).value;
          Before(cat, s, verbs, at, rest);
        }
      }
      forall states | InTurn(cat, verbs, at, states) && states[0] == s
        ensures ApplyAll(cat, s, verbs, at) == Ok(states[|verbs|])
      {
        assert Apply(cat, states[0], Event(verbs[0], at)) == Ok(states[1]);
        After(cat, verbs, at, states);
      }
    }
  }

  lemma Before(cat: Catalogue, s: Snapshot, verbs: seq<string>, at: real, rest: seq<Snapshot>)
    requires verbs != [] && InTurn(cat, verbs[1..], at, rest) && Apply(cat, s, Event(verbs[0], at)) == Ok(rest[0])
    ensures InTurn(cat, verbs, at, [s] + rest)
  {
    hide Apply;
    var states := [s] + rest;
    forall i | 0 <= i < |verbs| ensures Apply(cat, states[i], Event(verbs[i], at)) == Ok(states[i+1]) {
      if i > 0 { assert Apply(cat, rest[i-1], Event(verbs[1..][i-1], at)) == Ok(rest[i]); }
    }
  }

  lemma After(cat: Catalogue, verbs: seq<string>, at: real, states: seq<Snapshot>)
    requires verbs != [] && InTurn(cat, verbs, at, states)
    ensures InTurn(cat, verbs[1..], at, states[1..])
  {
    hide Apply;
    forall i | 0 <= i < |verbs| - 1
      ensures Apply(cat, states[1..][i], Event(verbs[1..][i], at)) == Ok(states[1..][i+1])
    {
      assert Apply(cat, states[i+1], Event(verbs[i+1], at)) == Ok(states[i+2]);
    }
  }

  /** A press that is allowed and whose verbs are all accepted, each from what the one before left, is stored as the
      last of them left it and logged verb by verb; any other leaves the rows and the log as they were. A look and a
      checkpoint log nothing. */
  lemma APressIsAllOrNothing(cat: Catalogue, p: Pet, verbs: seq<string>, at: real, allowed: bool, states: seq<Snapshot>)
    ensures var seen := Snapshot(p.state.rows, Advance(cat.stats, p.state, at).diedAt);
            var n := Live(cat, p, Press(verbs, at, allowed));
            && (allowed && InTurn(cat, verbs, at, states) && states[0] == seen ==>
                  && n.state == states[|verbs|] && |n.log| == |p.log| + |verbs| && p.log == n.log[..|p.log|]
                  && forall i :: 0 <= i < |verbs| ==> n.log[|p.log| + i] == Event(verbs[i], at))
            && ((!allowed || forall ss :: !(InTurn(cat, verbs, at, ss) && ss[0] == seen)) ==>
                  n.log == p.log && n.state == seen)
    ensures Live(cat, p, Look(at)).log == p.log && Live(cat, p, Checkpoint(at)).log == p.log
    ensures Live(cat, p, Checkpoint(at)).state == Advance(cat.stats, p.state, at)
    ensures Live(cat, p, Look(at)).state.rows == p.state.rows
  {
    hide Apply, Advance, ApplyAll;
    var seen := Snapshot(p.state.rows, Advance(cat.stats, p.state, at).diedAt);
    AllInTurn(cat, seen, verbs, at);
  }
}
