/** Exactly when the decay engine is exact: each hypothesis of the reads and of the derived death, with its converse. */
module Limits {
  import opened Wrappers
  import opened Decay
  import opened FirstHit
  import opened Reads

  // ---- The onset of a penalty ----

  /** A driver's row, stored at an instant. */
  function RowOf(def: Stat, value: real, asOf: real): StatRow { StatRow(def.key, value, asOf) }

  predicate Applies(from: Option<real>, t: real) { from.Some? && from.value <= t }

  /** The closed-form onset tells, of every row in bounds and every instant a Duration reaches, whether the penalty's
      condition holds then. */
  ghost predicate OnsetTells(def: Stat, p: Penalty) {
    forall value, asOf, t :: def.min <= value <= def.max && asOf <= t <= asOf + MAX_SPAN ==>
      (Applies(OnsetOf(def, p, RowOf(def, value, asOf), asOf), t) <==> Holds(p, At(def, value, asOf, t)))
  }

  /** A row and an instant at which the onset of an unfit driver is wrong. */
  lemma WrongOnset(def: Stat, p: Penalty) returns (value: real, t: real)
    requires def.min <= def.max && !OnsetFits(def, p)
    ensures def.min <= value <= def.max && 0.0 <= t <= MAX_SPAN
    ensures !(Applies(OnsetOf(def, p, RowOf(def, value, 0.0), 0.0), t) <==> Holds(p, At(def, value, 0.0, t)))
  {
    hide Taken, TimeToTake;
    var k, at := def.decayPerHour, p.threshold;
    TakenSplits(k, 0.0, 0.0);
    if p.above == (k > 0.0) {
      value, t := at, 1.0;
      TakenNegates(k, 1.0);
      TakenGrowsStrictly(AbsR(k), 0.0, 1.0);
      TakenSplits(AbsR(k), 0.0, 0.0);
    } else {
      value := if p.above then def.max else def.min;
      t := TimeToTake(value - at, k);
      CrossingIsSharp(k, value - at, MAX_SPAN);
      CrossingIsSharp(k, value - at, 0.0);
      TakenNegates(k, MAX_SPAN);
      TakenNegates(k, t);
    }
  }

  /** The onset is exact if and only if the driver fits: it moves towards the threshold or stands still, or the
      threshold is one its bounds or the longest Duration keep it from. */
  lemma OnsetTellsExactlyWhenItFits(def: Stat, p: Penalty)
    requires def.min <= def.max
    ensures OnsetTells(def, p) <==> OnsetFits(def, p)
  {
    hide OnsetFits, OnsetOf, Holds, At;
    if OnsetFits(def, p) {
      forall value, asOf, t | def.min <= value <= def.max && asOf <= t <= asOf + MAX_SPAN
        ensures Applies(OnsetOf(def, p, RowOf(def, value, asOf), asOf), t) <==> Holds(p, At(def, value, asOf, t))
      {
        OnsetOfIsWhenItHolds(def, p, RowOf(def, value, asOf), t);
      }
    } else {
      var value, t := WrongOnset(def, p);
      assert !(Applies(OnsetOf(def, p, RowOf(def, value, 0.0), 0.0), t) <==> Holds(p, At(def, value, 0.0, t)));
    }
  }

  /** Every reader of this one penalty, over a catalogue of it and its driver, composes within a Duration. */
  ghost predicate ReadersCompose(def: Stat, p: Penalty) {
    forall s: Stat, value, rows, t, u ::
      s.penalties == [p] && Drains(s) && s.min <= s.start <= s.max && s.key != def.key && s.min <= value <= s.max
      && Stamped([def, s], rows, 0.0) && 0.0 <= t <= u <= MAX_SPAN ==>
        AtWith([def, s], s, AtWith([def, s], s, value, 0.0, t, rows), t, u, Restamp([def, s], rows, t))
        == AtWith([def, s], s, value, 0.0, u, rows)
  }

  lemma TwoStats(def: Stat, s: Stat)
    requires def.key != s.key
    ensures StatByKey([def, s], def.key) == Some(def) && StatByKey([def, s], s.key) == Some(s)
  {
    assert [def, s][1..] == [s];
  }

  /** A driver standing on its threshold and moving away from the condition: read at two hours the penalty ran for both,
      read at one and then at two it ran for one. */
  lemma WrongWayDriverBreaksReads(def: Stat, p: Penalty, s: Stat, rows: Rows)
    requires def.penalties == [] && def.key == p.whenKey && s.key != def.key && p.ratePerHour > 0.0
    requires def.min <= p.threshold <= def.max && !OnsetFits(def, p)
    requires s == Stat(s.key, 0.0, 2.0 * p.ratePerHour, 0.0, 0.0, false, false, [p])
    requires rows == map[def.key := RowOf(def, p.threshold, 0.0)]
    ensures AtWith([def, s], s, 2.0 * p.ratePerHour, 0.0, 2.0, rows) == 0.0
    ensures AtWith([def, s], s, AtWith([def, s], s, 2.0 * p.ratePerHour, 0.0, 1.0, rows), 1.0, 2.0,
            Restamp([def, s], rows, 1.0)) == p.ratePerHour
  {
    var stats, ps, r, k := [def, s], s.penalties, p.ratePerHour, def.decayPerHour;
    TwoStats(def, s);
    assert MAX_SPAN > 2.0;
    assert Onset(stats, p, 0.0, rows) == Some(0.0);
    assert PenaltyDrop(stats, ps, 0, 0.0, 1.0, rows) == 0.0 && PenaltyDrop(stats, ps, 0, 0.0, 2.0, rows) == 0.0;
    assert PenaltyDrop(stats, ps, 1, 0.0, 1.0, rows) == r && PenaltyDrop(stats, ps, 1, 0.0, 2.0, rows) == r * 2.0;
    var later := Restamp(stats, rows, 1.0);
    NoDropWithoutPenalties(stats, def, p.threshold, 0.0, 1.0, rows);
    assert later[def.key] == RowOf(def, At(def, p.threshold, 0.0, 1.0), 1.0);
    assert Onset(stats, p, 1.0, later).None?;
    assert PenaltyDrop(stats, ps, 0, 1.0, 2.0, later) == 0.0 && PenaltyDrop(stats, ps, 1, 1.0, 2.0, later) == 0.0;
  }

  /** For a threshold inside its driver's bounds: reads compose for every reader of the penalty if and only if the
      driver fits it. */
  lemma ReadersComposeExactlyWhenItFits(def: Stat, p: Penalty)
    requires def.penalties == [] && !def.fatal && def.key == p.whenKey && def.min <= def.start <= def.max
    requires p.ratePerHour > 0.0 && def.min <= p.threshold <= def.max
    ensures ReadersCompose(def, p) <==> OnsetFits(def, p)
  {
    if OnsetFits(def, p) {
      forall s: Stat, value, rows, t, u |
        s.penalties == [p] && Drains(s) && s.min <= s.start <= s.max && s.key != def.key && s.min <= value <= s.max
        && Stamped([def, s], rows, 0.0) && 0.0 <= t <= u <= MAX_SPAN
        ensures AtWith([def, s], s, AtWith([def, s], s, value, 0.0, t, rows), t, u, Restamp([def, s], rows, t))
             == AtWith([def, s], s, value, 0.0, u, rows)
      {
        hide AtWith, Restamp, Stamped, OnsetFits;
        TwoStats(def, s);
        assert WellFormed([def, s]);
        ReadsCompose([def, s], s, value, 0.0, rows, t, u);
      }
    } else {
      hide OnsetFits, AtWith, Restamp;
      var s := Stat(def.key + "x", 0.0, 2.0 * p.ratePerHour, 0.0, 0.0, false, false, [p]);
      assert |s.key| == |def.key| + 1;
      var rows := map[def.key := RowOf(def, p.threshold, 0.0)];
      WrongWayDriverBreaksReads(def, p, s, rows);
      TwoStats(def, s);
      assert Stamped([def, s], rows, 0.0);
      var value, t, u := 2.0 * p.ratePerHour, 1.0, 2.0;
      assert AtWith([def, s], s, AtWith([def, s], s, value, 0.0, t, rows), t, u, Restamp([def, s], rows, t))
          != AtWith([def, s], s, value, 0.0, u, rows);
    }
  }

  // ---- The longest Duration ----

  /** Reads of one stat compose over rows of the catalogue whatever instants they are made at. */
  ghost predicate ComposesForever(stats: seq<Stat>, s: Stat) {
    forall value, asOf, rows, t, u ::
      s.min <= value <= s.max && Stamped(stats, rows, asOf) && asOf <= t <= u ==>
        AtWith(stats, s, AtWith(stats, s, value, asOf, t, rows), t, u, Restamp(stats, rows, t))
            == AtWith(stats, s, value, asOf, u, rows)
  }

  /** A stat that moves but does not use up its scale: read at two Durations from its far end it stops at one, and read
      at one and then at two it does not. */
  lemma SlowStatStops(stats: seq<Stat>, s: Stat, value: real)
    requires s.min <= s.max && s.decayPerHour != 0.0 && !Exhausts(s)
    requires value == if s.decayPerHour > 0.0 then s.max else s.min
    ensures AtWith(stats, s, AtWith(stats, s, value, 0.0, MAX_SPAN, map[]), MAX_SPAN, 2.0 * MAX_SPAN, map[])
         != AtWith(stats, s, value, 0.0, 2.0 * MAX_SPAN, map[])
  {
    hide Taken;
    var k := s.decayPerHour;
    AtIsUncoupled(stats, s, value, 0.0, MAX_SPAN);
    AtIsUncoupled(stats, s, value, 0.0, 2.0 * MAX_SPAN);
    AtIsUncoupled(stats, s, At(s, value, 0.0, MAX_SPAN), MAX_SPAN, 2.0 * MAX_SPAN);
    TakenNegates(k, MAX_SPAN);
    TakenGrowsStrictly(AbsR(k), 0.0, MAX_SPAN);
    TakenSplits(AbsR(k), 0.0, 0.0);
  }

  /** For a stat with a rate of its own or no penalties, reads compose for ever if and only if the stat exhausts its
      scale within the longest Duration or never moves. */
  lemma ForeverExactlyWhenExhausted(stats: seq<Stat>, s: Stat)
    requires WellFormed(stats) && StatFits(stats, s) && (s.decayPerHour != 0.0 || s.penalties == [])
    ensures ComposesForever(stats, s) <==> Exhausts(s)
  {
    hide AtWith, Exhausts, WellFormed, Stamped, StatFits, Restamp;
    FitsDrains(stats, s);
    if Exhausts(s) {
      forall value, asOf, rows, t, u | s.min <= value <= s.max && Stamped(stats, rows, asOf) && asOf <= t <= u
        ensures AtWith(stats, s, AtWith(stats, s, value, asOf, t, rows), t, u, Restamp(stats, rows, t))
                == AtWith(stats, s, value, asOf, u, rows)
      {
        ReadsCompose(stats, s, value, asOf, rows, t, u);
      }
    } else {
      StillIsExhausted(s);
      var value, none: Rows := if s.decayPerHour > 0.0 then s.max else s.min, map[];
      SlowStatStops(stats, s, value);
      NothingToRestamp(stats);
      assert AtWith(stats, s, AtWith(stats, s, value, 0.0, MAX_SPAN, none), MAX_SPAN, 2.0 * MAX_SPAN,
             Restamp(stats, none, MAX_SPAN))
          != AtWith(stats, s, value, 0.0, 2.0 * MAX_SPAN, none);
    }
  }

  lemma StillIsExhausted(s: Stat)
    ensures s.decayPerHour == 0.0 && s.penalties == [] ==> Exhausts(s)
  {}

  lemma NothingToRestamp(stats: seq<Stat>)
    ensures Restamp(stats, map[], MAX_SPAN) == map[] && Stamped(stats, map[], 0.0)
  {}

  // ---- The rate at an instant ----

  /** The rates of the steps already taken by an instant. */
  function RateBy(steps: seq<Step>, t: real): real
    decreases |steps|
  {
    if steps == [] then 0.0 else (if steps[0].at <= t then steps[0].rate else 0.0) + RateBy(steps[1..], t)
  }

  lemma {:induction false} RateBySnoc(steps: seq<Step>, st: Step, t: real)
    ensures RateBy(steps + [st], t) == RateBy(steps, t) + if st.at <= t then st.rate else 0.0
    decreases |steps|
  {
    if steps == [] {
      assert steps + [st] == [st] && [st][1..] == [];
    } else {
      assert (steps + [st])[1..] == steps[1..] + [st];
      RateBySnoc(steps[1..], st, t);
    }
  }

  lemma {:induction false} RateByInsert(st: Step, steps: seq<Step>, t: real)
    ensures RateBy(Insert(st, steps), t) == RateBy(steps, t) + if st.at <= t then st.rate else 0.0
    decreases |steps|
  {
    if steps == [] || st.at <= steps[0].at {
      assert Insert(st, steps) == [st] + steps && ([st] + steps)[1..] == steps;
    } else {
      RateByInsert(st, steps[1..], t);
      assert ([steps[0]] + Insert(st, steps[1..]))[1..] == Insert(st, steps[1..]);
    }
  }

  lemma {:induction false} RateByInsertAll(steps: seq<Step>, t: real)
    ensures RateBy(InsertAll(steps), t) == RateBy(steps, t)
    decreases |steps|
  {
    if steps != [] {
      RateByInsertAll(steps[1..], t);
      RateByInsert(steps[0], InsertAll(steps[1..]), t);
    }
  }

  lemma {:induction false} PenaltyRateIsRateBy(stats: seq<Stat>, ps: seq<Penalty>, n: nat, asOf: real, t: real,
                                               drivers: Rows)
    requires n <= |ps|
    ensures PenaltyRate(stats, ps, n, asOf, t, drivers) == RateBy(StepsOf(stats, ps, n, asOf, drivers), t)
  {
    hide Onset;
    if n > 0 {
      PenaltyRateIsRateBy(stats, ps, n - 1, asOf, t, drivers);
      var from := Onset(stats, ps[n-1], asOf, drivers);
      if from.Some? { RateBySnoc(StepsOf(stats, ps, n - 1, asOf, drivers), Step(from.value, ps[n-1].ratePerHour), t); }
    }
  }

  /** The penalties whose condition their driver's own reading meets at an instant. */
  function HoldingRate(stats: seq<Stat>, ps: seq<Penalty>, n: nat, asOf: real, t: real, rows: Rows): real
    requires n <= |ps|
  {
    if n == 0 then 0.0
    else
      var p, def := ps[n-1], StatByKey(stats, ps[n-1].whenKey);
      HoldingRate(stats, ps, n - 1, asOf, t, rows)
      + if p.whenKey in rows && def.Some?
      && Holds(p, At(def.value, rows[p.whenKey].value, asOf, t)) then p.ratePerHour else 0.0
  }

  /** The rate at an instant is the stat's own and that of exactly the penalties whose condition holds then. */
  lemma {:induction false} RateIsOfThoseThatHold(stats: seq<Stat>, ps: seq<Penalty>, n: nat, asOf: real, t: real,
                                                 rows: Rows)
    requires n <= |ps| && Stamped(stats, rows, asOf) && asOf <= t <= asOf + MAX_SPAN
    requires forall i :: 0 <= i < |ps| ==> DriverFits(stats, ps[i])
    ensures PenaltyRate(stats, ps, n, asOf, t, rows) == HoldingRate(stats, ps, n, asOf, t, rows)
  {
    hide Onset, Holds, At, DriverFits, Stamped;
    if n > 0 {
      RateIsOfThoseThatHold(stats, ps, n - 1, asOf, t, rows);
      var p := ps[n-1];
      if p.whenKey in rows && StatByKey(stats, p.whenKey).Some? {
        OnsetIsWhenItHolds(stats, p, asOf, rows, t);
      } else {
        NobodyDrives(stats, p, asOf, rows);
      }
    }
  }

  lemma NobodyDrives(stats: seq<Stat>, p: Penalty, asOf: real, rows: Rows)
    requires p.whenKey !in rows || StatByKey(stats, p.whenKey).None?
    ensures Onset(stats, p, asOf, rows).None?
  {}

  // ---- The derived death, whichever way the stat moves at first ----

  /** The rate a walk sets off with: its own and that of the onsets it stands on. */
  function InitialRate(cur: real, rate: real, steps: seq<Step>): real
    decreases |steps|
  {
    if steps != [] && steps[0].at <= cur then InitialRate(cur, rate + steps[0].rate, steps[1..]) else rate
  }

  lemma {:induction false} NoneYet(steps: seq<Step>, cur: real)
    requires forall i :: 0 <= i < |steps| ==> steps[i].at > cur
    ensures RateBy(steps, cur) == 0.0
    decreases |steps|
  {
    if steps != [] { NoneYet(steps[1..], cur); }
  }

  lemma {:induction false} InitialIsRateBy(cur: real, rate: real, steps: seq<Step>)
    requires SortedSteps(steps)
    ensures InitialRate(cur, rate, steps) == rate + RateBy(steps, cur)
    decreases |steps|
  {
    if steps != [] {
      if steps[0].at <= cur { InitialIsRateBy(cur, rate + steps[0].rate, steps[1..]); } else { NoneYet(steps, cur); }
    }
  }

  /** A walk over onsets in order and in reach. */
  predicate Walkable(cur: real, steps: seq<Step>, end: real) {
    Rising(steps) && SortedSteps(steps) && Within(steps, cur, end)
  }

  /** Past an onset the drain is the drain from there. */
  lemma DrainPasses(cur: real, rate: real, steps: seq<Step>, t: real)
    requires steps != [] && cur <= steps[0].at <= t
    ensures Drain(cur, rate, steps, t)
            == Drain(steps[0].at, rate + steps[0].rate, steps[1..], t) + Taken(rate, steps[0].at - cur)
  {
    hide Taken;
    DrainRebase(cur, rate, steps[0].at, steps[0].rate, steps[1..], t);
    TakenSplits(steps[0].rate, 0.0, 0.0);
  }

  lemma FillsNothing(rate: real, span: real)
    requires span >= 0.0
    ensures rate <= 0.0 ==> Taken(rate, span) <= 0.0
    ensures rate < 0.0 && span > 0.0 ==> Taken(rate, span) < 0.0
  {
    hide Taken;
    TakenNegates(rate, span);
    TakenSplits(-rate, 0.0, 0.0);
    if rate <= 0.0 { TakenGrows(-rate, 0.0, span); }
    if rate < 0.0 && span > 0.0 { TakenGrowsStrictly(-rate, 0.0, span); }
  }

  /** One segment of a walk that does not end in it. */
  lemma WalkPasses(cur: real, rate: real, left: real, steps: seq<Step>, end: real) returns (after: real)
    requires steps != [] && Walkable(cur, steps, end) && end <= cur + MAX_SPAN && left > 0.0
    requires steps[0].at > cur ==> rate <= 0.0 || TimeToTake(left, rate) > steps[0].at - cur
    ensures Walk(cur, rate, left, steps) == Walk(steps[0].at, rate + steps[0].rate, after, steps[1..])
    ensures 0.0 < after <= left && Walkable(steps[0].at, steps[1..], end)
    ensures after + Taken(rate, steps[0].at - cur) <= left
    ensures rate < 0.0 && steps[0].at > cur ==> after + Taken(rate, steps[0].at - cur) < left
    ensures rate > 0.0 || steps[0].at == cur ==> after + Taken(rate, steps[0].at - cur) == left
    ensures rate <= 0.0 ==> after == left
  {
    hide Taken, TimeToTake;
    var span := steps[0].at - cur;
    TakenSplits(rate, 0.0, 0.0);
    FillsNothing(rate, span);
    if span > 0.0 && rate > 0.0 {
      ReachedAt(rate, left, span);
      TakenGrows(rate, 0.0, span);
      after := left - Taken(rate, span);
    } else {
      after := left;
    }
  }

  /** A walk never spends more than it has: by its answer the drain is at most what was left, and less if the stat was
      filling when it set off. */
  lemma {:induction false} WalkSpendsAtMost(cur: real, rate: real, left: real, steps: seq<Step>, end: real)
    requires Walkable(cur, steps, end) && cur <= end <= cur + MAX_SPAN && left > 0.0
    requires Walk(cur, rate, left, steps).Some? && Walk(cur, rate, left, steps).value <= end
    ensures var w := Walk(cur, rate, left, steps).value;
            Drain(cur, rate, steps, w) <= left
                && (InitialRate(cur, rate, steps) < 0.0 ==> Drain(cur, rate, steps, w) < left)
    decreases |steps|
  {
    hide Taken, TimeToTake, Walk, Drain;
    var w := Walk(cur, rate, left, steps).value;
    if steps == [] {
      WalkEnds(cur, rate, left);
    } else if steps[0].at > cur && rate > 0.0 && TimeToTake(left, rate) <= steps[0].at - cur {
      WalkEndsInSegment(cur, rate, left, steps, cur);
      TimeTakes(left, rate);
      DrainBeforeSteps(cur, rate, steps, w);
    } else {
      var after := WalkPasses(cur, rate, left, steps, end);
      WalkNotBefore(steps[0].at, rate + steps[0].rate, after, steps[1..]);
      WalkSpendsAtMost(steps[0].at, rate + steps[0].rate, after, steps[1..], end);
      DrainPasses(cur, rate, steps, w);
    }
  }

  lemma WalkEnds(cur: real, rate: real, left: real)
    requires left > 0.0
    ensures var w := Walk(cur, rate, left, []);
            && (w.Some? ==> rate > 0.0 && Drain(cur, rate, [], w.value) == left)
            && forall t :: cur <= t <= cur + MAX_SPAN && left <= Drain(cur, rate, [], t) ==> w.Some? && w.value <= t
  {
    hide Taken, TimeToTake;
    if rate > 0.0 { TimeTakes(left, rate); ReachedAt(rate, left, 0.0); }
    forall t | cur <= t <= cur + MAX_SPAN && left <= Drain(cur, rate, [], t)
      ensures Walk(cur, rate, left, []).Some? && Walk(cur, rate, left, []).value <= t
    {
      FillsNothing(rate, t - cur);
      ReachedAt(rate, left, t - cur);
    }
  }

  /** A walk is never late: once the drain has reached what was left, it has answered. */
  lemma {:induction false} WalkIsNeverLate(cur: real, rate: real, left: real, steps: seq<Step>, end: real, t: real)
    requires Walkable(cur, steps, end) && cur <= t <= end <= cur + MAX_SPAN && left > 0.0
    requires left <= Drain(cur, rate, steps, t)
    ensures var w := Walk(cur, rate, left, steps); w.Some? && w.value <= t
    decreases |steps|
  {
    hide Taken, TimeToTake, Walk, Drain;
    if steps == [] {
      WalkEnds(cur, rate, left);
    } else if steps[0].at > cur && rate > 0.0 && TimeToTake(left, rate) <= steps[0].at - cur {
      WalkEndsInSegment(cur, rate, left, steps, t);
    } else {
      var after := WalkPasses(cur, rate, left, steps, end);
      if t < steps[0].at {
        DrainBeforeSteps(cur, rate, steps, t);
        FillsNothing(rate, t - cur);
        if rate > 0.0 { ReachedAt(rate, left, steps[0].at - cur); TakenGrows(rate, t - cur, steps[0].at - cur); }
      } else {
        DrainPasses(cur, rate, steps, t);
        WalkIsNeverLate(steps[0].at, rate + steps[0].rate, after, steps[1..], end, t);
      }
    }
  }

  /** A walk that sets off draining is exact, whatever the stat's own rate. */
  lemma {:induction false} DrainingWalkIsThreshold(cur: real, rate: real, left: real, steps: seq<Step>, end: real,
                                                   t: real)
    requires Walkable(cur, steps, end) && end == cur + MAX_SPAN && cur <= t <= end && left > 0.0
    requires InitialRate(cur, rate, steps) >= 0.0
    ensures var w := Walk(cur, rate, left, steps); (w.Some? && w.value <= t) <==> left <= Drain(cur, rate, steps, t)
    decreases |steps|
  {
    hide Taken, TimeToTake, Drain;
    if steps != [] && steps[0].at <= cur {
      DrainingWalkIsThreshold(cur, rate + steps[0].rate, left, steps[1..], end, t);
      DrainPasses(cur, rate, steps, t);
      TakenSplits(rate, 0.0, 0.0);
    } else {
      WalkIsThreshold(cur, cur, rate, left, steps, t);
    }
  }

  /** What a stat can lose by an instant if filling is never credited: its rate where positive, over the onsets. */
  function Spent(cur: real, rate: real, steps: seq<Step>, end: real): real
    decreases |steps|
  {
    if steps == [] then Taken(MaxR(0.0, rate), end - cur)
    else Taken(MaxR(0.0, rate), steps[0].at - cur) + Spent(steps[0].at, rate + steps[0].rate, steps[1..], end)
  }

  /** No onset before the end turns the total rate positive. */
  predicate NeverDrains(cur: real, rate: real, steps: seq<Step>, end: real)
    decreases |steps|
  {
    if steps == [] then rate <= 0.0 || end <= cur
    else (rate <= 0.0 || steps[0].at <= cur) && NeverDrains(steps[0].at, rate + steps[0].rate, steps[1..], end)
  }

  lemma PositivePart(rate: real, span: real)
    requires span >= 0.0
    ensures Taken(MaxR(0.0, rate), span) >= 0.0
    ensures Taken(MaxR(0.0, rate), span) == 0.0 <==> rate <= 0.0 || span == 0.0
    ensures Taken(MaxR(0.0, rate), span) == if rate > 0.0 then Taken(rate, span) else 0.0
  {
    hide Taken;
    TakenSplits(rate, 0.0, 0.0);
    if rate > 0.0 {
      if span > 0.0 { TakenGrowsStrictly(rate, 0.0, span); }
    } else {
      TakenIsNothing(0.0, span);
    }
  }

  lemma {:induction false} SpentIsNothingWhenNeverDraining(cur: real, rate: real, steps: seq<Step>, end: real)
    requires Walkable(cur, steps, end) && cur <= end
    ensures Spent(cur, rate, steps, end) >= 0.0
    ensures Spent(cur, rate, steps, end) == 0.0 <==> NeverDrains(cur, rate, steps, end)
    decreases |steps|
  {
    hide Taken;
    if steps == [] {
      PositivePart(rate, end - cur);
    } else {
      PositivePart(rate, steps[0].at - cur);
      SpentIsNothingWhenNeverDraining(steps[0].at, rate + steps[0].rate, steps[1..], end);
    }
  }

  /** A walk has answered by the end exactly when that much could be spent by then. */
  lemma {:induction false} WalkAnswersBy(cur: real, rate: real, left: real, steps: seq<Step>, end: real)
    requires Walkable(cur, steps, end) && cur <= end <= cur + MAX_SPAN && left > 0.0
    ensures Applies(Walk(cur, rate, left, steps), end) <==> left <= Spent(cur, rate, steps, end)
    decreases |steps|
  {
    hide Taken, TimeToTake;
    if steps == [] {
      PositivePart(rate, end - cur);
      if rate > 0.0 { ReachedAt(rate, left, end - cur); }
    } else {
      PositivePart(rate, steps[0].at - cur);
      SpentIsNothingWhenNeverDraining(steps[0].at, rate + steps[0].rate, steps[1..], end);
      if steps[0].at > cur && rate > 0.0 && TimeToTake(left, rate) <= steps[0].at - cur {
        ReachedAt(rate, left, steps[0].at - cur);
      } else {
        var after := WalkPasses(cur, rate, left, steps, end);
        WalkAnswersBy(steps[0].at, rate + steps[0].rate, after, steps[1..], end);
      }
    }
  }

  /** The onsets a row's death is walked over. */
  function SortedOnsets(stats: seq<Stat>, s: Stat, asOf: real, drivers: Rows): seq<Step> {
    InsertAll(StepsOf(stats, s.penalties, |s.penalties|, asOf, drivers))
  }

  /** What the row could lose within a Duration, were filling never credited. */
  function CouldLose(stats: seq<Stat>, s: Stat, asOf: real, drivers: Rows): real {
    Spent(asOf, s.decayPerHour, SortedOnsets(stats, s, asOf, drivers), asOf + MAX_SPAN)
  }

  /** The derived death is the first instant on the floor. */
  ghost predicate FirstHitOf(stats: seq<Stat>, s: Stat, value: real, asOf: real, drivers: Rows, t: real) {
    AtWith(stats, s, value, asOf, t, drivers) == s.min && forall u :: asOf <= u < t ==>
        AtWith(stats, s, value, asOf, u, drivers) > s.min
  }

  ghost predicate DeathIsExact(stats: seq<Stat>, s: Stat, value: real, asOf: real, drivers: Rows) {
    forall t :: asOf <= t <= asOf + MAX_SPAN ==>
      (DeadAtWith(stats, s, value, asOf, drivers) == Some(t) <==> FirstHitOf(stats, s, value, asOf, drivers, t))
  }

  /** What the walk of a death says of the reading, for a value above the floor. */
  lemma WalkAgainstTheReading(stats: seq<Stat>, s: Stat, value: real, asOf: real, drivers: Rows, t: real)
    requires s.fatal && s.min < value <= s.max && StampedBy(drivers, asOf) && asOf <= t <= asOf + MAX_SPAN
    requires forall i :: 0 <= i < |s.penalties| ==> s.penalties[i].ratePerHour >= 0.0
    ensures var d, v, r := DeadAtWith(stats, s, value, asOf, drivers), AtWith(stats, s, value, asOf, t, drivers),
            RateAt(stats, s, asOf, asOf, drivers);
            && v >= s.min && (v == s.min ==> d.Some? && d.value <= t)
            && (r >= 0.0 ==> (v == s.min <==> d.Some? && d.value <= t))
            && (r < 0.0 && d == Some(t) ==> v > s.min)
  {
    hide Taken, TimeToTake, Walk, Drain;
    var ps, n, left := s.penalties, |s.penalties|, value - s.min;
    var steps, end := StepsOf(stats, ps, n, asOf, drivers), asOf + MAX_SPAN;
    var sorted := InsertAll(steps);
    StepsAreOnsets(stats, ps, n, asOf, drivers);
    SortedStepsStay(steps, asOf, end);
    ReadIsDrain(stats, s, value, asOf, drivers, t);
    PenaltyRateIsRateBy(stats, ps, n, asOf, asOf, drivers);
    RateByInsertAll(steps, asOf);
    InitialIsRateBy(asOf, s.decayPerHour, sorted);
    var d := Walk(asOf, s.decayPerHour, left, sorted);
    if left <= Drain(asOf, s.decayPerHour, sorted, t) { WalkIsNeverLate(asOf, s.decayPerHour, left, sorted, end, t); }
    if RateAt(stats, s, asOf, asOf, drivers) >= 0.0 {
      DrainingWalkIsThreshold(asOf, s.decayPerHour, left, sorted, end, t);
    } else if d == Some(t) {
      WalkSpendsAtMost(asOf, s.decayPerHour, left, sorted, end);
    }
  }

  /** A death is derived within a Duration exactly when the row could lose what it has. */
  lemma DeathIsDerivedWhenItCouldBeLost(stats: seq<Stat>, s: Stat, value: real, asOf: real, drivers: Rows)
    requires s.fatal && s.min < value <= s.max && StampedBy(drivers, asOf)
    requires forall i :: 0 <= i < |s.penalties| ==> s.penalties[i].ratePerHour >= 0.0
    ensures Applies(DeadAtWith(stats, s, value, asOf, drivers), asOf + MAX_SPAN)
       <==> value - s.min <= CouldLose(stats, s, asOf, drivers)
  {
    hide Taken, TimeToTake, Walk, Spent;
    OnsetsAreWalkable(stats, s, asOf, drivers);
    WalkAnswersBy(asOf, s.decayPerHour, value - s.min, SortedOnsets(stats, s, asOf, drivers), asOf + MAX_SPAN);
  }

  lemma OnsetsAreWalkable(stats: seq<Stat>, s: Stat, asOf: real, drivers: Rows)
    requires StampedBy(drivers, asOf)
    requires forall i :: 0 <= i < |s.penalties| ==> s.penalties[i].ratePerHour >= 0.0
    ensures Walkable(asOf, SortedOnsets(stats, s, asOf, drivers), asOf + MAX_SPAN)
  {
    StepsAreOnsets(stats, s.penalties, |s.penalties|, asOf, drivers);
    SortedStepsStay(StepsOf(stats, s.penalties, |s.penalties|, asOf, drivers), asOf, asOf + MAX_SPAN);
  }

  /** The derived death is exact if and only if the stat is on its floor already, or is not filling when the row is
      stored, or has more than it could lose within a Duration; and every death derived in reach for a stat that sets
      off filling is early. */
  lemma DeathIsExactExactlyWhenNotFilling(stats: seq<Stat>, s: Stat, value: real, asOf: real, drivers: Rows)
    requires s.fatal && s.min <= value <= s.max && StampedBy(drivers, asOf)
    requires forall i :: 0 <= i < |s.penalties| ==> s.penalties[i].ratePerHour >= 0.0
    ensures DeathIsExact(stats, s, value, asOf, drivers) <==>
            || value == s.min || RateAt(stats, s, asOf, asOf, drivers) >= 0.0
            || value - s.min > CouldLose(stats, s, asOf, drivers)
    ensures var d := DeadAtWith(stats, s, value, asOf, drivers);
            value > s.min && RateAt(stats, s, asOf, asOf, drivers) < 0.0 && Applies(d, asOf + MAX_SPAN) ==>
              AtWith(stats, s, value, asOf, d.value, drivers) > s.min
  {
    hide Taken, TimeToTake, PenaltyDrop, StepsOf, Walk, RateAt, AtWith, DeadAtWith, CouldLose;
    var d := DeadAtWith(stats, s, value, asOf, drivers);
    DeathNotBefore(stats, s, value, asOf, drivers);
    AtOnce(stats, s, value, asOf, drivers);
    if value > s.min {
      DeathIsDerivedWhenItCouldBeLost(stats, s, value, asOf, drivers);
      forall t | asOf <= t <= asOf + MAX_SPAN
        ensures AtWith(stats, s, value, asOf, t, drivers) >= s.min
        ensures AtWith(stats, s, value, asOf, t, drivers) == s.min ==> Applies(d, t)
        ensures RateAt(stats, s, asOf, asOf, drivers) >= 0.0 ==>
                  (AtWith(stats, s, value, asOf, t, drivers) == s.min <==> Applies(d, t))
        ensures RateAt(stats, s, asOf, asOf, drivers) < 0.0 && d == Some(t) ==>
                  AtWith(stats, s, value, asOf, t, drivers) > s.min
      {
        WalkAgainstTheReading(stats, s, value, asOf, drivers, t);
      }
      if RateAt(stats, s, asOf, asOf, drivers) < 0.0 && Applies(d, asOf + MAX_SPAN) {
        assert !FirstHitOf(stats, s, value, asOf, drivers, d.value);
      }
    }
  }

  /** Of all the values a row may hold: every derived death is exact if and only if the stat is not filling when the
      row is stored, or no onset within a Duration turns the total rate positive. */
  lemma DeathsAreExactExactlyWhenNeverTurned(stats: seq<Stat>, s: Stat, asOf: real, drivers: Rows)
    requires s.fatal && s.min < s.max && StampedBy(drivers, asOf)
    requires forall i :: 0 <= i < |s.penalties| ==> s.penalties[i].ratePerHour >= 0.0
    ensures (forall value :: s.min <= value <= s.max ==> DeathIsExact(stats, s, value, asOf, drivers)) <==>
            || RateAt(stats, s, asOf, asOf, drivers) >= 0.0
            || NeverDrains(asOf, s.decayPerHour, SortedOnsets(stats, s, asOf, drivers), asOf + MAX_SPAN)
  {
    hide DeathIsExact, RateAt, SortedOnsets, Spent, NeverDrains;
    OnsetsAreWalkable(stats, s, asOf, drivers);
    SpentIsNothingWhenNeverDraining(asOf, s.decayPerHour, SortedOnsets(stats, s, asOf, drivers), asOf + MAX_SPAN);
    forall value | s.min <= value <= s.max
      ensures DeathIsExact(stats, s, value, asOf, drivers) <==>
              || value == s.min || RateAt(stats, s, asOf, asOf, drivers) >= 0.0
              || value - s.min > CouldLose(stats, s, asOf, drivers)
    {
      DeathIsExactExactlyWhenNotFilling(stats, s, value, asOf, drivers);
    }
    var most := s.min + MinR(CouldLose(stats, s, asOf, drivers), s.max - s.min);
    if CouldLose(stats, s, asOf, drivers) > 0.0 && RateAt(stats, s, asOf, asOf, drivers) < 0.0 {
      assert !DeathIsExact(stats, s, most, asOf, drivers);
    }
  }

  lemma AtOnce(stats: seq<Stat>, s: Stat, value: real, asOf: real, drivers: Rows)
    requires s.fatal && s.min <= value <= s.max
    ensures AtWith(stats, s, value, asOf, asOf, drivers) == value
    ensures value == s.min ==> DeadAtWith(stats, s, value, asOf, drivers) == Some(asOf)
  {}
}
