/** Reads compose: reading through an intermediate instant that re-stamps every row changes nothing. */
module Reads {
  import opened Wrappers
  import opened Decay
  import opened FirstHit

  /** The driver of a penalty never takes back a condition it met, nor is counted past a clamp it cannot pass: it moves
      towards the threshold or stands still, or the threshold is one its bounds or the longest Duration keep it from. */
  predicate OnsetFits(def: Stat, p: Penalty) {
    var k, at := def.decayPerHour, p.threshold;
    || k == 0.0
    || (p.above && k < 0.0 && (at <= def.max || at - def.max > Taken(-k, MAX_SPAN)))
    || (p.above && k > 0.0 && (at <= def.min || at > def.max))
    || (!p.above && k > 0.0 && (at >= def.min || def.min - at > Taken(k, MAX_SPAN)))
    || (!p.above && k < 0.0 && (at >= def.max || at < def.min))
  }

  /** An unpenalised driver that fits its penalty. */
  predicate DriverFits(stats: seq<Stat>, p: Penalty) {
    match StatByKey(stats, p.whenKey)
    case None => true
    case Some(def) =>
      def.penalties == [] && OnsetFits(def, p)
  }

  predicate StatFits(stats: seq<Stat>, s: Stat) {
    && s.min <= s.start <= s.max
    && (s.fatal || s.penalties != [] ==> Drains(s))
    && forall i :: 0 <= i < |s.penalties| ==> DriverFits(stats, s.penalties[i])
  }

  /** What the catalogue has to satisfy for the closed form to be exact. */
  predicate WellFormed(stats: seq<Stat>) {
    && (forall i :: 0 <= i < |stats| ==> StatFits(stats, stats[i]))
    && (forall i, j :: 0 <= i < j < |stats| ==> stats[i].key != stats[j].key)
  }

  /** A row the catalogue defines: inside its bounds, and stamped at `asOf`. */
  predicate RowFits(stats: seq<Stat>, row: StatRow, asOf: real) {
    match StatByKey(stats, row.key)
    case None => row.asOf <= asOf
    case Some(def) => def.min <= row.value <= def.max && row.asOf == asOf
  }

  /** Every known row shares one stamp and is in bounds; a row whose key has left the catalogue is only older. */
  predicate Stamped(stats: seq<Stat>, rows: Rows, asOf: real) {
    forall k :: k in rows ==> rows[k].key == k && RowFits(stats, rows[k], asOf)
  }

  /** Every known row re-stamped at `to`, read with the couplings of the rows it was stored with. */
  function Restamp(stats: seq<Stat>, rows: Rows, to: real): (out: Rows)
    ensures out.Keys == rows.Keys
  {
    map k | k in rows ::
      match StatByKey(stats, k)
      case None => rows[k]
      case Some(def) => StatRow(k, AtWith(stats, def, rows[k].value, rows[k].asOf, to, rows), to)
  }

  lemma {:induction false} FitsByKey(stats: seq<Stat>, tail: seq<Stat>, key: string)
    requires WellFormed(stats) && forall s :: s in tail ==> s in stats
    ensures StatByKey(tail, key).Some? ==> StatFits(stats, StatByKey(tail, key).value)
  {
    var s := StatByKey(tail, key);
    if s.Some? {
      var i :| 0 <= i < |stats| && stats[i] == s.value;
    }
  }

  lemma {:induction false} NoDropWithoutPenalties(stats: seq<Stat>, s: Stat, value: real, asOf: real, now: real,
                                                  drivers: Rows)
    requires s.penalties == []
    ensures AtWith(stats, s, value, asOf, now, drivers) == At(s, value, asOf, now)
  {
    hide Taken;
  }

  /** The coupling with nothing to couple to is the plain reading. */
  lemma AtIsUncoupled(stats: seq<Stat>, s: Stat, value: real, asOf: real, now: real)
    ensures AtWith(stats, s, value, asOf, now, map[]) == At(s, value, asOf, now)
  {
    hide Taken;
    NothingDrops(stats, s.penalties, |s.penalties|, asOf, now);
  }

  lemma {:induction false} NothingDrops(stats: seq<Stat>, ps: seq<Penalty>, n: nat, asOf: real, now: real)
    requires n <= |ps|
    ensures PenaltyDrop(stats, ps, n, asOf, now, map[]) == 0.0
  {
    if n > 0 { NothingDrops(stats, ps, n - 1, asOf, now); }
  }

  // ---- A penalty is a suffix of time, whichever stamp it is read from ----

  lemma TakenNegative(k: real, a: real, b: real)
    requires k <= 0.0 && a <= b
    ensures Taken(k, a) >= Taken(k, b)
  {}

  lemma DriverMovesOneWay(def: Stat, value: real, asOf: real, t: real, u: real)
    requires def.min <= value <= def.max && asOf <= t <= u <= asOf + MAX_SPAN
    ensures def.decayPerHour >= 0.0 ==> At(def, value, asOf, t) >= At(def, value, asOf, u)
    ensures def.decayPerHour <= 0.0 ==> At(def, value, asOf, t) <= At(def, value, asOf, u)
    ensures At(def, value, asOf, asOf) == value
  {
    hide Taken;
    TakenSplits(def.decayPerHour, 0.0, 0.0);
    if def.decayPerHour >= 0.0 { TakenGrows(def.decayPerHour, t - asOf, u - asOf); }
    if def.decayPerHour <= 0.0 { TakenNegative(def.decayPerHour, t - asOf, u - asOf); }
  }

  /** The signed crossing: a driver heading for its threshold stands past it exactly from the crossing on. */
  lemma CrossingIsSharp(k: real, gap: real, span: real)
    requires k != 0.0
    ensures k > 0.0 ==> (TimeToTake(gap, k) <= span <==> gap <= Taken(k, span))
    ensures k < 0.0 ==> (TimeToTake(gap, k) <= span <==> gap >= Taken(k, span))
  {
    hide Taken, TimeToTake;
    if k > 0.0 {
      ReachedAt(k, gap, span);
    } else {
      ReachedAt(-k, -gap, span);
      assert Taken(-k, span) == -Taken(k, span)
             && TimeToTake(-gap, -k) == TimeToTake(gap, k) by { Negate(k, gap, span); }
    }
  }

  lemma Negate(k: real, gap: real, span: real)
    requires k != 0.0
    ensures Taken(-k, span) == -Taken(k, span)
    ensures TimeToTake(-gap, -k) == TimeToTake(gap, k)
  {
    var q := gap / k;
    assert (-k) * q == -gap;
    assert ((-gap) / (-k)) * (-k) == -gap;
    SameFactor(-k, q, (-gap) / (-k));
  }

  lemma SameFactor(k: real, a: real, b: real)
    requires k != 0.0 && k * a == k * b
    ensures a == b
  {
    if k > 0.0 {
      if a < b { MulStrict(k, a, b); } else if b < a { MulStrict(k, b, a); }
    } else {
      if a < b { MulStrict(-k, a, b); } else if b < a { MulStrict(-k, b, a); }
    }
  }

  lemma PlainReadsCompose(def: Stat, value: real, asOf: real, t: real, u: real)
    requires def.min <= value <= def.max && asOf <= t <= u <= asOf + MAX_SPAN
    ensures At(def, At(def, value, asOf, t), t, u) == At(def, value, asOf, u)
    ensures def.min <= At(def, value, asOf, t) <= def.max
  {
    hide Taken;
    TakenSplits(def.decayPerHour, t - asOf, u - t);
    assert t - asOf + (u - t) == u - asOf;
    if def.decayPerHour >= 0.0 {
      TakenGrows(def.decayPerHour, 0.0, t - asOf);
      TakenGrows(def.decayPerHour, 0.0, u - t);
    } else {
      TakenNegative(def.decayPerHour, 0.0, t - asOf);
      TakenNegative(def.decayPerHour, 0.0, u - t);
    }
  }

  /** A driver's closed-form onset is exact, row by row. */
  lemma OnsetOfIsWhenItHolds(def: Stat, p: Penalty, row: StatRow, t: real)
    requires OnsetFits(def, p) && def.min <= row.value <= def.max
    requires row.asOf <= t <= row.asOf + MAX_SPAN
    ensures var from := OnsetOf(def, p, row, row.asOf);
            (from.Some? && from.value <= t) <==> Holds(p, At(def, row.value, row.asOf, t))
  {
    hide Taken, TimeToTake;
    var k, gap, asOf := def.decayPerHour, row.value - p.threshold, row.asOf;
    DriverMovesOneWay(def, row.value, asOf, asOf, t);
    if !Holds(p, row.value) && k != 0.0 {
      CrossingIsSharp(k, gap, t - asOf);
      CrossingIsSharp(k, gap, 0.0);
      CrossingIsSharp(k, gap, MAX_SPAN);
      TakenSplits(k, 0.0, 0.0);
      TakenNegates(k, MAX_SPAN);
    }
  }

  lemma TakenNegates(k: real, span: real)
    ensures Taken(-k, span) == -Taken(k, span)
  {}

  /** A penalty is a suffix: at every reachable instant it applies exactly from its one onset on. */
  lemma OnsetIsWhenItHolds(stats: seq<Stat>, p: Penalty, asOf: real, rows: Rows, t: real)
    requires Stamped(stats, rows, asOf) && DriverFits(stats, p)
    requires p.whenKey in rows && StatByKey(stats, p.whenKey).Some?
    requires asOf <= t <= asOf + MAX_SPAN
    ensures var from := Onset(stats, p, asOf, rows);
            (from.Some? && from.value <= t) <==>
            Holds(p, At(StatByKey(stats, p.whenKey).value, rows[p.whenKey].value, asOf, t))
  {
    hide Taken, TimeToTake, OnsetFits, OnsetOf, Holds, At;
    OnsetOfIsWhenItHolds(StatByKey(stats, p.whenKey).value, p, rows[p.whenKey], t);
  }

  /** However the interval is split, the time a penalty has been running adds up. */
  lemma OnsetSplits(stats: seq<Stat>, p: Penalty, asOf: real, rows: Rows, t: real, u: real)
    requires Stamped(stats, rows, asOf) && DriverFits(stats, p)
    requires Stamped(stats, Restamp(stats, rows, t), t)
    requires asOf <= t <= u <= asOf + MAX_SPAN
    ensures Overdue(Onset(stats, p, asOf, rows), u)
         == Overdue(Onset(stats, p, asOf, rows), t) + Overdue(Onset(stats, p, t, Restamp(stats, rows, t)), u)
  {
    hide Taken, TimeToTake;
    var later := Restamp(stats, rows, t);
    if p.whenKey in rows && StatByKey(stats, p.whenKey).Some? {
      var from, again := Onset(stats, p, asOf, rows), Onset(stats, p, t, later);
      SameOnset(stats, p, asOf, rows, t, t);
      SameOnset(stats, p, asOf, rows, t, u);
      if from.Some? && t <= from.value <= u { SameOnset(stats, p, asOf, rows, t, from.value); }
      if again.Some? && again.value <= u { SameOnset(stats, p, asOf, rows, t, again.value); }
    }
  }

  lemma SameOnset(stats: seq<Stat>, p: Penalty, asOf: real, rows: Rows, t: real, u: real)
    requires Stamped(stats, rows, asOf) && DriverFits(stats, p)
    requires Stamped(stats, Restamp(stats, rows, t), t)
    requires p.whenKey in rows && StatByKey(stats, p.whenKey).Some?
    requires asOf <= t <= u <= asOf + MAX_SPAN
    ensures var from, again := Onset(stats, p, asOf, rows), Onset(stats, p, t, Restamp(stats, rows, t));
            (from.Some? && from.value <= u) <==> (again.Some? && again.value <= u)
  {
    hide Taken, TimeToTake;
    var def, row := StatByKey(stats, p.whenKey).value, rows[p.whenKey];
    NoDropWithoutPenalties(stats, def, row.value, asOf, t, rows);
    OnsetIsWhenItHolds(stats, p, asOf, rows, u);
    OnsetIsWhenItHolds(stats, p, t, Restamp(stats, rows, t), u);
    PlainReadsCompose(def, row.value, asOf, t, u);
  }

  // ---- Coupled reads compose ----

  /** The drop of the first n penalties in the unsaturated form every reachable instant has. */
  lemma {:induction false} DropIsOverdue(stats: seq<Stat>, ps: seq<Penalty>, n: nat, asOf: real, t: real, rows: Rows)
    requires 0 < n <= |ps| && StampedBy(rows, asOf) && asOf <= t <= asOf + MAX_SPAN
    ensures PenaltyDrop(stats, ps, n, asOf, t, rows)
         == PenaltyDrop(stats, ps, n - 1, asOf, t, rows)
          + Taken(ps[n-1].ratePerHour, Overdue(Onset(stats, ps[n-1], asOf, rows), t))
  {
    hide Taken, TimeToTake;
    TakenSplits(ps[n-1].ratePerHour, 0.0, 0.0);
  }

  lemma {:induction false} DropSplits(stats: seq<Stat>, ps: seq<Penalty>, n: nat, asOf: real, rows: Rows, t: real,
                                      u: real)
    requires n <= |ps| && forall i :: 0 <= i < |ps| ==> DriverFits(stats, ps[i])
    requires Stamped(stats, rows, asOf) && Stamped(stats, Restamp(stats, rows, t), t)
    requires asOf <= t <= u <= asOf + MAX_SPAN
    ensures PenaltyDrop(stats, ps, n, asOf, u, rows)
         == PenaltyDrop(stats, ps, n, asOf, t, rows) + PenaltyDrop(stats, ps, n, t, u, Restamp(stats, rows, t))
  {
    hide Taken, TimeToTake, Onset;
    if n > 0 {
      var p, later := ps[n-1], Restamp(stats, rows, t);
      DropSplits(stats, ps, n - 1, asOf, rows, t, u);
      StampedIsStampedBy(stats, rows, asOf);
      StampedIsStampedBy(stats, later, t);
      DropIsOverdue(stats, ps, n, asOf, u, rows);
      DropIsOverdue(stats, ps, n, asOf, t, rows);
      DropIsOverdue(stats, ps, n, t, u, later);
      OnsetSplits(stats, p, asOf, rows, t, u);
      TakenSplits(p.ratePerHour, Overdue(Onset(stats, p, asOf, rows), t), Overdue(Onset(stats, p, t, later), u));
    }
  }

  lemma StampedIsStampedBy(stats: seq<Stat>, rows: Rows, asOf: real)
    requires Stamped(stats, rows, asOf)
    ensures StampedBy(rows, asOf)
  {}

  lemma StaysInBounds(stats: seq<Stat>, s: Stat, value: real, asOf: real, t: real, rows: Rows)
    requires s.min <= s.max
    ensures s.min <= AtWith(stats, s, value, asOf, t, rows) <= s.max
  {
    hide Taken, PenaltyDrop;
  }

  lemma RestampStamps(stats: seq<Stat>, rows: Rows, asOf: real, t: real)
    requires WellFormed(stats) && Stamped(stats, rows, asOf) && asOf <= t
    ensures Stamped(stats, Restamp(stats, rows, t), t)
  {
    hide Taken, PenaltyDrop, AtWith;
    var out := Restamp(stats, rows, t);
    forall k | k in out ensures out[k].key == k && RowFits(stats, out[k], t) {
      assert k in rows && RowFits(stats, rows[k], asOf);
      var def := StatByKey(stats, k);
      if def.Some? {
        FitsByKey(stats, stats, k);
        StaysInBounds(stats, def.value, rows[k].value, rows[k].asOf, t, rows);
      }
    }
  }

  lemma ReadsComposeNear(stats: seq<Stat>, s: Stat, value: real, asOf: real, rows: Rows, t: real, u: real)
    requires WellFormed(stats) && StatFits(stats, s) && s.min <= value <= s.max
    requires Stamped(stats, rows, asOf) && asOf <= t <= u <= asOf + MAX_SPAN
    ensures AtWith(stats, s, AtWith(stats, s, value, asOf, t, rows), t, u, Restamp(stats, rows, t))
         == AtWith(stats, s, value, asOf, u, rows)
  {
    hide Taken, TimeToTake, Onset;
    var later := Restamp(stats, rows, t);
    RestampStamps(stats, rows, asOf, t);
    StampedIsStampedBy(stats, rows, asOf);
    StampedIsStampedBy(stats, later, t);
    if s.penalties == [] {
      NoDropWithoutPenalties(stats, s, value, asOf, t, rows);
      NoDropWithoutPenalties(stats, s, value, asOf, u, rows);
      NoDropWithoutPenalties(stats, s, At(s, value, asOf, t), t, u, later);
      PlainReadsCompose(s, value, asOf, t, u);
    } else {
      var n := |s.penalties|;
      DropSplits(stats, s.penalties, n, asOf, rows, t, u);
      DropNeverGives(stats, s.penalties, n, asOf, t, rows);
      DropNeverGives(stats, s.penalties, n, t, u, later);
      DropAtOnce(stats, s.penalties, n, asOf, rows);
      DropAtOnce(stats, s.penalties, n, t, later);
      TakenSplits(s.decayPerHour, t - asOf, u - t);
      assert t - asOf + (u - t) == u - asOf;
      TakenGrows(s.decayPerHour, 0.0, t - asOf);
      TakenGrows(s.decayPerHour, 0.0, u - t);
    }
  }

  /** One stat: a read through an intermediate instant is the direct read, as far as a Duration reaches, and for ever if
      the stat exhausts its scale. */
  lemma ReadsCompose(stats: seq<Stat>, s: Stat, value: real, asOf: real, rows: Rows, t: real, u: real)
    requires WellFormed(stats) && StatFits(stats, s) && s.min <= value <= s.max
    requires Stamped(stats, rows, asOf) && asOf <= t <= u && InReach(s, asOf, u)
    ensures AtWith(stats, s, AtWith(stats, s, value, asOf, t, rows), t, u, Restamp(stats, rows, t))
         == AtWith(stats, s, value, asOf, u, rows)
  {
    hide WellFormed, StatFits, Stamped, Taken, PenaltyDrop, Restamp, Exhausts;
    if u <= asOf + MAX_SPAN {
      ReadsComposeNear(stats, s, value, asOf, rows, t, u);
    } else {
      FitsDrains(stats, s);
      ReadsComposeFar(stats, s, value, asOf, rows, t, u, Restamp(stats, rows, t));
    }
  }

  lemma FitsDrains(stats: seq<Stat>, s: Stat)
    requires StatFits(stats, s)
    ensures s.min <= s.max && (s.penalties != [] ==> Drains(s))
  {}

  /** Two spans that together outlast the longest Duration take, between them, at least what the longest takes. */
  lemma SpansAdd(k: real, asOf: real, t: real, u: real)
    requires k >= 0.0 && asOf <= t <= u && u > asOf + MAX_SPAN
    ensures Taken(k, HoursBetween(asOf, t)) + Taken(k, HoursBetween(t, u)) >= Taken(k, MAX_SPAN)
    ensures Taken(k, HoursBetween(asOf, t)) >= 0.0 && Taken(k, HoursBetween(t, u)) >= 0.0
    ensures HoursBetween(asOf, u) == MAX_SPAN
  {
    hide Taken;
    var a, b := HoursBetween(asOf, t), HoursBetween(t, u);
    TakenSplits(k, a, b);
    TakenGrows(k, MAX_SPAN, a + b);
    TakenGrows(k, 0.0, a);
    TakenGrows(k, 0.0, b);
    TakenSplits(k, 0.0, 0.0);
  }

  lemma ReadsComposeFar(stats: seq<Stat>, s: Stat, value: real, asOf: real, rows: Rows, t: real, u: real, later: Rows)
    requires s.min <= s.max && (s.penalties != [] ==> Drains(s)) && Exhausts(s)
    requires s.min <= value <= s.max && asOf <= t <= u && u > asOf + MAX_SPAN
    ensures AtWith(stats, s, AtWith(stats, s, value, asOf, t, rows), t, u, later)
            == AtWith(stats, s, value, asOf, u, rows)
  {
    hide Taken, Onset, Restamp, PenaltyDrop;
    var k := s.decayPerHour;
    TakenSplits(k, 0.0, 0.0);
    if k < 0.0 || s.penalties == [] {
      NoDropWithoutPenalties(stats, s, value, asOf, t, rows);
      NoDropWithoutPenalties(stats, s, value, asOf, u, rows);
      NoDropWithoutPenalties(stats, s, At(s, value, asOf, t), t, u, later);
      PlainReadsComposeFar(s, value, asOf, t, u);
    } else {
      SpansAdd(k, asOf, t, u);
      NeverGives(stats, s, asOf, t, rows);
      NeverGives(stats, s, t, u, later);
      NeverGives(stats, s, asOf, u, rows);
    }
  }

  lemma PlainReadsComposeFar(s: Stat, value: real, asOf: real, t: real, u: real)
    requires s.min <= value <= s.max && Exhausts(s.(penalties := [])) && asOf <= t <= u && u > asOf + MAX_SPAN
    ensures At(s, At(s, value, asOf, t), t, u) == At(s, value, asOf, u)
  {
    hide Taken;
    var k := s.decayPerHour;
    TakenSplits(k, 0.0, 0.0);
    if k == 0.0 {
      TakenIsNothing(k, HoursBetween(asOf, t));
      TakenIsNothing(k, HoursBetween(t, u));
      TakenIsNothing(k, HoursBetween(asOf, u));
    } else {
      SpansAdd(AbsR(k), asOf, t, u);
      TakenNegates(k, HoursBetween(asOf, t));
      TakenNegates(k, HoursBetween(t, u));
      TakenNegates(k, HoursBetween(asOf, u));
    }
  }

  lemma NeverGives(stats: seq<Stat>, s: Stat, asOf: real, t: real, rows: Rows)
    requires s.penalties != [] ==> Drains(s)
    ensures PenaltyDrop(stats, s.penalties, |s.penalties|, asOf, t, rows) >= 0.0
  {
    if s.penalties != [] { DropNeverGives(stats, s.penalties, |s.penalties|, asOf, t, rows); }
  }

  lemma {:induction false} DropAtOnce(stats: seq<Stat>, ps: seq<Penalty>, n: nat, asOf: real, rows: Rows)
    requires n <= |ps| && StampedBy(rows, asOf)
    ensures PenaltyDrop(stats, ps, n, asOf, asOf, rows) == 0.0
  {
    hide Taken, TimeToTake;
    if n > 0 { DropAtOnce(stats, ps, n - 1, asOf, rows); }
  }

  /** Two readers of one death compute the identical instant, however many reads came between. */
  lemma DeathsAgree(stats: seq<Stat>, s: Stat, value: real, asOf: real, rows: Rows, t: real, u: real)
    requires WellFormed(stats) && StatFits(stats, s) && s.fatal && s.min <= value <= s.max
    requires Stamped(stats, rows, asOf) && asOf <= t <= u && InReach(s, asOf, u)
    requires !Dead(stats, s, value, asOf, t, rows) && Dead(stats, s, value, asOf, u, rows)
    ensures var later := Restamp(stats, rows, t);
            var v := AtWith(stats, s, value, asOf, t, rows);
            DeadAtWith(stats, s, v, t, later).Some?
            && DeadAtWith(stats, s, v, t, later) == DeadAtWith(stats, s, value, asOf, rows)
  {
    hide Taken, TimeToTake, Onset, PenaltyDrop, StepsOf, Walk, Exhausts;
    var later := Restamp(stats, rows, t);
    var v := AtWith(stats, s, value, asOf, t, rows);
    RestampStamps(stats, rows, asOf, t);
    StampedIsStampedBy(stats, rows, asOf);
    StampedIsStampedBy(stats, later, t);
    StaysInBounds(stats, s, value, asOf, t, rows);
    var d, e := DeadAtWith(stats, s, value, asOf, rows), DeadAtWith(stats, s, v, t, later);
    DeathNotBefore(stats, s, v, t, later);
    DeathIsThreshold(stats, s, value, asOf, rows, t);
    SameDeath(stats, s, value, asOf, rows, t, u);
    SameDeath(stats, s, value, asOf, rows, t, d.value);
    SameDeath(stats, s, value, asOf, rows, t, e.value);
  }

  predicate DeadBy(death: Option<real>, u: real) { death.Some? && death.value <= u }

  lemma SameDeath(stats: seq<Stat>, s: Stat, value: real, asOf: real, rows: Rows, t: real, u: real)
    requires WellFormed(stats) && StatFits(stats, s) && s.fatal && s.min <= value <= s.max
    requires Stamped(stats, rows, asOf) && asOf <= t <= u && InReach(s, asOf, u)
    ensures var later := Restamp(stats, rows, t);
            var v := AtWith(stats, s, value, asOf, t, rows);
            && (DeadBy(DeadAtWith(stats, s, value, asOf, rows), u) <==> Dead(stats, s, value, asOf, u, rows))
            && (DeadBy(DeadAtWith(stats, s, v, t, later), u) <==> Dead(stats, s, value, asOf, u, rows))
            && (Dead(stats, s, v, t, u, later) <==> Dead(stats, s, value, asOf, u, rows))
  {
    hide Taken, TimeToTake, Onset, PenaltyDrop, StepsOf, Walk, AtWith, Exhausts;
    var later := Restamp(stats, rows, t);
    var v := AtWith(stats, s, value, asOf, t, rows);
    RestampStamps(stats, rows, asOf, t);
    StampedIsStampedBy(stats, rows, asOf);
    StampedIsStampedBy(stats, later, t);
    StaysInBounds(stats, s, value, asOf, t, rows);
    DeathIsThreshold(stats, s, value, asOf, rows, u);
    DeathIsThreshold(stats, s, v, t, later, u);
    ReadsCompose(stats, s, value, asOf, rows, t, u);
  }

  /** A span is what lies between two instants as long as that many nanoseconds fit in sixty-three bits, and otherwise
      the longest that does; a sum with a longer one is refused. */
  lemma ASpanIs(a: real, b: real, h: real)
    ensures var longest := 9223372036854775807.0 / 3600000000000.0;
            && HoursBetween(a, b) == (if b - a > longest then longest else if b - a < -longest then -longest else b - a)
            && AddHours(a, h) == if -longest <= h <= longest then Some(a + h) else None
  {}

  /** What a value alone reads: as stored until it is stamped, and from then on what its own drain leaves of it, kept
      between its floor and its ceiling. */
  lemma AReadingIs(s: Stat, value: real, asOf: real, now: real)
    requires s.min <= s.max && now - asOf <= MAX_SPAN
    ensures var left := if now <= asOf then value else value - s.decayPerHour * (now - asOf);
            At(s, value, asOf, now) == if left < s.min then s.min else if left > s.max then s.max else left
  {
    assert Taken(s.decayPerHour, now - asOf) == s.decayPerHour * (now - asOf);
  }
}
