/** The decay engine of the pet: a stat is a pair (value, asOf), read by integrating a piecewise-linear drain.

    Instants and spans are hours. A span between two instants is a time.Duration in the program, so it
    saturates at MAX_SPAN, and an interval longer than that is refused rather than added; both are kept. */
module Decay {
  import opened Wrappers

  /** The longest time.Duration (2^63 - 1 nanoseconds), in hours: about 292 years. */
  const MAX_SPAN: real := 9223372036854775807.0 / 3600000000000.0

  datatype Penalty = Penalty(whenKey: string, threshold: real, above: bool, ratePerHour: real)

  datatype Stat = Stat(
    key: string,
    min: real,
    max: real,
    start: real,
    decayPerHour: real,
    counter: bool,
    fatal: bool,
    penalties: seq<Penalty>)

  datatype StatRow = StatRow(key: string, value: real, asOf: real)

  type Rows = map<string, StatRow>

  /** One onset: from instant `at` on, the drain is `rate` steeper. */
  datatype Step = Step(at: real, rate: real)

  function StatByKey(stats: seq<Stat>, key: string): (r: Option<Stat>)
    ensures r.Some? ==> r.value in stats && r.value.key == key
  {
    if stats == [] then None
    else if stats[0].key == key then Some(stats[0])
    else StatByKey(stats[1..], key)
  }

  function HoursBetween(a: real, b: real): real {
    MaxR(-MAX_SPAN, MinR(MAX_SPAN, b - a))
  }

  function AddHours(t: real, h: real): Option<real> {
    if AbsR(h) > MAX_SPAN then None else Some(t + h)
  }

  /** What a drain takes over a span, and how long it needs to take a given amount. */
  function Taken(rate: real, hours: real): real { rate * hours }

  function TimeToTake(amount: real, rate: real): real
    requires rate != 0.0
  {
    amount / rate
  }

  predicate Holds(p: Penalty, v: real) {
    if p.above then v >= p.threshold else v <= p.threshold
  }

  function Clamp(s: Stat, v: real): real {
    MinR(s.max, MaxR(s.min, v))
  }

  function CrossesAt(s: Stat, value: real, asOf: real, threshold: real): Option<real> {
    if s.decayPerHour == 0.0 then None
    else AddHours(asOf, TimeToTake(Clamp(s, value) - threshold, s.decayPerHour))
  }

  /** The uncoupled reading, which is also how a driver's own trajectory is read. */
  function At(s: Stat, value: real, asOf: real, now: real): real {
    if now <= asOf then Clamp(s, value)
    else Clamp(s, value - Taken(s.decayPerHour, HoursBetween(asOf, now)))
  }

  /** From when on a penalty applies, read off its driver's row. */
  function OnsetOf(def: Stat, p: Penalty, row: StatRow, asOf: real): Option<real> {
    if Holds(p, At(def, row.value, row.asOf, asOf)) then Some(asOf)
    else if p.above && def.decayPerHour >= 0.0 then None
    else if !p.above && def.decayPerHour <= 0.0 then None
    else
      var at := CrossesAt(def, row.value, row.asOf, p.threshold);
      if at.None? || at.value < asOf then None else at
  }

  function Onset(stats: seq<Stat>, p: Penalty, asOf: real, drivers: Rows): Option<real> {
    if p.whenKey !in drivers then None
    else
      match StatByKey(stats, p.whenKey)
      case None => None
      case Some(def) => OnsetOf(def, p, drivers[p.whenKey], asOf)
  }

  /** What the first n penalties have taken by `now`. */
  function PenaltyDrop(stats: seq<Stat>, ps: seq<Penalty>, n: nat, asOf: real, now: real, drivers: Rows): real
    requires n <= |ps|
  {
    if n == 0 then 0.0
    else
      var rest := PenaltyDrop(stats, ps, n - 1, asOf, now, drivers);
      var from := Onset(stats, ps[n-1], asOf, drivers);
      if from.Some? && from.value < now
      then rest + Taken(ps[n-1].ratePerHour, HoursBetween(from.value, now))
      else rest
  }

  function AtWith(stats: seq<Stat>, s: Stat, value: real, asOf: real, now: real, drivers: Rows): real {
    if now <= asOf then Clamp(s, value)
    else
      var drop := Taken(s.decayPerHour, HoursBetween(asOf, now))
                + PenaltyDrop(stats, s.penalties, |s.penalties|, asOf, now, drivers);
      Clamp(s, value - drop)
  }

  function PenaltyRate(stats: seq<Stat>, ps: seq<Penalty>, n: nat, asOf: real, now: real, drivers: Rows): real
    requires n <= |ps|
  {
    if n == 0 then 0.0
    else
      var rest := PenaltyRate(stats, ps, n - 1, asOf, now, drivers);
      var from := Onset(stats, ps[n-1], asOf, drivers);
      if from.Some? && from.value <= now then rest + ps[n-1].ratePerHour else rest
  }

  function RateAt(stats: seq<Stat>, s: Stat, asOf: real, now: real, drivers: Rows): real {
    s.decayPerHour + PenaltyRate(stats, s.penalties, |s.penalties|, asOf, now, drivers)
  }

  /** The onsets of the first n penalties, in catalogue order. */
  function StepsOf(stats: seq<Stat>, ps: seq<Penalty>, n: nat, asOf: real, drivers: Rows): seq<Step>
    requires n <= |ps|
  {
    if n == 0 then []
    else
      var rest := StepsOf(stats, ps, n - 1, asOf, drivers);
      var from := Onset(stats, ps[n-1], asOf, drivers);
      if from.Some? then rest + [Step(from.value, ps[n-1].ratePerHour)] else rest
  }

  predicate SortedSteps(steps: seq<Step>) {
    forall i, j :: 0 <= i < j < |steps| ==> steps[i].at <= steps[j].at
  }

  /** One segment walk: what is left of the value is spent at `rate` until the next onset. */
  function Walk(cur: real, rate: real, left: real, steps: seq<Step>): Option<real>
    decreases |steps|
  {
    if steps == [] then
      if rate <= 0.0 then None else AddHours(cur, TimeToTake(left, rate))
    else
      var st := steps[0];
      if st.at > cur then
        var span := HoursBetween(cur, st.at);
        if rate > 0.0 && TimeToTake(left, rate) <= span then AddHours(cur, TimeToTake(left, rate))
        else Walk(st.at, rate + st.rate, if rate > 0.0 then left - Taken(rate, span) else left, steps[1..])
      else
        Walk(cur, rate + st.rate, left, steps[1..])
  }

  /** The read the program makes of a death, over one ordering of the onsets. */
  function DeathOver(s: Stat, value: real, asOf: real, steps: seq<Step>): Option<real> {
    if !s.fatal then None
    else
      var v := Clamp(s, value);
      if v <= s.min then Some(asOf)
      else Walk(asOf, s.decayPerHour, v - s.min, steps)
  }

  function DeadAtWith(stats: seq<Stat>, s: Stat, value: real, asOf: real, drivers: Rows): Option<real> {
    DeathOver(s, value, asOf, InsertAll(StepsOf(stats, s.penalties, |s.penalties|, asOf, drivers)))
  }

  predicate Dead(stats: seq<Stat>, s: Stat, value: real, asOf: real, now: real, drivers: Rows) {
    s.fatal && AtWith(stats, s, value, asOf, now, drivers) <= s.min
  }

  // ---- The loops the program runs ----

  method ReadAtWith(stats: seq<Stat>, s: Stat, value: real, asOf: real, now: real, drivers: Rows) returns (v: real)
    ensures v == AtWith(stats, s, value, asOf, now, drivers)
  {
    if now <= asOf { return Clamp(s, value); }
    var drop := Taken(s.decayPerHour, HoursBetween(asOf, now));
    for i := 0 to |s.penalties|
      invariant drop == Taken(s.decayPerHour, HoursBetween(asOf, now))
                      + PenaltyDrop(stats, s.penalties, i, asOf, now, drivers)
    {
      var p := s.penalties[i];
      var from := Onset(stats, p, asOf, drivers);
      if from.None? || from.value >= now { continue; }
      drop := drop + Taken(p.ratePerHour, HoursBetween(from.value, now));
    }
    v := Clamp(s, value - drop);
  }

  method ReadRateAt(stats: seq<Stat>, s: Stat, asOf: real, now: real, drivers: Rows) returns (rate: real)
    ensures rate == RateAt(stats, s, asOf, now, drivers)
  {
    rate := s.decayPerHour;
    for i := 0 to |s.penalties|
      invariant rate == s.decayPerHour + PenaltyRate(stats, s.penalties, i, asOf, now, drivers)
    {
      var from := Onset(stats, s.penalties[i], asOf, drivers);
      if from.Some? && from.value <= now { rate := rate + s.penalties[i].ratePerHour; }
    }
  }

  method DeriveDeath(stats: seq<Stat>, s: Stat, value: real, asOf: real, drivers: Rows) returns (death: Option<real>)
    ensures death == DeadAtWith(stats, s, value, asOf, drivers)
  {
    if !s.fatal { return None; }
    var v := Clamp(s, value);
    if v <= s.min { return Some(asOf); }
    var steps: seq<Step> := [];
    for i := 0 to |s.penalties|
      invariant steps == StepsOf(stats, s.penalties, i, asOf, drivers)
    {
      var from := Onset(stats, s.penalties[i], asOf, drivers);
      if from.Some? { steps := steps + [Step(from.value, s.penalties[i].ratePerHour)]; }
    }
    steps := InsertAll(steps);
    var cur, rate, left := asOf, s.decayPerHour, v - s.min;
    for i := 0 to |steps|
      invariant Walk(cur, rate, left, steps[i..]) == Walk(asOf, s.decayPerHour, v - s.min, steps)
    {
      var st := steps[i];
      assert steps[i..][1..] == steps[i+1..];
      if st.at > cur {
        var span := HoursBetween(cur, st.at);
        if rate > 0.0 {
          var need := TimeToTake(left, rate);
          if need <= span { return AddHours(cur, need); }
          left := left - Taken(rate, span);
        }
        cur := st.at;
      }
      rate := rate + st.rate;
    }
    if rate <= 0.0 { return None; }
    death := AddHours(cur, TimeToTake(left, rate));
  }

  // ---- Sorting the onsets ----

  function Insert(st: Step, steps: seq<Step>): seq<Step> {
    if steps == [] then [st]
    else if st.at <= steps[0].at then [st] + steps
    else [steps[0]] + Insert(st, steps[1..])
  }

  function InsertAll(steps: seq<Step>): seq<Step> {
    if steps == [] then [] else Insert(steps[0], InsertAll(steps[1..]))
  }

  lemma {:induction false} InsertKeeps(st: Step, steps: seq<Step>)
    ensures multiset(Insert(st, steps)) == multiset(steps) + multiset{st}
  {
    if steps != [] && st.at > steps[0].at {
      InsertKeeps(st, steps[1..]);
      assert steps == [steps[0]] + steps[1..];
    }
  }

  lemma {:induction false} InsertSorts(st: Step, steps: seq<Step>)
    requires SortedSteps(steps)
    ensures SortedSteps(Insert(st, steps))
    ensures forall k :: 0 <= k < |Insert(st, steps)| ==>
              Insert(st, steps)[k] == st || Insert(st, steps)[k] in steps
  {
    if steps != [] && st.at > steps[0].at {
      InsertSorts(st, steps[1..]);
    }
  }

  lemma {:induction false} InsertAllSorts(steps: seq<Step>)
    ensures SortedSteps(InsertAll(steps))
    ensures multiset(InsertAll(steps)) == multiset(steps)
  {
    if steps != [] {
      InsertAllSorts(steps[1..]);
      InsertSorts(steps[0], InsertAll(steps[1..]));
      InsertKeeps(steps[0], InsertAll(steps[1..]));
      assert steps == [steps[0]] + steps[1..];
    }
  }
}
