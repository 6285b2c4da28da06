/** The derived death is the exact first instant at which the coupled value stands on its floor. */
module FirstHit {
  import opened Wrappers
  import opened Sequences
  import opened Decay

  // ---- The arithmetic of one constant rate ----

  lemma TakenGrows(k: real, a: real, b: real)
    requires k >= 0.0 && a <= b
    ensures Taken(k, a) <= Taken(k, b)
  {}

  lemma TakenSplits(k: real, a: real, b: real)
    ensures Taken(k, a + b) == Taken(k, a) + Taken(k, b)
    ensures Taken(k, 0.0) == 0.0
  {}

  lemma TakenAdds(j: real, k: real, a: real)
    ensures Taken(j + k, a) == Taken(j, a) + Taken(k, a)
  {}

  lemma MulStrict(k: real, a: real, b: real)
    requires k > 0.0 && a < b
    ensures k * a < k * b
  {}

  lemma ReachedAt(rate: real, left: real, span: real)
    requires rate > 0.0
    ensures TimeToTake(left, rate) <= span <==> left <= Taken(rate, span)
    ensures left > 0.0 ==> TimeToTake(left, rate) > 0.0
  {
    hide Taken, TimeToTake;
    var q := TimeToTake(left, rate);
    TimeTakes(left, rate);
    if q <= span { TakenGrows(rate, q, span); } else { TakenGrowsStrictly(rate, span, q); }
    if q <= 0.0 { TakenGrows(rate, q, 0.0); TakenSplits(rate, 0.0, 0.0); }
  }

  lemma TimeTakes(left: real, rate: real)
    requires rate != 0.0
    ensures Taken(rate, TimeToTake(left, rate)) == left
  {}

  lemma TakenGrowsStrictly(k: real, a: real, b: real)
    requires k > 0.0 && a < b
    ensures Taken(k, a) < Taken(k, b)
  {
    MulStrict(k, a, b);
  }

  // ---- The drain, as a sum ----

  /** How far past an onset an instant is; zero while the penalty is still off. */
  function Overdue(from: Option<real>, t: real): real {
    if from.Some? && from.value < t then t - from.value else 0.0
  }

  /** The drain a walk integrates: the base rate since `cur`, and each step since its own onset. */
  function Drain(cur: real, rate: real, steps: seq<Step>, t: real): real
    decreases |steps|
  {
    if steps == [] then Taken(rate, t - cur)
    else Drain(cur, rate, steps[1..], t) + Taken(steps[0].rate, Overdue(Some(steps[0].at), t))
  }

  predicate Rising(steps: seq<Step>) {
    forall i :: 0 <= i < |steps| ==> steps[i].rate >= 0.0
  }

  predicate Within(steps: seq<Step>, lo: real, hi: real) {
    forall i :: 0 <= i < |steps| ==> lo <= steps[i].at <= hi
  }

  lemma {:induction false} DrainBeforeSteps(cur: real, rate: real, steps: seq<Step>, t: real)
    requires forall i :: 0 <= i < |steps| ==> t <= steps[i].at
    ensures Drain(cur, rate, steps, t) == Taken(rate, t - cur)
    decreases |steps|
  {
    hide Taken;
    if steps != [] {
      TakenSplits(steps[0].rate, 0.0, 0.0);
      DrainBeforeSteps(cur, rate, steps[1..], t);
    }
  }

  lemma {:induction false} DrainRebase(cur: real, rate: real, mid: real, extra: real, steps: seq<Step>, t: real)
    ensures Drain(cur, rate, steps, t) + Taken(extra, t - mid)
         == Drain(mid, rate + extra, steps, t) + Taken(rate, mid - cur)
    decreases |steps|
  {
    hide Taken;
    if steps == [] {
      TakenSplits(rate, mid - cur, t - mid);
      TakenAdds(rate, extra, t - mid);
      assert mid - cur + (t - mid) == t - cur;
    } else {
      DrainRebase(cur, rate, mid, extra, steps[1..], t);
    }
  }

  lemma {:induction false} DrainGrows(cur: real, rate: real, steps: seq<Step>, t: real, u: real)
    requires rate >= 0.0 && Rising(steps) && t <= u
    ensures Drain(cur, rate, steps, t) <= Drain(cur, rate, steps, u)
    decreases |steps|
  {
    hide Taken;
    if steps == [] {
      TakenGrows(rate, t - cur, u - cur);
    } else {
      DrainGrows(cur, rate, steps[1..], t, u);
      TakenGrows(steps[0].rate, Overdue(Some(steps[0].at), t), Overdue(Some(steps[0].at), u));
    }
  }

  lemma DrainUnfold(cur: real, rate: real, st: Step, rest: seq<Step>, t: real)
    ensures Drain(cur, rate, [st] + rest, t) == Drain(cur, rate, rest, t) + Taken(st.rate, Overdue(Some(st.at), t))
  {
    hide Taken;
    assert ([st] + rest)[1..] == rest;
  }

  lemma {:induction false} DrainOfInsert(cur: real, rate: real, st: Step, steps: seq<Step>, t: real)
    ensures Drain(cur, rate, Insert(st, steps), t)
         == Drain(cur, rate, steps, t) + Taken(st.rate, Overdue(Some(st.at), t))
    decreases |steps|
  {
    hide Taken;
    if steps == [] || st.at <= steps[0].at {
      assert Insert(st, steps) == [st] + steps;
      DrainUnfold(cur, rate, st, steps, t);
    } else {
      DrainOfInsert(cur, rate, st, steps[1..], t);
      DrainUnfold(cur, rate, steps[0], Insert(st, steps[1..]), t);
      DrainUnfold(cur, rate, steps[0], steps[1..], t);
      assert steps == [steps[0]] + steps[1..];
    }
  }

  lemma {:induction false} DrainOfInsertAll(cur: real, rate: real, steps: seq<Step>, t: real)
    ensures Drain(cur, rate, InsertAll(steps), t) == Drain(cur, rate, steps, t)
    decreases |steps|
  {
    hide Taken;
    if steps != [] {
      DrainOfInsertAll(cur, rate, steps[1..], t);
      DrainOfInsert(cur, rate, steps[0], InsertAll(steps[1..]), t);
    }
  }

  lemma {:induction false} DrainSnoc(cur: real, rate: real, steps: seq<Step>, st: Step, t: real)
    ensures Drain(cur, rate, steps + [st], t)
         == Drain(cur, rate, steps, t) + Taken(st.rate, Overdue(Some(st.at), t))
    decreases |steps|
  {
    hide Taken;
    if steps == [] {
      assert [st][1..] == [];
      assert steps + [st] == [st];
    } else {
      DrainSnoc(cur, rate, steps[1..], st, t);
      assert (steps + [st])[1..] == steps[1..] + [st];
    }
  }

  // ---- The walk finds the first instant the drain reaches what is left ----

  /** Pointwise: at any instant within one Duration of the start, the drain has reached `left`
      exactly when the walk's answer is at or before that instant. */
  lemma {:induction false} WalkIsThreshold(start: real, cur: real, rate: real, left: real, steps: seq<Step>, t: real)
    requires start <= cur <= t <= start + MAX_SPAN
    requires rate >= 0.0 && left > 0.0 && Rising(steps) && SortedSteps(steps)
    requires Within(steps, cur, start + MAX_SPAN)
    ensures var w := Walk(cur, rate, left, steps);
            (w.Some? && w.value <= t) <==> left <= Drain(cur, rate, steps, t)
    decreases |steps|
  {
    hide Taken, TimeToTake;
    if rate > 0.0 { ReachedAt(rate, left, t - cur); } else { TakenIsNothing(rate, t - cur); }
    if steps != [] {
      var st, rest := steps[0], steps[1..];
      if st.at == cur {
        DrainRebase(cur, rate, cur, st.rate, rest, t);
        TakenSplits(rate, 0.0, 0.0);
        WalkIsThreshold(start, cur, rate + st.rate, left, rest, t);
      } else if rate > 0.0 && TimeToTake(left, rate) <= st.at - cur {
        WalkEndsInSegment(cur, rate, left, steps, t);
      } else {
        var after := LeftAfter(rate, left, st.at - cur);
        assert Walk(cur, rate, left, steps) == Walk(st.at, rate + st.rate, after, rest);
        if t <= st.at {
          DrainBeforeSteps(cur, rate, steps, t);
          TakenGrows(rate, t - cur, st.at - cur);
          WalkNotBefore(st.at, rate + st.rate, after, rest);
        } else {
          WalkIsThreshold(start, st.at, rate + st.rate, after, rest, t);
          DrainRebase(cur, rate, st.at, st.rate, rest, t);
        }
      }
    }
  }

  lemma TakenIsNothing(rate: real, span: real)
    requires rate == 0.0
    ensures Taken(rate, span) == 0.0
  {}

  /** What a segment that did not finish him leaves to be drained. */
  lemma LeftAfter(rate: real, left: real, span: real) returns (after: real)
    requires rate >= 0.0 && left > 0.0 && 0.0 < span
    requires rate > 0.0 ==> TimeToTake(left, rate) > span
    ensures after == left - Taken(rate, span) && after > 0.0
    ensures after == if rate > 0.0 then left - Taken(rate, span) else left
  {
    hide Taken, TimeToTake;
    after := left - Taken(rate, span);
    if rate > 0.0 { ReachedAt(rate, left, span); } else { TakenIsNothing(rate, span); }
  }

  lemma WalkEndsInSegment(cur: real, rate: real, left: real, steps: seq<Step>, t: real)
    requires steps != [] && cur <= t
    requires rate > 0.0 && left > 0.0 && Rising(steps) && SortedSteps(steps)
    requires cur < steps[0].at <= cur + MAX_SPAN && TimeToTake(left, rate) <= steps[0].at - cur
    ensures Walk(cur, rate, left, steps) == Some(cur + TimeToTake(left, rate))
    ensures cur + TimeToTake(left, rate) <= t <==> left <= Drain(cur, rate, steps, t)
  {
    hide Taken, TimeToTake;
    ReachedAt(rate, left, steps[0].at - cur);
    ReachedAt(rate, left, t - cur);
    if t <= steps[0].at {
      DrainBeforeSteps(cur, rate, steps, t);
    } else {
      DrainBeforeSteps(cur, rate, steps, steps[0].at);
      DrainGrows(cur, rate, steps, steps[0].at, t);
    }
  }

  lemma {:induction false} WalkNotBefore(cur: real, rate: real, left: real, steps: seq<Step>)
    requires left > 0.0
    ensures var w := Walk(cur, rate, left, steps); w.Some? ==> w.value > cur
    decreases |steps|
  {
    hide Taken, TimeToTake;
    if rate > 0.0 { ReachedAt(rate, left, 0.0); }
    if steps != [] {
      var st := steps[0];
      if st.at > cur {
        var span := HoursBetween(cur, st.at);
        if !(rate > 0.0 && TimeToTake(left, rate) <= span) {
          if rate > 0.0 { ReachedAt(rate, left, span); }
          WalkNotBefore(st.at, rate + st.rate, if rate > 0.0 then left - Taken(rate, span) else left, steps[1..]);
        }
      } else {
        WalkNotBefore(cur, rate + st.rate, left, steps[1..]);
      }
    }
  }

  // ---- The coupled reading is the drain, clamped ----

  /** A stat that only ever loses: what every fatal or penalised stat of the catalogue is. */
  predicate Drains(s: Stat) {
    s.decayPerHour >= 0.0 && forall i :: 0 <= i < |s.penalties| ==> s.penalties[i].ratePerHour >= 0.0
  }

  /** A stat whose own rate would use up its whole scale within the longest Duration, or that never moves at all. */
  predicate Exhausts(s: Stat) {
    || (s.decayPerHour == 0.0 && s.penalties == [])
    || Taken(AbsR(s.decayPerHour), MAX_SPAN) >= s.max - s.min
  }

  /** Where the saturating span cannot be told from an unbounded one. */
  predicate InReach(s: Stat, asOf: real, t: real) { t <= asOf + MAX_SPAN || Exhausts(s) }

  /** Every stored driver was written at or before `asOf`. */
  predicate StampedBy(drivers: Rows, asOf: real) {
    forall k :: k in drivers ==> drivers[k].asOf <= asOf
  }

  lemma {:induction false} StepsAreOnsets(stats: seq<Stat>, ps: seq<Penalty>, n: nat, asOf: real, drivers: Rows)
    requires n <= |ps| && StampedBy(drivers, asOf)
    requires forall i :: 0 <= i < |ps| ==> ps[i].ratePerHour >= 0.0
    ensures Within(StepsOf(stats, ps, n, asOf, drivers), asOf, asOf + MAX_SPAN)
    ensures Rising(StepsOf(stats, ps, n, asOf, drivers))
  {
    hide Taken, TimeToTake;
    if n > 0 { StepsAreOnsets(stats, ps, n - 1, asOf, drivers); }
  }

  lemma {:induction false} PenaltyDropIsDrain(stats: seq<Stat>, ps: seq<Penalty>, n: nat, base: real, asOf: real,
                                              t: real, drivers: Rows)
    requires n <= |ps| && StampedBy(drivers, asOf) && asOf <= t <= asOf + MAX_SPAN
    ensures Drain(asOf, base, StepsOf(stats, ps, n, asOf, drivers), t)
         == Taken(base, t - asOf) + PenaltyDrop(stats, ps, n, asOf, t, drivers)
  {
    hide Taken, TimeToTake;
    if n > 0 {
      PenaltyDropIsDrain(stats, ps, n - 1, base, asOf, t, drivers);
      var from := Onset(stats, ps[n-1], asOf, drivers);
      if from.Some? {
        DrainSnoc(asOf, base, StepsOf(stats, ps, n - 1, asOf, drivers), Step(from.value, ps[n-1].ratePerHour), t);
        TakenSplits(ps[n-1].ratePerHour, 0.0, 0.0);
      }
    }
  }

  lemma {:induction false} SortedStepsStay(steps: seq<Step>, lo: real, hi: real)
    requires Within(steps, lo, hi) && Rising(steps)
    ensures Within(InsertAll(steps), lo, hi) && Rising(InsertAll(steps)) && SortedSteps(InsertAll(steps))
  {
    InsertAllSorts(steps);
    var out := InsertAll(steps);
    forall i | 0 <= i < |out| ensures lo <= out[i].at <= hi && out[i].rate >= 0.0 {
      assert out[i] in multiset(out);
      assert out[i] in steps;
    }
  }

  /** The derived death is exact, pointwise: at any instant a Duration can reach, and for a stat that exhausts its scale
      at every instant, the coupled value stands on its floor if and only if the derived death is at or before it. */
  lemma DeathIsThreshold(stats: seq<Stat>, s: Stat, value: real, asOf: real, drivers: Rows, t: real)
    requires s.fatal && Drains(s) && s.min <= value <= s.max && StampedBy(drivers, asOf)
    requires asOf <= t && InReach(s, asOf, t)
    ensures var d := DeadAtWith(stats, s, value, asOf, drivers);
            AtWith(stats, s, value, asOf, t, drivers) == s.min <==> d.Some? && d.value <= t
    ensures Dead(stats, s, value, asOf, t, drivers) <==> AtWith(stats, s, value, asOf, t, drivers) == s.min
  {
    hide Taken, TimeToTake, PenaltyDrop, StepsOf, Walk;
    if t <= asOf + MAX_SPAN {
      DeathIsThresholdNear(stats, s, value, asOf, drivers, t);
    } else {
      DeathIsThresholdNear(stats, s, value, asOf, drivers, asOf);
      DeathIsThresholdNear(stats, s, value, asOf, drivers, asOf + MAX_SPAN);
      BeyondReach(stats, s, value, asOf, drivers, t);
    }
  }

  /** Past the longest Duration an exhaustible stat has nothing left, or has not moved. */
  lemma BeyondReach(stats: seq<Stat>, s: Stat, value: real, asOf: real, drivers: Rows, t: real)
    requires Drains(s) && s.min <= value <= s.max && Exhausts(s) && t > asOf + MAX_SPAN
    ensures var v := AtWith(stats, s, value, asOf, t, drivers);
            v == AtWith(stats, s, value, asOf, asOf + MAX_SPAN, drivers)
    ensures !(s.decayPerHour == 0.0 && s.penalties == []) ==> AtWith(stats, s, value, asOf, t, drivers) == s.min
    ensures s.decayPerHour == 0.0 && s.penalties == [] ==> DeadAtWith(stats, s, value, asOf, drivers).Some? ==>
            value == s.min
  {
    hide Taken, TimeToTake;
    var ps, n := s.penalties, |s.penalties|;
    if s.decayPerHour == 0.0 && ps == [] {
      TakenIsNothing(s.decayPerHour, MAX_SPAN);
      assert StepsOf(stats, ps, n, asOf, drivers) == [];
    } else {
      DropNeverGives(stats, ps, n, asOf, t, drivers);
      DropNeverGives(stats, ps, n, asOf, asOf + MAX_SPAN, drivers);
    }
  }

  lemma {:induction false} DropNeverGives(stats: seq<Stat>, ps: seq<Penalty>, n: nat, asOf: real, t: real,
                                          drivers: Rows)
    requires n <= |ps| && forall i :: 0 <= i < |ps| ==> ps[i].ratePerHour >= 0.0
    ensures PenaltyDrop(stats, ps, n, asOf, t, drivers) >= 0.0
  {
    hide Taken, TimeToTake, Onset;
    if n > 0 {
      DropNeverGives(stats, ps, n - 1, asOf, t, drivers);
      var from := Onset(stats, ps[n-1], asOf, drivers);
      if from.Some? && from.value < t {
        TakenGrows(ps[n-1].ratePerHour, 0.0, HoursBetween(from.value, t));
        TakenSplits(ps[n-1].ratePerHour, 0.0, 0.0);
      }
    }
  }

  lemma DeathIsThresholdNear(stats: seq<Stat>, s: Stat, value: real, asOf: real, drivers: Rows, t: real)
    requires s.fatal && Drains(s) && s.min <= value <= s.max && StampedBy(drivers, asOf)
    requires asOf <= t <= asOf + MAX_SPAN
    ensures var d := DeadAtWith(stats, s, value, asOf, drivers);
            AtWith(stats, s, value, asOf, t, drivers) == s.min <==> d.Some? && d.value <= t
    ensures Dead(stats, s, value, asOf, t, drivers) <==> AtWith(stats, s, value, asOf, t, drivers) == s.min
  {
    hide Taken, TimeToTake;
    var ps, n := s.penalties, |s.penalties|;
    var steps := StepsOf(stats, ps, n, asOf, drivers);
    StepsAreOnsets(stats, ps, n, asOf, drivers);
    SortedStepsStay(steps, asOf, asOf + MAX_SPAN);
    var sorted := InsertAll(steps);
    ReadIsDrain(stats, s, value, asOf, drivers, t);
    DrainGrows(asOf, s.decayPerHour, sorted, asOf, t);
    DrainBeforeSteps(asOf, s.decayPerHour, sorted, asOf);
    TakenSplits(s.decayPerHour, 0.0, 0.0);
    if value > s.min {
      WalkNotBefore(asOf, s.decayPerHour, value - s.min, sorted);
      WalkIsThreshold(asOf, asOf, s.decayPerHour, value - s.min, sorted, t);
    }
  }

  /** The coupled reading is the stored value less the drain over the sorted onsets, clamped once at the end. */
  lemma ReadIsDrain(stats: seq<Stat>, s: Stat, value: real, asOf: real, drivers: Rows, t: real)
    requires s.min <= value <= s.max && StampedBy(drivers, asOf) && asOf <= t <= asOf + MAX_SPAN
    requires forall i :: 0 <= i < |s.penalties| ==> s.penalties[i].ratePerHour >= 0.0
    ensures var sorted := InsertAll(StepsOf(stats, s.penalties, |s.penalties|, asOf, drivers));
            AtWith(stats, s, value, asOf, t, drivers) == Clamp(s, value - Drain(asOf, s.decayPerHour, sorted, t))
  {
    hide Taken, TimeToTake;
    var ps, n := s.penalties, |s.penalties|;
    var steps := StepsOf(stats, ps, n, asOf, drivers);
    StepsAreOnsets(stats, ps, n, asOf, drivers);
    SortedStepsStay(steps, asOf, asOf + MAX_SPAN);
    PenaltyDropIsDrain(stats, ps, n, s.decayPerHour, asOf, t, drivers);
    DrainOfInsertAll(asOf, s.decayPerHour, steps, t);
    DrainBeforeSteps(asOf, s.decayPerHour, InsertAll(steps), asOf);
    TakenSplits(s.decayPerHour, 0.0, 0.0);
  }

  /** The first-hit reading of the same fact, and the converse: no death means the floor is never reached. */
  lemma DeathIsFirstHit(stats: seq<Stat>, s: Stat, value: real, asOf: real, drivers: Rows, t: real)
    requires s.fatal && Drains(s) && s.min <= value <= s.max && StampedBy(drivers, asOf)
    requires asOf <= t && InReach(s, asOf, t)
    ensures DeadAtWith(stats, s, value, asOf, drivers) == Some(t)
        <==> (AtWith(stats, s, value, asOf, t, drivers) == s.min
              && forall u :: asOf <= u < t ==> AtWith(stats, s, value, asOf, u, drivers) > s.min)
    ensures DeadAtWith(stats, s, value, asOf, drivers).None? ==>
              forall u :: asOf <= u && InReach(s, asOf, u) ==> AtWith(stats, s, value, asOf, u, drivers) > s.min
  {
    hide Taken, TimeToTake, PenaltyDrop, StepsOf, Walk, Exhausts;
    var d := DeadAtWith(stats, s, value, asOf, drivers);
    forall u | asOf <= u && InReach(s, asOf, u)
      ensures AtWith(stats, s, value, asOf, u, drivers) == s.min <==> d.Some? && d.value <= u
      ensures AtWith(stats, s, value, asOf, u, drivers) >= s.min
    {
      DeathIsThreshold(stats, s, value, asOf, drivers, u);
    }
    DeathNotBefore(stats, s, value, asOf, drivers);
    if d.Some? && d.value <= t {
      assert AtWith(stats, s, value, asOf, d.value, drivers) == s.min;
    }
  }

  lemma DeathNotBefore(stats: seq<Stat>, s: Stat, value: real, asOf: real, drivers: Rows)
    ensures var d := DeadAtWith(stats, s, value, asOf, drivers); d.Some? ==> d.value >= asOf
  {
    hide Taken, TimeToTake, StepsOf;
    if s.fatal && Clamp(s, value) > s.min {
      WalkNotBefore(asOf, s.decayPerHour, Clamp(s, value) - s.min,
        InsertAll(StepsOf(stats, s.penalties, |s.penalties|, asOf, drivers)));
    }
  }

  /** How the program happens to order coinciding onsets cannot change the death it derives. */
  lemma TiesDoNotMatter(s: Stat, value: real, asOf: real, a: seq<Step>, b: seq<Step>, t: real)
    requires SortedSteps(a) && SortedSteps(b) && multiset(a) == multiset(b)
    requires Rising(a) && Within(a, asOf, asOf + MAX_SPAN) && Drains(s)
    requires asOf <= t <= asOf + MAX_SPAN
    ensures DeathOver(s, value, asOf, a) == Some(t) <==> DeathOver(s, value, asOf, b) == Some(t)
  {
    hide Taken, TimeToTake;
    if s.fatal && Clamp(s, value) > s.min {
      forall i | 0 <= i < |b| ensures asOf <= b[i].at <= asOf + MAX_SPAN && b[i].rate >= 0.0 {
        assert b[i] in multiset(b);
        assert b[i] in a;
      }
      var x, y := DeathOver(s, value, asOf, a), DeathOver(s, value, asOf, b);
      SameThreshold(s, value, asOf, a, b, t);
      WalkNotBefore(asOf, s.decayPerHour, Clamp(s, value) - s.min, a);
      WalkNotBefore(asOf, s.decayPerHour, Clamp(s, value) - s.min, b);
      if x.Some? && x.value <= t { SameThreshold(s, value, asOf, a, b, x.value); }
      if y.Some? && y.value <= t { SameThreshold(s, value, asOf, a, b, y.value); }
    }
  }

  lemma SameThreshold(s: Stat, value: real, asOf: real, a: seq<Step>, b: seq<Step>, t: real)
    requires SortedSteps(a) && SortedSteps(b) && multiset(a) == multiset(b)
    requires Rising(a) && Within(a, asOf, asOf + MAX_SPAN) && Drains(s)
    requires Rising(b) && Within(b, asOf, asOf + MAX_SPAN)
    requires asOf <= t <= asOf + MAX_SPAN && s.fatal && Clamp(s, value) > s.min
    ensures var x, y := DeathOver(s, value, asOf, a), DeathOver(s, value, asOf, b);
            (x.Some? && x.value <= t) <==> (y.Some? && y.value <= t)
  {
    hide Taken, TimeToTake;
    var left := Clamp(s, value) - s.min;
    DrainOfPermutation(asOf, s.decayPerHour, a, b, t);
    WalkIsThreshold(asOf, asOf, s.decayPerHour, left, a, t);
    WalkIsThreshold(asOf, asOf, s.decayPerHour, left, b, t);
  }

  lemma {:induction false} DrainOfPermutation(cur: real, rate: real, a: seq<Step>, b: seq<Step>, t: real)
    requires multiset(a) == multiset(b)
    ensures Drain(cur, rate, a, t) == Drain(cur, rate, b, t)
    decreases |a|
  {
    hide Taken, Drain;
    if a == [] {
      assert |multiset(b)| == 0;
    } else {
      WithoutMembers(a, 0);
      assert a[0] in multiset(a) && a[0] in b;
      var i :| 0 <= i < |b| && b[i] == a[0];
      WithoutMembers(b, i);
      assert Without(a, 0) == a[1..] && b == b[..i] + [b[i]] + b[i+1..];
      SameLeft(multiset(a[1..]), multiset(Without(b, i)), a[0]);
      assert a == [a[0]] + a[1..];
      DrainUnfold(cur, rate, a[0], a[1..], t);
      DrainMovesOut(cur, rate, b[..i], b[i], b[i+1..], t);
      DrainOfPermutation(cur, rate, a[1..], Without(b, i), t);
    }
  }

  lemma SameLeft(a: multiset<Step>, b: multiset<Step>, st: Step)
    requires a + multiset{st} == b + multiset{st}
    ensures a == b
  {
    assert a == a + multiset{st} - multiset{st} && b == b + multiset{st} - multiset{st};
  }

  lemma {:induction false} DrainMovesOut(cur: real, rate: real, pre: seq<Step>, st: Step, post: seq<Step>, t: real)
    ensures Drain(cur, rate, pre + [st] + post, t)
         == Drain(cur, rate, pre + post, t) + Taken(st.rate, Overdue(Some(st.at), t))
    decreases |pre|
  {
    hide Taken;
    if pre == [] {
      assert pre + [st] + post == [st] + post;
      assert pre + post == post;
      DrainUnfold(cur, rate, st, post, t);
    } else {
      DrainMovesOut(cur, rate, pre[1..], st, post, t);
      assert pre + [st] + post == [pre[0]] + (pre[1..] + [st] + post);
      assert pre + post == [pre[0]] + (pre[1..] + post);
      DrainUnfold(cur, rate, pre[0], pre[1..] + [st] + post, t);
      DrainUnfold(cur, rate, pre[0], pre[1..] + post, t);
    }
  }
}
