/** Where everybody used to be: a ring of recent frames, and the reading between two of them. */
module Rewind {
  import opened Wrappers
  import opened Plane
  import opened CommandLane
  import opened Soldier

  const REWIND_MAX: real := 0.5
  const INTERPOLATION_DELAY: real := 0.12
  /** HISTORY_WINDOW / SIM_STEP, the window being the rewind's limit and two steps. */
  const HISTORY_CAPACITY: nat := 12

  /** Where something stood. `whose` is not in the program: it names the entities whose positions went into the spot, so
      that a reading can be held to account. */
  datatype Spot = Spot(pos: Vec2, sector: nat, alive: bool, whose: set<nat>)

  datatype Frame = Frame(tick: nat, at: real, spots: map<Target, Spot>)

  // ---- The reference: a list of the last frames ----

  function LastN(fs: seq<Frame>, n: nat): seq<Frame> { if |fs| > n then fs[|fs| - n..] else fs }

  function Without(f: Frame, r: Target): Frame { f.(spots := f.spots - {r}) }

  function Forgotten(fs: seq<Frame>, r: Target): (gs: seq<Frame>)
    ensures |gs| == |fs|
  {
    seq(|fs|, i requires 0 <= i < |fs| => Without(fs[i], r))
  }

  function Lerp(from: real, to: real, t: real): real { from + (to - from) * t }

  function Between(a: Spot, b: Spot, t: real): Spot {
    Spot(Vec2(Lerp(a.pos.x, b.pos.x, t), Lerp(a.pos.y, b.pos.y, t)), b.sector, a.alive && b.alive, a.whose + b.whose)
  }

  /** Who is in the later frame, drawn part of the way from where the earlier one had them. */
  function Blend(a: Frame, b: Frame, instant: real): map<Target, Spot>
    requires a.at < b.at
  {
    var t := (instant - a.at) / (b.at - a.at);
    map r | r in b.spots :: if r in a.spots then Between(a.spots[r], b.spots[r], t) else b.spots[r]
  }

  /** The first frame from i on that is no earlier than the instant. */
  function FirstFrom(fs: seq<Frame>, instant: real, i: nat): (j: nat)
    requires i <= |fs|
    ensures i <= j <= |fs| && (j < |fs| ==> fs[j].at >= instant)
    ensures forall k :: i <= k < j ==> fs[k].at < instant
    decreases |fs| - i
  {
    if i == |fs| || fs[i].at >= instant then i else FirstFrom(fs, instant, i + 1)
  }

  function Rewound(fs: seq<Frame>, instant: real): map<Target, Spot> {
    if fs == [] then map[]
    else if instant <= fs[0].at then fs[0].spots
    else if instant >= fs[|fs|-1].at then fs[|fs|-1].spots
    else
      var i := FirstFrom(fs, instant, 1);
      assert i < |fs| && fs[i-1].at < instant;
      Blend(fs[i-1], fs[i], instant)
  }

  function RewindInstant(now: real, rtt: real): real { now - MinR(MaxR(0.0, rtt) + INTERPOLATION_DELAY, REWIND_MAX) }

  // ---- The ring ----

  /** Where the i-th oldest of a ring's frames is kept. */
  function Turned(n: nat, next: nat, count: nat, i: nat): (k: nat)
    requires n > 0
    ensures k < n
  {
    ((if count == n then next else 0) + i) % n
  }

  /** A ring's frames laid out, oldest first. */
  function Unrolled(frames: seq<Frame>, next: nat, count: nat): (fs: seq<Frame>)
    requires |frames| > 0
    ensures |fs| == count && forall i :: 0 <= i < count ==> fs[i] == frames[Turned(|frames|, next, count, i)]
  {
    seq(count, i requires 0 <= i < count => frames[Turned(|frames|, next, count, i)])
  }

  /** One more frame in the next slot is one more at the end, and at most the oldest lost. */
  lemma OneMoreFrame(frames: seq<Frame>, next: nat, count: nat, f: Frame)
    requires next < |frames| && count <= |frames| && (count < |frames| ==> next == count)
    ensures var n := |frames|;
            Unrolled(frames[next := f], (next + 1) % n, if count < n then count + 1 else count)
            == LastN(Unrolled(frames, next, count) + [f], n)
  {
    hide Turned, Unrolled;
    var n, count' := |frames|, if count < |frames| then count + 1 else count;
    var now, then' := Unrolled(frames[next := f], (next + 1) % n, count'),
        LastN(Unrolled(frames, next, count) + [f], n);
    forall i: nat | i < count' ensures now[i] == then'[i] {
      TurnedOn(n, next, count, i);
    }
    assert now == then';
  }

  /** The arithmetic of it: the slot just written is read last, and every other frame one place earlier than it was. */
  lemma TurnedOn(n: nat, next: nat, count: nat, i: nat)
    requires next < n && count <= n && (count < n ==> next == count) && i < if count < n then count + 1 else count
    ensures var k := Turned(n, (next + 1) % n, if count < n then count + 1 else count, i);
            if count < n then (if i == count then k == next else k != next && k == Turned(n, next, count, i))
            else (if i == n - 1 then k == next else k != next && k == Turned(n, next, count, i + 1))
  {
    OnceAround(next + 1, n);
    OnceAround((next + 1) % n + i, n);
    OnceAround(next + i, n);
    OnceAround(next + i + 1, n);
    OnceAround(i, n);
  }

  class Ring {
    const frames: array<Frame>
    var next: nat
    var count: nat

    ghost predicate Valid()
      reads this
    {
      && frames.Length > 0 && next < frames.Length && count <= frames.Length
      && (count < frames.Length ==> next == count)
    }

    /** The slot of the i-th oldest frame. */
    function Index(i: nat): nat
      requires frames.Length > 0
      reads this
    {
      Turned(frames.Length, next, count, i)
    }

    /** The recorded frames, oldest first. */
    ghost function Contents(): (fs: seq<Frame>)
      requires Valid()
      reads this, frames
      ensures |fs| == count && forall i: nat :: i < count ==> fs[i] == frames[Index(i)]
    {
      Unrolled(frames[..], next, count)
    }

    constructor ()
      ensures Valid() && fresh(frames) && frames.Length == HISTORY_CAPACITY && Contents() == []
    {
      frames := new Frame[HISTORY_CAPACITY](_ => Frame(0, 0.0, map[]));
      next, count := 0, 0;
    }

    method Record(tick: nat, at: real, spots: map<Target, Spot>)
      requires Valid()
      modifies this, frames
      ensures Valid() && Contents() == LastN(old(Contents()) + [Frame(tick, at, spots)], frames.Length)
    {
      hide Turned, LastN;
      ghost var was, start, f := frames[..], next, Frame(tick, at, spots);
      OneMoreFrame(was, start, count, f);
      frames[next] := Frame(tick, at, spots);
      assert frames[..] == was[start := f];
      OnceAround(next + 1, frames.Length);
      next := (next + 1) % frames.Length;
      if count < frames.Length { count := count + 1; }
    }

    /** Every frame loses one entity. */
    method Forget(r: Target)
      requires Valid()
      modifies frames
      ensures Valid() && Contents() == Forgotten(old(Contents()), r)
    {
      for i := 0 to frames.Length
        invariant Valid()
        invariant forall k :: 0 <= k < i ==> frames[k] == Without(old(frames[k]), r)
        invariant forall k :: i <= k < frames.Length ==> frames[k] == old(frames[k])
      {
        frames[i] := frames[i].(spots := frames[i].spots - {r});
      }
    }

    /** The spots at an instant. Where the program guards against a span of zero it need not: the frame before the first
        that is late enough is always strictly earlier. */
    method At(instant: real) returns (spots: map<Target, Spot>)
      requires Valid()
      ensures spots == Rewound(Contents(), instant)
    {
      ghost var fs := Contents();
      if count == 0 { return map[]; }
      var oldest, newest := frames[Index(0)], frames[Index(count - 1)];
      assert oldest == fs[0] && newest == fs[count-1];
      if instant <= oldest.at { return oldest.spots; }
      if instant >= newest.at { return newest.spots; }
      for i := 1 to count
        invariant FirstFrom(fs, instant, 1) == FirstFrom(fs, instant, i) && fs[i-1].at < instant
      {
        var b := frames[Index(i)];
        assert b == fs[i];
        if b.at < instant { continue; }
        var a := frames[Index(i - 1)];
        assert a == fs[i-1] && b.at - a.at > 0.0;
        return Blend(a, b, instant);
      }
      return newest.spots;
    }
  }

  lemma TimesOrder(n: nat, d: int)
    ensures d >= 1 ==> n * d >= n
    ensures d <= -1 ==> n * d + n <= 0
  {}

  /** The remainder is the only one. */
  lemma RemainderIs(x: nat, n: nat, q: int, r: nat)
    requires r < n && x == n * q + r
    ensures x % n == r
  {
    TimesOrder(n, q - x / n);
    assert n * (q - x / n) == n * q - n * (x / n);
  }

  lemma OnceAround(i: nat, n: nat)
    requires 0 < n && i < 2 * n
    ensures i % n == if i < n then i else i - n
  {
    if i < n { RemainderIs(i, n, 0, i); } else { RemainderIs(i, n, 1, i - n); }
  }

  // ---- What a reading is ----

  predicate Ordered(fs: seq<Frame>) { forall i, j :: 0 <= i < j < |fs| ==> fs[i].at < fs[j].at }

  /** Exactly as far from one position to the other as the time gone is of the span. */
  predicate PartWay(a: Vec2, b: Vec2, at: Vec2, gone: real, span: real) {
    (at.x - a.x) * span == (b.x - a.x) * gone && (at.y - a.y) * span == (b.y - a.y) * gone
  }

  lemma BlendIsPartWay(a: Frame, b: Frame, instant: real, r: Target)
    requires a.at < b.at && r in a.spots && r in b.spots
    ensures PartWay(a.spots[r].pos, b.spots[r].pos, Blend(a, b, instant)[r].pos, instant - a.at, b.at - a.at)
  {
    hide Lerp;
    LerpExact(a.spots[r].pos.x, b.spots[r].pos.x, instant - a.at, b.at - a.at);
    LerpExact(a.spots[r].pos.y, b.spots[r].pos.y, instant - a.at, b.at - a.at);
  }

  lemma BracketIs(fs: seq<Frame>, instant: real, i: nat)
    requires Ordered(fs) && 0 < i < |fs| && fs[i-1].at < instant <= fs[i].at
    ensures Rewound(fs, instant) == if instant == fs[|fs|-1].at then fs[i].spots else Blend(fs[i-1], fs[i], instant)
  {
    hide Blend;
    var j := FirstFrom(fs, instant, 1);
    assert j == i;
  }

  /** Among frames in order, the reading is the interpolation between the two frames either side and no other two, and
      it holds exactly whom the later one holds. */
  lemma ReadsBetweenNeighbours(fs: seq<Frame>, instant: real, i: nat)
    requires Ordered(fs) && 0 < i < |fs| && fs[i-1].at < instant <= fs[i].at
    ensures Rewound(fs, instant).Keys == fs[i].spots.Keys
    ensures forall r :: r in fs[i].spots && r in fs[i-1].spots ==>
              PartWay(fs[i-1].spots[r].pos, fs[i].spots[r].pos, Rewound(fs, instant)[r].pos, instant - fs[i-1].at,
                  fs[i].at - fs[i-1].at)
    ensures forall r :: r in fs[i].spots && r !in fs[i-1].spots ==> Rewound(fs, instant)[r] == fs[i].spots[r]
    ensures forall r :: r in fs[i].spots ==>
              && Rewound(fs, instant)[r].sector == fs[i].spots[r].sector
              && (instant < fs[|fs|-1].at && r in fs[i-1].spots ==>
                    (Rewound(fs, instant)[r].alive <==> fs[i-1].spots[r].alive && fs[i].spots[r].alive))
  {
    hide Lerp, Rewound, PartWay;
    BracketIs(fs, instant, i);
    forall r | r in fs[i].spots && r in fs[i-1].spots
      ensures PartWay(fs[i-1].spots[r].pos, fs[i].spots[r].pos, Rewound(fs, instant)[r].pos, instant - fs[i-1].at,
              fs[i].at - fs[i-1].at)
    {
      BlendIsPartWay(fs[i-1], fs[i], instant, r);
      AllTheWay(fs[i-1].spots[r].pos, fs[i].spots[r].pos, fs[i].at - fs[i-1].at);
    }
  }

  /** Outside the frames the reading is the end it is nearest to, and at a frame's own instant everybody in it stands
      where that frame has them. */
  lemma ReadsClampAndMeetTheFrames(fs: seq<Frame>, instant: real, i: nat, r: Target)
    requires Ordered(fs) && i < |fs| && r in fs[i].spots
    ensures instant <= fs[0].at ==> Rewound(fs, instant) == fs[0].spots
    ensures instant >= fs[|fs|-1].at ==> Rewound(fs, instant) == fs[|fs|-1].spots
    ensures r in Rewound(fs, fs[i].at) && Rewound(fs, fs[i].at)[r].pos == fs[i].spots[r].pos
  {
    if 0 < i < |fs| - 1 {
      BracketIs(fs, fs[i].at, i);
      if r in fs[i-1].spots {
        BlendIsPartWay(fs[i-1], fs[i], fs[i].at, r);
        WholeWayIsThere(fs[i-1].spots[r].pos, fs[i].spots[r].pos, Blend(fs[i-1], fs[i], fs[i].at)[r].pos,
            fs[i].at - fs[i-1].at);
      }
    }
  }

  lemma WholeWayIsThere(a: Vec2, b: Vec2, at: Vec2, span: real)
    requires span > 0.0 && PartWay(a, b, at, span, span)
    ensures at == b
  {
    assert (at.x - b.x) * span == (at.x - a.x) * span - (b.x - a.x) * span;
    assert (at.y - b.y) * span == (at.y - a.y) * span - (b.y - a.y) * span;
  }

  lemma AllTheWay(a: Vec2, b: Vec2, span: real)
    ensures PartWay(a, b, b, span, span)
  {}

  /** How far back a shot reads: the round trip and what the client draws behind, between none of it and half a
      second. */
  lemma ARewindIs(now: real, rtt: real)
    ensures now - RewindInstant(now, rtt) == if rtt <= 0.0 then 0.12 else if rtt >= 0.38 then 0.5 else rtt + 0.12
  {}

  /** With a frame a tick the ring reaches back further than any rewind can ask: a shot is never clamped to the oldest
      frame. The shot is taken on the tick after the newest frame. */
  lemma NeverClampedToTheOldest(fs: seq<Frame>, now: real, rtt: real)
    requires |fs| == HISTORY_CAPACITY
    requires forall i :: 0 < i < |fs| ==> fs[i].at == fs[i-1].at + SIM_STEP
    requires now == fs[|fs|-1].at + SIM_STEP
    ensures fs[0].at < RewindInstant(now, rtt) && RewindInstant(now, rtt) <= now - INTERPOLATION_DELAY
  {
    EvenlySpaced(fs, HISTORY_CAPACITY - 1);
  }

  lemma {:induction false} EvenlySpaced(fs: seq<Frame>, k: nat)
    requires k < |fs| && forall i :: 0 < i < |fs| ==> fs[i].at == fs[i-1].at + SIM_STEP
    ensures fs[k].at == fs[0].at + k as real * SIM_STEP
    decreases k
  {
    if k > 0 { EvenlySpaced(fs, k - 1); }
  }

  lemma LerpExact(from: real, to: real, gone: real, span: real)
    requires span > 0.0
    ensures (Lerp(from, to, gone / span) - from) * span == (to - from) * gone
  {
    var t := gone / span;
    assert t * span == gone;
    assert ((to - from) * t) * span == (to - from) * (t * span);
  }
}
