/** What a claimed duration is worth: from the frame that claims it, through the queue, to the time the tick steps. */
module Claims {
  import opened Wrappers
  import opened CommandLane
  import opened LaneRuns

  /** A fifth of a second at most, nothing at least, and what is no number is nothing. */
  predicate IsWorth(c: Claim, dt: real) {
    match c
    case Finite(v) => if v < 0.0 then dt == 0.0 else if v > 0.2 then dt == 0.2 else dt == v
    case NaN => dt == 0.0
    case Infinite(positive) => dt == if positive then 0.2 else 0.0
  }

  /** A claim in range is kept exactly, one outside it goes to the nearer end, an infinity to its own end, and NaN
      counts for nothing. */
  lemma AClaimIsWorth(c: Claim, dt: real)
    ensures SaneDt(c) == dt <==> IsWorth(c, dt)
  {}

  // ---- What a frame adds ----

  /** A command whose number is above the mark and above every number before it in its frame. */
  predicate IsFresh<P>(high: int, cmds: seq<Sent<P>>, i: nat)
    requires i < |cmds|
  {
    cmds[i].seqNo > high && forall j :: 0 <= j < i ==> cmds[j].seqNo < cmds[i].seqNo
  }

  /** The places of the fresh among the first n, in order. */
  function FreshAt<P>(high: int, cmds: seq<Sent<P>>, n: nat): (at: seq<nat>)
    requires n <= |cmds|
    ensures forall k :: 0 <= k < |at| ==> at[k] < n && IsFresh(high, cmds, at[k])
    ensures forall j, k :: 0 <= j < k < |at| ==> at[j] < at[k]
    ensures forall i :: 0 <= i < n && IsFresh(high, cmds, i) ==> i in at
  {
    if n == 0 then [] else FreshAt(high, cmds, n - 1) + if IsFresh(high, cmds, n - 1) then [n - 1] else []
  }

  /** The mark after a frame: the highest number seen. */
  predicate IsMark<P>(high: int, cmds: seq<Sent<P>>, mark: int) {
    && mark >= high && (forall i :: 0 <= i < |cmds| ==> cmds[i].seqNo <= mark)
    && (mark == high || exists i :: 0 <= i < |cmds| && cmds[i].seqNo == mark)
  }

  /** A queued command is the one sent: its number, its intent, and what its claim is worth. */
  predicate Carries<P(==)>(c: Command<P>, s: Sent<P>) {
    c.seqNo == s.seqNo && c.intent == s.intent && IsWorth(s.claim, c.dt)
  }

  lemma {:induction false} AcceptOneMore<P>(l: Lane<P>, cmds: seq<Sent<P>>, s: Sent<P>)
    ensures var a := Accept(l, cmds);
            Accept(l, cmds + [s]) == if s.seqNo <= a.high then a
              else a.(high := s.seqNo, pending := a.pending + [Command(s.seqNo, SaneDt(s.claim), s.intent)])
    decreases |cmds|
  {
    if cmds == [] {
      assert (cmds + [s])[1..] == [];
    } else {
      assert (cmds + [s])[1..] == cmds[1..] + [s];
      var c := cmds[0];
      AcceptOneMore(if c.seqNo <= l.high then l
                    else l.(high := c.seqNo, pending := l.pending + [Command(c.seqNo, SaneDt(c.claim), c.intent)]),
                    cmds[1..], s);
    }
  }

  lemma {:induction false} AcceptAdds<P>(l: Lane<P>, cmds: seq<Sent<P>>, n: nat)
    requires n <= |cmds|
    ensures var a, at := Accept(l, cmds[..n]), FreshAt(l.high, cmds, n);
            && IsMark(l.high, cmds[..n], a.high) && a.last == l.last && a.budget == l.budget
            && |a.pending| == |l.pending| + |at| && a.pending[..|l.pending|] == l.pending
            && forall k :: 0 <= k < |at| ==> Carries(a.pending[|l.pending| + k], cmds[at[k]])
  {
    hide Accept, SaneDt;
    if n == 0 {
      AcceptNone(l);
      assert cmds[..0] == [];
    } else {
      var s, before := cmds[n-1], Accept(l, cmds[..n-1]);
      AcceptAdds(l, cmds, n - 1);
      assert cmds[..n] == cmds[..n-1] + [s];
      AcceptOneMore(l, cmds[..n-1], s);
      MarkMoves(l.high, cmds, n, before.high);
      AClaimIsWorth(s.claim, SaneDt(s.claim));
    }
  }

  lemma AcceptNone<P>(l: Lane<P>)
    ensures Accept(l, []) == l
  {}

  /** The next command is fresh exactly when it is above the mark, which then is its number. */
  lemma MarkMoves<P>(high: int, cmds: seq<Sent<P>>, n: nat, mark: int)
    requires 0 < n <= |cmds| && IsMark(high, cmds[..n-1], mark)
    ensures IsFresh(high, cmds, n - 1) <==> cmds[n-1].seqNo > mark
    ensures IsMark(high, cmds[..n], if cmds[n-1].seqNo > mark then cmds[n-1].seqNo else mark)
  {
    assert forall i :: 0 <= i < n - 1 ==> cmds[..n-1][i] == cmds[i] && cmds[..n][i] == cmds[i];
    assert cmds[..n][n-1] == cmds[n-1];
    if mark != high {
      var i :| 0 <= i < n - 1 && cmds[..n-1][i].seqNo == mark;
      assert cmds[..n][i].seqNo == mark && cmds[i].seqNo == mark;
    }
  }

  /** A frame moves the mark to the highest number seen and leaves, of what waited and then its own fresh commands in
      order, the last forty: each as it was sent, for what its claim is worth. The acknowledgement and the bank are
      untouched. */
  lemma AFrameIsQueuedAsSent<P>(l: Lane<P>, cmds: seq<Sent<P>>)
    ensures var e, at, was := Enqueue(l, cmds), FreshAt(l.high, cmds, |cmds|), |l.pending|;
            var cut := if was + |at| > 40 then was + |at| - 40 else 0;
            && IsMark(l.high, cmds, e.high) && e.last == l.last && e.budget == l.budget
            && |e.pending| == was + |at| - cut
            && (forall k :: cut <= k < was ==> e.pending[k - cut] == l.pending[k])
            && forall k :: 0 <= k < |at| && cut <= was + k ==> Carries(e.pending[was + k - cut], cmds[at[k]])
  {
    hide Accept, Carries, IsMark;
    AcceptAdds(l, cmds, |cmds|);
    assert cmds[..|cmds|] == cmds;
    var a := Accept(l, cmds);
    forall k | 0 <= k < |l.pending| ensures a.pending[k] == l.pending[k] {
      assert a.pending[..|l.pending|][k] == a.pending[k];
    }
  }

  // ---- What a tick steps ----

  /** A tick has a twentieth of a second more to spend, up to half a second in all, and steps from the head, in order,
      as many commands as that pays for whole: the next one, if there is one, costs more than is left. What is stepped
      last is acknowledged; with nothing waiting and no time spent, a twentieth of stillness is stepped if it is
      wanted. */
  lemma ATickSpendsWhatItHas<P>(l: Lane<P>, wantsIdle: bool)
    requires QueueOk(l)
    ensures var t := Tick(l, wantsIdle);
            var purse := if l.budget + 0.05 <= 0.5 then l.budget + 0.05 else 0.5;
            var left := purse - TotalDt(t.stepped);
            && l.pending == t.stepped + t.lane.pending && left >= 0.0
            && (t.lane.pending != [] ==> t.lane.pending[0].dt > left)
            && t.lane.high == l.high
            && t.lane.last == (if t.stepped == [] then l.last else t.stepped[|t.stepped|-1].seqNo)
            && t.idle == (if wantsIdle && t.lane.pending == [] && TotalDt(t.stepped) == 0.0 then 0.05 else 0.0)
            && t.lane.budget == left - t.idle
  {
    hide Affordable, TotalDt;
    AffordableIsPaid(l.pending, Accrued(l.budget));
    TickPays(l, wantsIdle);
    var n := Affordable(l.pending, Accrued(l.budget));
    assert l.pending == l.pending[..n] + l.pending[n..];
  }

  /** The time a run of commands claims. */
  function Claimed<P>(cmds: seq<Sent<P>>): real
    requires forall i :: 0 <= i < |cmds| ==> cmds[i].claim.Finite?
    decreases |cmds|
  {
    if cmds == [] then 0.0 else cmds[0].claim.v + Claimed(cmds[1..])
  }

  /** A frame of an ordinary client: numbers that ascend above the mark, and claims in range. */
  predicate Ordinary<P>(high: int, cmds: seq<Sent<P>>) {
    && (forall i :: 0 <= i < |cmds| ==> cmds[i].seqNo > high && cmds[i].claim.Finite? && 0.0 <= cmds[i].claim.v <= 0.2)
    && forall i, j :: 0 <= i < j < |cmds| ==> cmds[i].seqNo < cmds[j].seqNo
  }

  lemma {:induction false} OrdinaryIsAllFresh<P>(high: int, cmds: seq<Sent<P>>, n: nat)
    requires Ordinary(high, cmds) && n <= |cmds|
    ensures FreshAt(high, cmds, n) == seq(n, i requires 0 <= i < n => i)
  {
    if n > 0 { OrdinaryIsAllFresh(high, cmds, n - 1); }
  }

  lemma {:induction false} TotalIsClaimed<P>(queue: seq<Command<P>>, cmds: seq<Sent<P>>)
    requires |queue| == |cmds| && forall i :: 0 <= i < |cmds| ==>
             cmds[i].claim.Finite? && queue[i].dt == cmds[i].claim.v
    ensures TotalDt(queue) == Claimed(cmds)
    decreases |cmds|
  {
    if cmds != [] { TotalIsClaimed(queue[1..], cmds[1..]); }
  }

  lemma {:induction false} TotalJoins<P>(a: seq<Command<P>>, b: seq<Command<P>>)
    ensures TotalDt(a + b) == TotalDt(a) + TotalDt(b)
    decreases |a|
  {
    if a == [] {
      assert a + b == b;
    } else {
      assert (a + b)[1..] == a[1..] + b;
      TotalJoins(a[1..], b);
    }
  }

  lemma AllAffordable<P>(l: Lane<P>, wantsIdle: bool)
    requires QueueOk(l) && TotalDt(l.pending) <= MinR(l.budget + 0.05, 0.5)
    ensures var t := Tick(l, wantsIdle); t.stepped == l.pending && t.lane.pending == []
  {
    hide Affordable;
    var n := Affordable(l.pending, Accrued(l.budget));
    AffordableIsPaid(l.pending, Accrued(l.budget));
    if n < |l.pending| { TotalIsNonNegative(l.pending[n..]); }
    assert l.pending[..|l.pending|] == l.pending;
  }

  lemma CarriesIs<P>(c: Command<P>, s: Sent<P>)
    requires Carries(c, s) && s.claim.Finite? && 0.0 <= s.claim.v <= 0.2
    ensures c.seqNo == s.seqNo && c.intent == s.intent && c.dt == s.claim.v
  {}

  /** All of an ordinary frame the queue can hold is added to it, as it was sent and for what it claims. */
  lemma AnOrdinaryFrameIsQueuedWhole<P>(l: Lane<P>, cmds: seq<Sent<P>>)
    requires Ordinary(l.high, cmds) && |l.pending| + |cmds| <= 40
    ensures var e, was := Enqueue(l, cmds), |l.pending|;
            && |e.pending| == was + |cmds| && e.pending[..was] == l.pending && e.budget == l.budget
            && forall i :: 0 <= i < |cmds| ==>
                 var c := e.pending[was + i];
                 c.seqNo == cmds[i].seqNo && c.intent == cmds[i].intent && c.dt == cmds[i].claim.v
  {
    hide Enqueue, Carries, FreshAt, IsMark;
    var e, at, was := Enqueue(l, cmds), FreshAt(l.high, cmds, |cmds|), |l.pending|;
    AFrameIsQueuedAsSent(l, cmds);
    OrdinaryIsAllFresh(l.high, cmds, |cmds|);
    forall i | 0 <= i < |cmds|
      ensures e.pending[was + i].dt == cmds[i].claim.v && e.pending[was + i].seqNo == cmds[i].seqNo
              && e.pending[was + i].intent == cmds[i].intent
    {
      assert at[i] == i && Carries(e.pending[was + i - 0], cmds[at[i]]);
      CarriesIs(e.pending[was + i], cmds[i]);
    }
  }

  /** What the queue then claims is the sum. */
  lemma QueuedIsClaimed<P>(l: Lane<P>, e: Lane<P>, cmds: seq<Sent<P>>)
    requires QueueOk(l) && |l.pending| + |cmds| <= 40
    requires forall i :: 0 <= i < |cmds| ==> cmds[i].claim.Finite? && 0.0 <= cmds[i].claim.v <= 0.2
    requires |e.pending| == |l.pending| + |cmds| && e.pending[..|l.pending|] == l.pending && e.budget == l.budget
    requires forall i :: 0 <= i < |cmds| ==> e.pending[|l.pending| + i].dt == cmds[i].claim.v
    ensures QueueOk(e) && TotalDt(e.pending) == TotalDt(l.pending) + Claimed(cmds)
  {
    hide TotalDt, Claimed;
    var was := |l.pending|;
    var added := e.pending[was..];
    assert e.pending == l.pending + added;
    assert forall i :: 0 <= i < |cmds| ==> added[i] == e.pending[was + i];
    TotalJoins(l.pending, added);
    TotalIsClaimed(added, cmds);
  }

  /** A frame in order, with claims in range, that the queue and the bank hold whole, is stepped whole on the next
      tick after what was waiting: every command as it was sent, for the time it claimed, and the time stepped is the
      sum. */
  lemma AnOrdinaryFrameIsWorthItsClaims<P>(l: Lane<P>, cmds: seq<Sent<P>>, wantsIdle: bool)
    requires QueueOk(l) && Ordinary(l.high, cmds) && |l.pending| + |cmds| <= 40
    requires TotalDt(l.pending) + Claimed(cmds) <= MinR(l.budget + 0.05, 0.5)
    ensures var t, was := Tick(Enqueue(l, cmds), wantsIdle), |l.pending|;
            && t.lane.pending == [] && |t.stepped| == was + |cmds| && t.stepped[..was] == l.pending
            && (forall i :: 0 <= i < |cmds| ==>
                  var c := t.stepped[was + i];
                  c.seqNo == cmds[i].seqNo && c.intent == cmds[i].intent && c.dt == cmds[i].claim.v)
            && TotalDt(t.stepped) == TotalDt(l.pending) + Claimed(cmds)
            && (cmds != [] ==> t.lane.last == cmds[|cmds|-1].seqNo)
  {
    hide Enqueue, Tick, TotalDt, Claimed, Ordinary, QueueOk;
    var e := Enqueue(l, cmds);
    AnOrdinaryFrameIsQueuedWhole(l, cmds);
    OrdinaryIsInRange(l.high, cmds);
    QueuedIsClaimed(l, e, cmds);
    AllAffordable(e, wantsIdle);
    ATickSpendsWhatItHas(e, wantsIdle);
  }

  lemma OrdinaryIsInRange<P>(high: int, cmds: seq<Sent<P>>)
    requires Ordinary(high, cmds)
    ensures forall i :: 0 <= i < |cmds| ==> cmds[i].claim.Finite? && 0.0 <= cmds[i].claim.v <= 0.2
  {}
}
