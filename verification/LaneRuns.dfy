/** What holds of a command lane over every run: order, at most once, conservation of time, and no starvation. */
module LaneRuns {
  import opened Wrappers
  import opened CommandLane

  /** What reaches an occupant: a frame of input at any moment, or a tick of the world. */
  datatype Happens<P> = Frame(cmds: seq<Sent<P>>) | TickOf(wantsIdle: bool)

  /** A lane with its history: every sequence number accepted, stepped and trimmed so far, and the time stepped. */
  datatype History<P> = History(
    lane: Lane<P>,
    accepted: seq<int>,
    stepped: seq<int>,
    trimmed: seq<int>,
    time: real,
    ticks: nat)

  function Born<P>(): History<P> { History(NewLane(), [], [], [], 0.0, 0) }

  function SeqNos<P>(cmds: seq<Command<P>>): (r: seq<int>)
    ensures |r| == |cmds|
  {
    seq(|cmds|, i requires 0 <= i < |cmds| => cmds[i].seqNo)
  }

  /** The sequence numbers a frame adds, in order. */
  function Fresh<P>(high: int, cmds: seq<Sent<P>>): seq<int>
    decreases |cmds|
  {
    if cmds == [] then []
    else if cmds[0].seqNo <= high then Fresh(high, cmds[1..])
    else [cmds[0].seqNo] + Fresh(cmds[0].seqNo, cmds[1..])
  }

  function Dropped<P>(l: Lane<P>): seq<int> {
    if |l.pending| > MAX_PENDING then SeqNos(l.pending[..|l.pending| - MAX_PENDING]) else []
  }

  function Next<P>(h: History<P>, e: Happens<P>): History<P> {
    match e
    case Frame(cmds) =>
      h.(lane := Enqueue(h.lane, cmds), accepted := h.accepted + Fresh(h.lane.high, cmds),
         trimmed := h.trimmed + Dropped(Accept(h.lane, cmds)))
    case TickOf(wantsIdle) =>
      var t := Tick(h.lane, wantsIdle);
      h.(lane := t.lane, stepped := h.stepped + SeqNos(t.stepped),
         time := h.time + TotalDt(t.stepped) + t.idle, ticks := h.ticks + 1)
  }

  function After<P>(h: History<P>, es: seq<Happens<P>>): History<P>
    decreases |es|
  {
    if es == [] then h else After(Next(h, es[0]), es[1..])
  }

  function TicksIn<P>(es: seq<Happens<P>>): nat
    decreases |es|
  {
    if es == [] then 0 else (if es[0].TickOf? then 1 else 0) + TicksIn(es[1..])
  }

  predicate Ascending(s: seq<int>) { forall i, j :: 0 <= i < j < |s| ==> s[i] < s[j] }

  /** Ascending, and inside (lo, hi]. */
  predicate Between(s: seq<int>, lo: int, hi: int) { Ascending(s) && forall i :: 0 <= i < |s| ==> lo < s[i] <= hi }

  predicate QueueOk<P>(l: Lane<P>) {
    && |l.pending| <= MAX_PENDING && (forall i :: 0 <= i < |l.pending| ==> 0.0 <= l.pending[i].dt <= MAX_STEP_SECONDS)
    && 0.0 <= l.budget <= TIME_BUDGET_CAP
  }

  /** Everything accepted is in exactly one of three places: stepped, trimmed for being stale, or still waiting. */
  ghost predicate Accounted(accepted: seq<int>, stepped: seq<int>, trimmed: seq<int>, waiting: seq<int>) {
    forall s :: (s in accepted <==> s in stepped || s in trimmed || s in waiting)
             && !(s in stepped && s in trimmed) && !(s in stepped && s in waiting) && !(s in trimmed && s in waiting)
  }

  /** The books of one occupant: all four lists ascend, the queue stands inside (last, high], what was trimmed was
      staler than anything waiting, and the acknowledgement is the last one stepped. */
  ghost predicate Books(accepted: seq<int>, stepped: seq<int>, trimmed: seq<int>, waiting: seq<int>, last: int,
                        high: int) {
    && 0 <= last <= high && Between(accepted, 0, high) && Between(stepped, 0, last) && Between(waiting, last, high)
    && last == (if stepped == [] then 0 else stepped[|stepped| - 1])
    && Ascending(trimmed) && (forall i, j :: 0 <= i < |trimmed| && 0 <= j < |waiting| ==> trimmed[i] < waiting[j])
    && Accounted(accepted, stepped, trimmed, waiting)
  }

  ghost predicate Kept<P>(h: History<P>) {
    && QueueOk(h.lane)
    && Books(h.accepted, h.stepped, h.trimmed, SeqNos(h.lane.pending), h.lane.last, h.lane.high)
    && h.time >= 0.0 && h.time + h.lane.budget <= h.ticks as real * SIM_STEP
  }

  // ---- The books, as lists ----

  lemma AscendingJoins(a: seq<int>, b: seq<int>)
    requires Ascending(a) && Ascending(b) && forall i, j :: 0 <= i < |a| && 0 <= j < |b| ==> a[i] < b[j]
    ensures Ascending(a + b)
  {}

  lemma SplitMembers(all: seq<int>, cut: nat, s: int)
    requires Ascending(all) && cut <= |all|
    ensures s in all <==> s in all[..cut] || s in all[cut..]
    ensures !(s in all[..cut] && s in all[cut..])
  {
    assert all == all[..cut] + all[cut..];
  }

  /** New numbers join the queue and the stalest of the queue are cut. */
  lemma BooksAccept(accepted: seq<int>, stepped: seq<int>, trimmed: seq<int>, waiting: seq<int>, last: int, high: int,
                    added: seq<int>, high': int, cut: nat)
    requires Books(accepted, stepped, trimmed, waiting, last, high)
    requires high <= high' && Between(added, high, high') && cut <= |waiting + added|
    ensures var all := waiting + added;
            Books(accepted + added, stepped, trimmed + all[..cut], all[cut..], last, high')
  {
    var all := waiting + added;
    AscendingJoins(accepted, added);
    AscendingJoins(waiting, added);
    forall i, j | 0 <= i < |trimmed| && 0 <= j < |all| ensures trimmed[i] < all[j] {
      if j >= |waiting| { assert trimmed[i] in trimmed && trimmed[i] in accepted; }
    }
    AscendingJoins(trimmed, all[..cut]);
    forall s
      ensures s in accepted + added <==> s in stepped || s in trimmed + all[..cut] || s in all[cut..]
      ensures !(s in stepped && s in trimmed + all[..cut]) && !(s in stepped && s in all[cut..])
              && !(s in trimmed + all[..cut] && s in all[cut..])
    {
      SplitMembers(all, cut, s);
      AcceptMember(accepted, stepped, trimmed, waiting, last, high, added, s);
    }
  }

  lemma AcceptMember(accepted: seq<int>, stepped: seq<int>, trimmed: seq<int>, waiting: seq<int>, last: int, high: int,
                     added: seq<int>, s: int)
    requires Books(accepted, stepped, trimmed, waiting, last, high)
    requires forall i :: 0 <= i < |added| ==> added[i] > high
    ensures s in accepted + added <==> s in stepped || s in trimmed || s in waiting + added
    ensures !(s in stepped && s in trimmed) && !(s in stepped && s in waiting + added)
            && !(s in trimmed && s in waiting + added)
  {
    assert s in waiting + added <==> s in waiting || s in added;
    assert s in accepted + added <==> s in accepted || s in added;
    if s in added { assert s !in accepted; }
  }

  /** The first k of the queue are stepped. */
  lemma BooksStep(accepted: seq<int>, stepped: seq<int>, trimmed: seq<int>, waiting: seq<int>, last: int, high: int,
                  k: nat)
    requires Books(accepted, stepped, trimmed, waiting, last, high) && k <= |waiting|
    ensures Books(accepted, stepped + waiting[..k], trimmed, waiting[k..], if k > 0 then waiting[k-1] else last, high)
  {
    AscendingJoins(stepped, waiting[..k]);
    forall s
      ensures s in accepted <==> s in stepped + waiting[..k] || s in trimmed || s in waiting[k..]
      ensures !(s in stepped + waiting[..k] && s in trimmed) && !(s in stepped + waiting[..k] && s in waiting[k..])
              && !(s in trimmed && s in waiting[k..])
    {
      SplitMembers(waiting, k, s);
    }
  }

  // ---- A frame ----

  lemma {:induction false} AcceptAppends<P>(l: Lane<P>, cmds: seq<Sent<P>>)
    requires Between(SeqNos(l.pending), l.last, l.high) && l.last <= l.high
    requires forall i :: 0 <= i < |l.pending| ==> 0.0 <= l.pending[i].dt <= MAX_STEP_SECONDS
    ensures var a := Accept(l, cmds);
            && l.high <= a.high && a.last == l.last && a.budget == l.budget
            && SeqNos(a.pending) == SeqNos(l.pending) + Fresh(l.high, cmds)
            && Between(SeqNos(a.pending), a.last, a.high) && Between(Fresh(l.high, cmds), l.high, a.high)
            && (forall i :: 0 <= i < |a.pending| ==> 0.0 <= a.pending[i].dt <= MAX_STEP_SECONDS)
    decreases |cmds|
  {
    if cmds != [] {
      var c := cmds[0];
      if c.seqNo <= l.high {
        AcceptAppends(l, cmds[1..]);
      } else {
        var m := l.(high := c.seqNo, pending := l.pending + [Command(c.seqNo, SaneDt(c.claim), c.intent)]);
        assert SeqNos(m.pending) == SeqNos(l.pending) + [c.seqNo];
        AcceptAppends(m, cmds[1..]);
        assert SeqNos(l.pending) + Fresh(l.high, cmds) == SeqNos(m.pending) + Fresh(c.seqNo, cmds[1..]);
      }
    }
  }

  lemma FrameKeeps<P>(h: History<P>, cmds: seq<Sent<P>>)
    requires Kept(h)
    ensures Kept(Next(h, Frame(cmds)))
  {
    hide Books;
    var l, a := h.lane, Accept(h.lane, cmds);
    BooksGiveQueue(h);
    AcceptAppends(l, cmds);
    var all, cut := SeqNos(a.pending), if |a.pending| > MAX_PENDING then |a.pending| - MAX_PENDING else 0;
    assert SeqNos(a.pending[..cut]) == all[..cut] && SeqNos(a.pending[cut..]) == all[cut..];
    assert a.pending[0..] == a.pending && all[..0] == [] && h.trimmed + [] == h.trimmed;
    BooksAccept(h.accepted, h.stepped, h.trimmed, SeqNos(l.pending), l.last, l.high, Fresh(l.high, cmds), a.high, cut);
  }

  lemma BooksGiveQueue<P>(h: History<P>)
    requires Kept(h)
    ensures h.lane.last <= h.lane.high && Between(SeqNos(h.lane.pending), h.lane.last, h.lane.high)
  {}

  // ---- A tick ----

  lemma {:induction false} AffordableIsPaid<P>(pending: seq<Command<P>>, budget: real)
    requires forall i :: 0 <= i < |pending| ==> 0.0 <= pending[i].dt <= MAX_STEP_SECONDS
    requires budget >= 0.0
    ensures var n := Affordable(pending, budget);
            && 0.0 <= TotalDt(pending[..n]) <= budget
            && (n < |pending| ==> pending[n].dt > budget - TotalDt(pending[..n]))
            && TotalDt(pending) == TotalDt(pending[..n]) + TotalDt(pending[n..])
    decreases |pending|
  {
    if pending != [] && pending[0].dt <= budget {
      var n := Affordable(pending, budget);
      AffordableIsPaid(pending[1..], budget - pending[0].dt);
      assert pending[..n][1..] == pending[1..][..n-1] && pending[1..][n-1..] == pending[n..];
    } else {
      assert pending[..0] == [] && pending[0..] == pending;
    }
  }

  /** The arithmetic of one tick: what is stepped is paid for, and nothing else is taken. */
  lemma TickPays<P>(l: Lane<P>, wantsIdle: bool)
    requires QueueOk(l)
    ensures var t := Tick(l, wantsIdle);
            && TotalDt(t.stepped) >= 0.0 && t.idle >= 0.0 && 0.0 <= t.lane.budget <= TIME_BUDGET_CAP
            && t.lane.budget == Accrued(l.budget) - TotalDt(t.stepped) - t.idle
            && (t.lane.pending != [] ==> t.idle == 0.0 && t.lane.budget < t.lane.pending[0].dt)
  {
    AffordableIsPaid(l.pending, Accrued(l.budget));
  }

  lemma TickKeeps<P>(h: History<P>, wantsIdle: bool)
    requires Kept(h)
    ensures Kept(Next(h, TickOf(wantsIdle)))
  {
    hide Books;
    var l := h.lane;
    TickPays(l, wantsIdle);
    var k := Affordable(l.pending, Accrued(l.budget));
    var all := SeqNos(l.pending);
    assert SeqNos(l.pending[..k]) == all[..k] && SeqNos(l.pending[k..]) == all[k..];
    BooksStep(h.accepted, h.stepped, h.trimmed, all, l.last, l.high, k);
    if k > 0 { assert all[k-1] == l.pending[..k][k-1].seqNo; }
  }

  /** Over every run, whatever is sent and resent in whatever frames: the queue ascends inside (last, high], what was
      stepped ascends and ends at the acknowledgement, every accepted command was stepped, trimmed or is waiting, never
      two of these, and no more time was stepped than the ticks have accrued. */
  lemma {:induction false} EveryRunKeeps<P>(h: History<P>, es: seq<Happens<P>>)
    requires Kept(h)
    ensures Kept(After(h, es))
    decreases |es|
  {
    hide Kept, Next;
    if es != [] {
      match es[0] {
        case Frame(cmds) => FrameKeeps(h, cmds);
        case TickOf(wantsIdle) => TickKeeps(h, wantsIdle);
      }
      EveryRunKeeps(Next(h, es[0]), es[1..]);
    }
  }

  lemma BornKept<P>()
    ensures Kept(Born<P>())
  {}

  lemma EveryRunFromBirth<P>(es: seq<Happens<P>>)
    ensures Kept(After(Born<P>(), es))
  {
    BornKept<P>();
    EveryRunKeeps(Born<P>(), es);
  }

  lemma {:induction false} HistoryGrows<P>(h: History<P>, es: seq<Happens<P>>)
    ensures var n := After(h, es);
            h.stepped <= n.stepped && h.trimmed <= n.trimmed && h.accepted <= n.accepted
            && n.ticks == h.ticks + TicksIn(es)
    decreases |es|
  {
    if es != [] { HistoryGrows(Next(h, es[0]), es[1..]); }
  }

  /** A command dropped for being stale is never stepped, however often it is sent again. */
  lemma TrimmedNeverReturns<P>(es: seq<Happens<P>>, more: seq<Happens<P>>, s: int)
    requires s in After(Born<P>(), es).trimmed
    ensures s !in After(After(Born<P>(), es), more).stepped
  {
    hide Next, QueueOk;
    EveryRunFromBirth(es);
    EveryRunKeeps(After(Born<P>(), es), more);
    HistoryGrows(After(Born<P>(), es), more);
  }

  /** A frame sent again, whole, changes nothing: the redundancy window is free. */
  lemma ResendIsFree<P>(h: History<P>, cmds: seq<Sent<P>>)
    requires Kept(h)
    ensures Next(Next(h, Frame(cmds)), Frame(cmds)) == Next(h, Frame(cmds))
  {
    FrameKeeps(h, cmds);
    AcceptReaches(h.lane, cmds);
    NothingFresh(Enqueue(h.lane, cmds), cmds);
  }

  lemma {:induction false} AcceptReaches<P>(l: Lane<P>, cmds: seq<Sent<P>>)
    ensures l.high <= Accept(l, cmds).high
    ensures forall i :: 0 <= i < |cmds| ==> cmds[i].seqNo <= Accept(l, cmds).high
    decreases |cmds|
  {
    if cmds != [] {
      var c := cmds[0];
      var m := if c.seqNo <= l.high then l
               else l.(high := c.seqNo, pending := l.pending + [Command(c.seqNo, SaneDt(c.claim), c.intent)]);
      AcceptReaches(m, cmds[1..]);
    }
  }

  lemma {:induction false} NothingFresh<P>(l: Lane<P>, cmds: seq<Sent<P>>)
    requires forall i :: 0 <= i < |cmds| ==> cmds[i].seqNo <= l.high
    ensures Accept(l, cmds) == l && Fresh(l.high, cmds) == []
    decreases |cmds|
  {
    if cmds != [] { NothingFresh(l, cmds[1..]); }
  }

  // ---- Time is conserved ----

  /** Over any stretch of a run the time stepped is bounded by what was in the bank and what the ticks accrued. */
  lemma {:induction false} TimeConserved<P>(h: History<P>, es: seq<Happens<P>>)
    requires Kept(h)
    ensures var n := After(h, es);
            n.time + n.lane.budget <= h.time + h.lane.budget + TicksIn(es) as real * SIM_STEP
    decreases |es|
  {
    if es != [] {
      match es[0] {
        case Frame(cmds) => FrameKeeps(h, cmds); AcceptBudget(h.lane, cmds);
        case TickOf(wantsIdle) => TickKeeps(h, wantsIdle); TickPays(h.lane, wantsIdle);
      }
      TimeConserved(Next(h, es[0]), es[1..]);
    }
  }

  lemma {:induction false} AcceptBudget<P>(l: Lane<P>, cmds: seq<Sent<P>>)
    ensures Enqueue(l, cmds).budget == l.budget && Accept(l, cmds).budget == l.budget
    decreases |cmds|
  {
    if cmds != [] {
      var c := cmds[0];
      var m := if c.seqNo <= l.high then l
               else l.(high := c.seqNo, pending := l.pending + [Command(c.seqNo, SaneDt(c.claim), c.intent)]);
      AcceptBudget(m, cmds[1..]);
    }
  }

  /** Any window of k > 0 ticks steps at most one bankful and k - 1 ticks of time, whatever the bank was on entry. */
  lemma {:induction false} WindowBound<P>(h: History<P>, es: seq<Happens<P>>)
    requires Kept(h) && TicksIn(es) > 0
    ensures After(h, es).time - h.time <= TIME_BUDGET_CAP + (TicksIn(es) - 1) as real * SIM_STEP
    decreases |es|
  {
    match es[0]
    case Frame(cmds) =>
      FrameKeeps(h, cmds);
      WindowBound(Next(h, es[0]), es[1..]);
    case TickOf(wantsIdle) =>
      TickKeeps(h, wantsIdle);
      TickPays(h.lane, wantsIdle);
      TimeConserved(Next(h, es[0]), es[1..]);
      EveryRunKeeps(Next(h, es[0]), es[1..]);
      BudgetIsNonNegative(After(Next(h, es[0]), es[1..]));
  }

  lemma BudgetIsNonNegative<P>(h: History<P>)
    requires Kept(h)
    ensures h.lane.budget >= 0.0
  {}

  /** k ticks in which nobody wants anything filled. */
  function Still<P>(k: nat): seq<Happens<P>> { seq(k, _ => TickOf(false)) }

  lemma {:induction false} StillnessBanks<P>(h: History<P>, k: nat)
    requires h.lane.pending == [] && 0.0 <= h.lane.budget <= TIME_BUDGET_CAP
    ensures var budget := MinR(h.lane.budget + k as real * SIM_STEP, TIME_BUDGET_CAP);
            After(h, Still(k)) == h.(lane := h.lane.(budget := budget), ticks := h.ticks + k)
    decreases k
  {
    hide Tick, Next;
    if k == 0 {
      assert Still<P>(0) == [];
    } else {
      StillTick(h);
      assert Still<P>(k)[1..] == Still<P>(k - 1) && Still<P>(k)[0] == TickOf(false);
      StillnessBanks(Next(h, TickOf(false)), k - 1);
      assert (k - 1) as real * SIM_STEP + SIM_STEP == k as real * SIM_STEP && (k - 1) as real * SIM_STEP >= 0.0;
    }
  }

  lemma StillTick<P>(h: History<P>)
    requires h.lane.pending == []
    ensures Next(h, TickOf(false)) == h.(lane := h.lane.(budget := Accrued(h.lane.budget)), ticks := h.ticks + 1)
  {
    var t := Tick(h.lane, false);
    assert t.stepped == [] && t.idle == 0.0 && h.stepped + SeqNos<P>([]) == h.stepped;
  }

  /** Half a second of commands, as one frame. */
  function Burst<P>(intent: P): seq<Sent<P>> {
    [Sent(1, Finite(0.2), intent), Sent(2, Finite(0.2), intent), Sent(3, Finite(0.1), intent)]
  }

  function Queued<P>(intent: P): seq<Command<P>> {
    [Command(1, 0.2, intent), Command(2, 0.2, intent), Command(3, 0.1, intent)]
  }

  lemma BurstQueues<P>(l: Lane<P>, intent: P)
    requires l.pending == [] && l.high == 0
    ensures Enqueue(l, Burst(intent)) == l.(high := 3, pending := Queued(intent))
  {
    hide Accept;
    var f, q := Burst(intent), Queued(intent);
    AcceptFresh(l, f);
    AcceptFresh(l.(high := 1, pending := [q[0]]), f[1..]);
    AcceptFresh(l.(high := 2, pending := [q[0], q[1]]), f[1..][1..]);
    NothingFresh(l.(high := 3, pending := q), f[1..][1..][1..]);
    assert l.pending + [q[0]] == [q[0]] && [q[0]] + [q[1]] == [q[0], q[1]] && [q[0], q[1]] + [q[2]] == q;
  }

  lemma AcceptFresh<P>(l: Lane<P>, cmds: seq<Sent<P>>)
    requires cmds != [] && cmds[0].seqNo > l.high
    ensures Accept(l, cmds)
         == Accept(l.(high := cmds[0].seqNo, pending := l.pending
             + [Command(cmds[0].seqNo, SaneDt(cmds[0].claim), cmds[0].intent)]), cmds[1..])
  {}

  lemma BurstIsStepped<P>(l: Lane<P>, intent: P, wantsIdle: bool)
    requires l.pending == Queued(intent) && l.budget == TIME_BUDGET_CAP
    ensures var t := Tick(l, wantsIdle);
            t.stepped == Queued(intent) && TotalDt(t.stepped) == TIME_BUDGET_CAP && t.idle == 0.0
            && t.lane.pending == [] && t.lane.budget == 0.0
  {
    var p := Queued(intent);
    assert p[1..] == [p[1], p[2]] && p[1..][1..] == [p[2]] && p[1..][1..][1..] == [];
    assert Affordable([p[2]], 0.1) == 1;
    assert Affordable([p[1], p[2]], 0.3) == 2;
    assert Affordable(p, TIME_BUDGET_CAP) == 3 && p[..3] == p && p[3..] == [];
    assert TotalDt([p[2]]) == 0.1 && TotalDt([p[1], p[2]]) == 0.3;
    assert TotalDt(p) == p[0].dt + TotalDt(p[1..]);
  }

  /** A man who joins, stands still for ten ticks and then sends half a second at once spends all of it in one tick: the
      window bound is attained, on a run from birth. */
  lemma WindowBoundIsAttained<P>(intent: P)
    ensures var before := Still(10) + [Frame(Burst(intent))];
            After(Born<P>(), before + [TickOf(true)]).time - After(Born<P>(), before).time == TIME_BUDGET_CAP
  {
    hide Tick, Enqueue;
    var before, last := Still(10) + [Frame(Burst(intent))], [TickOf(true)];
    StillnessBanks(Born<P>(), 10);
    AfterJoins(Born<P>(), Still(10), [Frame(Burst(intent))]);
    AfterJoins(Born<P>(), before, last);
    var banked := After(Born<P>(), Still(10));
    BurstQueues(banked.lane, intent);
    var h := After(Born<P>(), before);
    AfterOne(banked, Frame(Burst(intent)));
    BurstIsStepped(h.lane, intent, true);
    AfterOne(h, TickOf(true));
  }

  lemma AfterOne<P>(h: History<P>, e: Happens<P>)
    ensures After(h, [e]) == Next(h, e)
  {
    hide Next;
    assert [e][1..] == [];
  }

  lemma {:induction false} AfterJoins<P>(h: History<P>, a: seq<Happens<P>>, b: seq<Happens<P>>)
    ensures After(h, a + b) == After(After(h, a), b)
    decreases |a|
  {
    hide Next;
    if a == [] {
      assert a + b == b;
    } else {
      assert (a + b)[1..] == a[1..] + b;
      AfterJoins(Next(h, a[0]), a[1..], b);
    }
  }

  // ---- No starvation ----

  /** The command at the head of the queue has been stepped or trimmed. */
  predicate Settled<P>(h: History<P>, s: int) { s in h.stepped || s in h.trimmed }

  lemma SettledStays<P>(h: History<P>, es: seq<Happens<P>>, s: int)
    requires Settled(h, s)
    ensures Settled(After(h, es), s)
  {
    HistoryGrows(h, es);
  }

  /** With m ticks of credit still wanted the head is settled within m more ticks, whatever frames arrive between. */
  lemma {:induction false} HeadSettles<P>(h: History<P>, es: seq<Happens<P>>, m: nat)
    requires Kept(h) && h.lane.pending != [] && TicksIn(es) >= m > 0
    requires h.lane.budget + m as real * SIM_STEP >= MAX_STEP_SECONDS
    ensures Settled(After(h, es), h.lane.pending[0].seqNo)
    decreases |es|
  {
    hide Kept, Tick, Accept;
    var s, n := h.lane.pending[0].seqNo, Next(h, es[0]);
    match es[0]
    case Frame(cmds) =>
      FrameKeeps(h, cmds);
      AcceptBudget(h.lane, cmds);
      FrameKeepsHead(h, cmds);
      if Settled(n, s) { SettledStays(n, es[1..], s); } else { HeadSettles(n, es[1..], m); }
    case TickOf(wantsIdle) =>
      TickKeeps(h, wantsIdle);
      TickMovesHead(h, wantsIdle, m);
      if Settled(n, s) { SettledStays(n, es[1..], s); } else { HeadSettles(n, es[1..], m - 1); }
  }

  lemma FrameKeepsHead<P>(h: History<P>, cmds: seq<Sent<P>>)
    requires Kept(h) && h.lane.pending != []
    ensures var n := Next(h, Frame(cmds));
            Settled(n, h.lane.pending[0].seqNo)
            || (n.lane.pending != [] && n.lane.pending[0].seqNo == h.lane.pending[0].seqNo)
  {
    var a := Accept(h.lane, cmds);
    AcceptAppends(h.lane, cmds);
    assert SeqNos(a.pending)[0] == SeqNos(h.lane.pending)[0];
    assert a.pending[0].seqNo == h.lane.pending[0].seqNo;
    if |a.pending| > MAX_PENDING {
      var cut := |a.pending| - MAX_PENDING;
      assert SeqNos(a.pending[..cut])[0] == a.pending[0].seqNo;
    }
  }

  lemma TickMovesHead<P>(h: History<P>, wantsIdle: bool, m: nat)
    requires Kept(h) && h.lane.pending != [] && m > 0
    requires h.lane.budget + m as real * SIM_STEP >= MAX_STEP_SECONDS
    ensures var n, s := Next(h, TickOf(wantsIdle)), h.lane.pending[0].seqNo;
            || Settled(n, s)
            || (m > 1 && n.lane.pending != [] && n.lane.pending[0].seqNo == s
                && n.lane.budget + (m - 1) as real * SIM_STEP >= MAX_STEP_SECONDS)
  {
    var l, t := h.lane, Tick(h.lane, wantsIdle);
    TickPays(l, wantsIdle);
    var k := Affordable(l.pending, Accrued(l.budget));
    if k > 0 {
      assert SeqNos(t.stepped)[0] == l.pending[0].seqNo;
      assert l.pending[0].seqNo in SeqNos(t.stepped);
    } else {
      assert l.pending[..0] == [] && t.lane.pending == l.pending;
    }
  }

  /** No starvation: from any reachable state a waiting head is stepped or trimmed within MAX_STEP_SECONDS / SIM_STEP
      ticks. The idle fill cannot eat the credit it is waiting for. */
  lemma NoStarvation<P>(before: seq<Happens<P>>, es: seq<Happens<P>>)
    requires After(Born<P>(), before).lane.pending != [] && TicksIn(es) >= 4
    ensures 4.0 == MAX_STEP_SECONDS / SIM_STEP
    ensures var h := After(Born<P>(), before); Settled(After(h, es), h.lane.pending[0].seqNo)
  {
    hide Next, After;
    EveryRunFromBirth(before);
    HeadSettles(After(Born<P>(), before), es, 4);
  }

  predicate OnlyTicks<P>(es: seq<Happens<P>>) { forall i :: 0 <= i < |es| ==> es[i].TickOf? }

  lemma {:induction false} EmptyStaysEmpty<P>(h: History<P>, es: seq<Happens<P>>)
    requires OnlyTicks(es) && h.lane.pending == []
    ensures After(h, es).lane.pending == []
    decreases |es|
  {
    if es != [] { EmptyStaysEmpty(Next(h, es[0]), es[1..]); }
  }

  lemma {:induction false} TotalIsNonNegative<P>(cmds: seq<Command<P>>)
    requires forall i :: 0 <= i < |cmds| ==> 0.0 <= cmds[i].dt <= MAX_STEP_SECONDS
    ensures TotalDt(cmds) >= 0.0 && (cmds != [] ==> TotalDt(cmds) >= cmds[0].dt)
    decreases |cmds|
  {
    if cmds != [] { TotalIsNonNegative(cmds[1..]); }
  }

  /** One tick that leaves something waiting takes exactly what it accrued off the claimed time still owed. */
  lemma TickOwes<P>(h: History<P>, wantsIdle: bool)
    requires Kept(h) && Next(h, TickOf(wantsIdle)).lane.pending != []
    ensures var n := Next(h, TickOf(wantsIdle));
            && TotalDt(n.lane.pending) - n.lane.budget == TotalDt(h.lane.pending) - Accrued(h.lane.budget)
            && n.lane.budget < n.lane.pending[0].dt <= TotalDt(n.lane.pending)
            && n.lane.pending[0].dt <= MAX_STEP_SECONDS
  {
    TickPays(h.lane, wantsIdle);
    AffordableIsPaid(h.lane.pending, Accrued(h.lane.budget));
    TickKeeps(h, wantsIdle);
    TotalIsNonNegative(Next(h, TickOf(wantsIdle)).lane.pending);
  }

  /** While the bank is below one command's time nothing is capped away: the debt falls at real time. */
  lemma {:induction false} DebtFalls<P>(h: History<P>, es: seq<Happens<P>>)
    requires Kept(h) && OnlyTicks(es) && After(h, es).lane.pending != []
    requires h.lane.budget <= MAX_STEP_SECONDS
    ensures TotalDt(After(h, es).lane.pending) - After(h, es).lane.budget
         == TotalDt(h.lane.pending) - h.lane.budget - |es| as real * SIM_STEP
    decreases |es|
  {
    hide Kept, Tick;
    if es != [] {
      var n := Next(h, es[0]);
      if n.lane.pending == [] { EmptyStaysEmpty(n, es[1..]); }
      TickOwes(h, es[0].wantsIdle);
      TickKeeps(h, es[0].wantsIdle);
      DebtFalls(n, es[1..]);
    }
  }

  /** A queue that is sent nothing more is empty once the ticks have accrued the time it claims. */
  lemma QueueDrains<P>(h: History<P>, es: seq<Happens<P>>)
    requires Kept(h) && OnlyTicks(es) && es != []
    requires |es| as real * SIM_STEP >= TotalDt(h.lane.pending)
    ensures After(h, es).lane.pending == []
  {
    hide Kept, Tick;
    if After(h, es).lane.pending != [] {
      var n, wants := Next(h, es[0]), es[0].wantsIdle;
      if n.lane.pending == [] { EmptyStaysEmpty(n, es[1..]); }
      TickOwes(h, wants);
      TickKeeps(h, wants);
      AccruesATick(h);
      DebtFalls(n, es[1..]);
      EveryRunKeeps(n, es[1..]);
      LastTickOwes(n, es[1..]);
    }
  }

  lemma AccruesATick<P>(h: History<P>)
    requires Kept(h)
    ensures Accrued(h.lane.budget) >= SIM_STEP
  {}

  lemma {:induction false} LastTickOwes<P>(h: History<P>, es: seq<Happens<P>>)
    requires Kept(h) && OnlyTicks(es) && After(h, es).lane.pending != []
    requires h.lane.pending != [] && h.lane.budget < TotalDt(h.lane.pending)
    ensures After(h, es).lane.budget < TotalDt(After(h, es).lane.pending)
    decreases |es|
  {
    hide Kept, Tick;
    if es != [] {
      var n := Next(h, es[0]);
      if n.lane.pending == [] { EmptyStaysEmpty(n, es[1..]); }
      TickOwes(h, es[0].wantsIdle);
      TickKeeps(h, es[0].wantsIdle);
      LastTickOwes(n, es[1..]);
    }
  }
}
