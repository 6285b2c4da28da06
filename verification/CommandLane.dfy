/** The command lane of one occupant, which both shared worlds keep: a queue deduplicated by sequence number, an
    acknowledgement, and a budget of simulated time accrued at real time.

    The two games differ in one guard, which is an input here: whether a quiet tick wants the idle fill. */
module CommandLane {
  import opened Wrappers

  const SIM_STEP: real := 0.05
  const MAX_STEP_SECONDS: real := 0.2
  const TIME_BUDGET_CAP: real := 0.5
  /** Four frames of the largest frame the parser passes through. */
  const MAX_PENDING: nat := 4 * (4 + 6)

  /** A claimed duration as it can arrive. */
  datatype Claim = Finite(v: real) | NaN | Infinite(positive: bool)

  datatype Sent<P> = Sent(seqNo: int, claim: Claim, intent: P)

  datatype Command<P> = Command(seqNo: int, dt: real, intent: P)

  function SaneDt(c: Claim): (dt: real)
    ensures 0.0 <= dt <= MAX_STEP_SECONDS
  {
    match c
    case NaN => 0.0
    case Infinite(positive) => if positive then MAX_STEP_SECONDS else 0.0
    case Finite(v) => MaxR(0.0, MinR(MAX_STEP_SECONDS, v))
  }

  datatype Lane<P> = Lane(high: int, last: int, pending: seq<Command<P>>, budget: real)

  function NewLane<P>(): Lane<P> { Lane(0, 0, [], 0.0) }

  // ---- Enqueue ----

  /** The commands of a frame not seen before, appended in order. */
  function Accept<P>(l: Lane<P>, cmds: seq<Sent<P>>): Lane<P>
    decreases |cmds|
  {
    if cmds == [] then l
    else
      var c := cmds[0];
      Accept(if c.seqNo <= l.high then l
             else l.(high := c.seqNo, pending := l.pending + [Command(c.seqNo, SaneDt(c.claim), c.intent)]),
             cmds[1..])
  }

  function Trimmed<P>(l: Lane<P>): Lane<P> {
    if |l.pending| > MAX_PENDING then l.(pending := l.pending[|l.pending| - MAX_PENDING..]) else l
  }

  function Enqueue<P>(l: Lane<P>, cmds: seq<Sent<P>>): Lane<P> { Trimmed(Accept(l, cmds)) }

  // ---- One tick ----

  function TotalDt<P>(cmds: seq<Command<P>>): real
    decreases |cmds|
  {
    if cmds == [] then 0.0 else cmds[0].dt + TotalDt(cmds[1..])
  }

  /** How many commands at the head the budget pays for whole. */
  function Affordable<P>(pending: seq<Command<P>>, budget: real): (n: nat)
    ensures n <= |pending|
    decreases |pending|
  {
    if pending == [] || pending[0].dt > budget then 0
    else 1 + Affordable(pending[1..], budget - pending[0].dt)
  }

  /** What one tick did: the commands stepped whole, in order, and the stillness stepped when there were none. */
  datatype Ticked<P> = Ticked(lane: Lane<P>, stepped: seq<Command<P>>, idle: real)

  function Accrued(budget: real): real { MinR(budget + SIM_STEP, TIME_BUDGET_CAP) }

  function Tick<P>(l: Lane<P>, wantsIdle: bool): Ticked<P> {
    var n := Affordable(l.pending, Accrued(l.budget));
    var stepped, rest := l.pending[..n], l.pending[n..];
    var spent := TotalDt(stepped);
    var left := Accrued(l.budget) - spent;
    var idle := if SIM_STEP - spent > 0.0 && spent == 0.0 && rest == [] && wantsIdle then SIM_STEP - spent else 0.0;
    Ticked(Lane(l.high, if n > 0 then stepped[n-1].seqNo else l.last, rest, if idle > 0.0 then MaxR(0.0, left - idle)
        else left),
      stepped, idle)
  }

  /** The occupant's half of the world that keeps this state, updated in place. */
  class Occupant<P> {
    var highSeq: int
    var lastSeq: int
    var pending: seq<Command<P>>
    var budget: real

    function State(): Lane<P>
      reads this
    {
      Lane(highSeq, lastSeq, pending, budget)
    }

    constructor ()
      ensures State() == NewLane()
    {
      highSeq, lastSeq, pending, budget := 0, 0, [], 0.0;
    }

    method EnqueueFrame(cmds: seq<Sent<P>>)
      modifies this
      ensures State() == Enqueue(old(State()), cmds)
    {
      for i := 0 to |cmds|
        invariant Accept(State(), cmds[i..]) == Accept(old(State()), cmds)
      {
        assert cmds[i..][1..] == cmds[i+1..];
        var c := cmds[i];
        if c.seqNo <= highSeq { continue; }
        highSeq := c.seqNo;
        pending := pending + [Command(c.seqNo, SaneDt(c.claim), c.intent)];
      }
      if |pending| > MAX_PENDING {
        pending := pending[|pending| - MAX_PENDING..];
      }
    }

    /** The commands at the head the budget pays for, each whole and in order. */
    method StepAffordable() returns (stepped: seq<Command<P>>, spent: real)
      modifies this
      ensures var n := Affordable(old(pending), old(budget));
              && stepped == old(pending)[..n] && spent == TotalDt(stepped)
              && State() == old(State()).(pending := old(pending)[n..], budget := old(budget) - spent,
                                          last := if n > 0 then stepped[n-1].seqNo else old(lastSeq))
    {
      ghost var before, all, n := State(), pending, Affordable(pending, budget);
      stepped, spent := [], 0.0;
      while |pending| > 0 && pending[0].dt <= budget
        invariant |stepped| <= n && stepped == all[..|stepped|] && pending == all[|stepped|..]
        invariant Affordable(pending, budget) == n - |stepped|
        invariant spent == TotalDt(stepped) && budget == before.budget - spent
        invariant highSeq == before.high && lastSeq == if |stepped| > 0 then stepped[|stepped|-1].seqNo else before.last
        decreases |pending|
      {
        var c := pending[0];
        pending := pending[1..];
        budget := budget - c.dt;
        spent := spent + c.dt;
        TotalDtSnoc(stepped, c);
        stepped := stepped + [c];
        lastSeq := c.seqNo;
      }
    }

    method RunTick(wantsIdle: bool) returns (stepped: seq<Command<P>>, idle: real)
      modifies this
      ensures Ticked(State(), stepped, idle) == Tick(old(State()), wantsIdle)
    {
      hide Affordable, TotalDt;
      budget := MinR(budget + SIM_STEP, TIME_BUDGET_CAP);
      var spent;
      stepped, spent := StepAffordable();
      idle := 0.0;
      var quiet := SIM_STEP - spent;
      if quiet > 0.0 && spent == 0.0 && |pending| == 0 && wantsIdle {
        idle := quiet;
        budget := MaxR(0.0, budget - quiet);
      }
    }
  }

  lemma {:induction false} TotalDtSnoc<P>(cmds: seq<Command<P>>, c: Command<P>)
    ensures TotalDt(cmds + [c]) == TotalDt(cmds) + c.dt
    decreases |cmds|
  {
    if cmds == [] {
      assert cmds + [c] == [c] && [c][1..] == [];
    } else {
      TotalDtSnoc(cmds[1..], c);
      assert (cmds + [c])[1..] == cmds[1..] + [c];
    }
  }
}
