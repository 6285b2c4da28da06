/** What each call to the service delivers: to whom, what, and in which order. */
module Deliveries {
  import opened Wrappers
  import opened Instants
  import opened Draws
  import opened Levels
  import opened CommandLane
  import opened World
  import opened Rewind
  import opened Ledger
  import opened LedgerRuns

  /** A hello is answered on its own socket and nowhere else, with whether its account is in the building; one that is
      in it will be told the directory again. In a building with no slot free a stranger changes nothing. */
  lemma AHelloIsAnswered(s: ServiceState, m: Member, seed: Stream, conn: string)
    ensures var n := Hello(s, m, seed);
            && n.site.Some?
            && StreamOf(n.streams, conn) == StreamOf(s.streams, conn)
                 + (if conn == m.conn then [Greeting(m.account in n.site.value.state.people)] else [])
            && (conn in n.boarded <==> conn in s.boarded && !(conn == m.conn && m.account in n.site.value.state.people))
    ensures var e, n := Ensured(s, seed).site.value.state, Hello(s, m, seed).site.value.state;
            && (m.account in e.people ==> n == e)
            && (m.account !in e.people ==>
                  if exists i :: 0 <= i < MAX_OCCUPANTS && e.slots[i] == "" then m.account in n.people else n == e)
  {
    hide Generated, FreeSlot;
    var e := Ensured(s, seed).site.value.state;
    if i :| 0 <= i < MAX_OCCUPANTS && e.slots[i] == "" {
      assert FreeSlot(e.slots) <= i;
    }
    assert StreamOf(s.streams, conn) + [] == StreamOf(s.streams, conn);
  }

  /** A building there is nobody in any more is torn down at once, and one that is raised has told nobody anything. */
  lemma ABuildingGoesWithTheLast(s: ServiceState, account: string, seed: Stream)
    ensures var n := Purged(s, account);
            && n.boarded == s.boarded && n.streams == s.streams && n.published == s.published
            && (s.site.Some? && account in s.site.value.state.people ==>
                  if s.site.value.state.people.Keys == {account} then n.site.None?
                  else n.site.Some? && n.site.value.state.people.Keys == s.site.value.state.people.Keys - {account})
            && (s.site.None? || account !in s.site.value.state.people ==> n == s)
    ensures s.site.None? ==>
              var n := Ensured(s, seed);
              && n.site.Some? && n.site.value.level == Generated(seed) && n.site.value.state.people == map[]
              && n.site.value.state.tick == 0 && n.site.value.state.spawnAt == 160 && n.site.value.state.past == []
              && (forall i :: 0 <= i < SLOP_POPULATION ==> n.site.value.state.slops[i].None?)
              && (forall i :: 0 <= i < MAX_OCCUPANTS ==> n.site.value.state.slots[i] == "")
              && n.published < 0 && n.boarded == s.boarded && n.streams == s.streams
  {
    hide Forgotten, Generated;
    if s.site.Some? && account in s.site.value.state.people {
      var people := s.site.value.state.people;
      assert (people - {account}).Keys == people.Keys - {account};
      if people.Keys != {account} {
        var other := AnotherOne(people.Keys, account);
        assert other in people - {account};
      }
    }
  }

  lemma AnotherOne(s: set<string>, x: string) returns (y: string)
    requires x in s && s != {x}
    ensures y in s && y != x
  {
    assert s == (s - {x}) + {x};
    NonEmptyHasMember(s - {x});
    y :| y in s - {x};
  }

  // ---- A tick ----

  /** What one socket is sent by a tick. */
  function Sent(m: Member, w: State, tell: bool): seq<Msg> {
    if m.account !in w.people then [] else (if tell then [Standings(w.slots)] else []) + [Snapshot(w.slots)]
  }

  /** Each socket is listed once. */
  predicate EachOnce(conns: seq<Member>) { forall i, j :: 0 <= i < j < |conns| ==> conns[i].conn != conns[j].conn }

  lemma FramesReach(streams: map<string, seq<Msg>>, m: Member, w: State, due: bool, told: set<string>, conn: string)
    requires m.account in w.people
    ensures StreamOf(PublishAll(streams, FramesFor(m.conn, w.slots, due, told)), conn) == StreamOf(streams, conn)
              + (if conn == m.conn then Sent(m, w, due || conn !in told) else [])
  {
    var frames, last := FramesFor(m.conn, w.slots, due, told), [Out(m.conn, Snapshot(w.slots))];
    var first := if due || m.conn !in told then Publish(streams, Out(m.conn, Standings(w.slots))) else streams;
    PublishNone(Publish(first, last[0]), last[1..]);
    PublishOne(first, last);
    if due || m.conn !in told {
      assert frames[1..] == last;
      PublishOne(streams, frames);
    } else {
      assert frames == last;
    }
    assert StreamOf(streams, conn) + [] == StreamOf(streams, conn);
  }

  lemma {:induction false} OutReaches(streams: map<string, seq<Msg>>, conns: seq<Member>, w: State, due: bool,
                                      told: set<string>, conn: string)
    requires EachOnce(conns)
    ensures var n := PublishAll(streams, OutAll(conns, w, due, told));
            && (forall i :: 0 <= i < |conns| && conns[i].conn == conn ==>
                  StreamOf(n, conn) == StreamOf(streams, conn) + Sent(conns[i], w, due || conn !in told))
            && ((forall i :: 0 <= i < |conns| ==> conns[i].conn != conn) ==>
                StreamOf(n, conn) == StreamOf(streams, conn))
    decreases |conns|
  {
    hide FramesFor, Sent, PublishAll, StreamOf;
    if conns == [] {
      PublishNone(streams, OutAll(conns, w, due, told));
    } else {
      var m, rest := conns[0], conns[1..];
      var frames := if m.account in w.people then FramesFor(m.conn, w.slots, due, told) else [];
      var next := PublishAll(streams, frames);
      PublishAllSplit(streams, frames, OutAll(rest, w, due, told));
      FirstReaches(streams, m, w, due, told, conn);
      OutReaches(next, rest, w, due, told, conn);
      if m.conn == conn {
        assert forall i :: 0 <= i < |rest| ==> rest[i] == conns[i + 1];
      } else {
        assert forall i :: 0 < i < |conns| ==> conns[i] == rest[i - 1];
      }
    }
  }

  lemma FirstReaches(streams: map<string, seq<Msg>>, m: Member, w: State, due: bool, told: set<string>, conn: string)
    ensures var frames := if m.account in w.people then FramesFor(m.conn, w.slots, due, told) else [];
            StreamOf(PublishAll(streams, frames), conn)
            == StreamOf(streams, conn) + (if conn == m.conn then Sent(m, w, due || conn !in told) else [])
  {
    hide FramesFor, Sent, PublishAll, StreamOf;
    if m.account in w.people {
      FramesReach(streams, m, w, due, told, conn);
    } else {
      NothingSent(m, w, due || conn !in told);
      PublishNone(streams, []);
      assert StreamOf(streams, conn) + [] == StreamOf(streams, conn);
    }
  }

  lemma NothingSent(m: Member, w: State, tell: bool)
    requires m.account !in w.people
    ensures Sent(m, w, tell) == []
  {}

  /** A tick of a building somebody is in sends each of its people's sockets one snapshot, and before it the directory
      when it is the twentieth tick since the last round one, when the slots have changed hands since it was last
      sent, or when that socket has never been sent it; and nobody else anything. Then whom the ledger lists is whom
      it reached, and a building that has emptied is gone. */
  lemma ATickDelivers(s: ServiceState, conns: seq<Member>, plan: Plan, conn: string)
    requires s.site.Some? && s.site.value.state.people != map[] && EachOnce(conns)
    ensures var w, n := Advanced(s.site.value.level, s.site.value.state, plan), Stepped(s, conns, plan);
            var round := w.tick % 20 == 0 || w.roster != s.published;
            && (forall i :: 0 <= i < |conns| && conns[i].conn == conn && conns[i].account in w.people ==>
                  StreamOf(n.streams, conn) == StreamOf(s.streams, conn)
                    + (if round || conn !in s.boarded then [Standings(w.slots)] else []) + [Snapshot(w.slots)])
            && ((forall i :: 0 <= i < |conns| && conns[i].conn == conn ==> conns[i].account !in w.people) ==>
                  StreamOf(n.streams, conn) == StreamOf(s.streams, conn))
            && (conn in n.boarded <==>
                exists i :: 0 <= i < |conns| && conns[i].conn == conn && conns[i].account in w.people)
            && n.published == (if round then w.roster else s.published)
            && (n.site.None? <==> w.people == map[]) && (n.site.Some? ==> n.site.value.state == w)
  {
    hide Advanced, OutAll, PublishAll, StreamOf;
    var w := Advanced(s.site.value.level, s.site.value.state, plan);
    var due := Due(w, s.published);
    OutReaches(s.streams, conns, w, due, s.boarded, conn);
    var was := StreamOf(s.streams, conn);
    forall i | 0 <= i < |conns| && conns[i].conn == conn && conns[i].account in w.people
      ensures was + Sent(conns[i], w, due || conn !in s.boarded)
              == was + (if due || conn !in s.boarded then [Standings(w.slots)] else []) + [Snapshot(w.slots)]
    {}
    forall i | 0 <= i < |conns| && conns[i].conn == conn && conns[i].account !in w.people
      ensures was + Sent(conns[i], w, due || conn !in s.boarded) == was
    {}
    ServedAre(conns, w, conn);
  }

  lemma ServedAre(conns: seq<Member>, w: State, conn: string)
    ensures conn in Served(conns, w) <==>
            exists i :: 0 <= i < |conns| && conns[i].conn == conn && conns[i].account in w.people
  {
    if conn in Served(conns, w) {
      var m :| m in conns && m.account in w.people && m.conn == conn;
      var i :| 0 <= i < |conns| && conns[i] == m;
    }
    if i :| 0 <= i < |conns| && conns[i].conn == conn && conns[i].account in w.people { assert conns[i] in conns; }
  }
}
