/** A snapshot never outruns its directory: what every stream carries, over every run of the service. */
module LedgerRuns {
  import opened Wrappers
  import opened Draws
  import opened Levels
  import opened CommandLane
  import opened Soldier
  import opened Rewind
  import opened World
  import opened WorldRuns
  import opened Ledger

  // ---- What a reader can rely on ----

  /** The directory a reader of this stream holds: the newest standings in it. */
  function Directory(stream: seq<Msg>): Option<SlotTable>
    decreases |stream|
  {
    if stream == [] then None
    else if stream[|stream|-1].Standings? then Some(stream[|stream|-1].directory)
    else Directory(stream[..|stream|-1])
  }

  /** Every snapshot in the stream names slots exactly as the newest standings before it has them. */
  predicate Readable(stream: seq<Msg>) {
    forall i :: 0 <= i < |stream| && stream[i].Snapshot? ==> Directory(stream[..i]) == Some(stream[i].named)
  }

  lemma {:induction false} DirectoryIsTheNewest(stream: seq<Msg>)
    requires Directory(stream).Some?
    ensures exists j :: 0 <= j < |stream| && stream[j] == Standings(Directory(stream).value)
              && forall k :: j < k < |stream| ==> !stream[k].Standings?
    decreases |stream|
  {
    var n := |stream| - 1;
    if stream[n].Standings? {
      assert stream[n] == Standings(Directory(stream).value);
    } else {
      DirectoryIsTheNewest(stream[..n]);
      var j :| 0 <= j < n && stream[..n][j] == Standings(Directory(stream[..n]).value) && forall k :: j < k < n ==>
          !stream[..n][k].Standings?;
      assert stream[j] == Standings(Directory(stream).value);
      forall k | j < k < |stream| ensures !stream[k].Standings? { if k < n { assert stream[..n][k] == stream[k]; } }
    }
  }

  lemma DirectoryAfter(stream: seq<Msg>, m: Msg)
    ensures Directory(stream + [m]) == if m.Standings? then Some(m.directory) else Directory(stream)
  {
    assert (stream + [m])[..|stream|] == stream;
  }

  lemma ReadableAfter(stream: seq<Msg>, m: Msg)
    requires Readable(stream) && (m.Snapshot? ==> Directory(stream) == Some(m.named))
    ensures Readable(stream + [m])
  {
    var n := stream + [m];
    forall i | 0 <= i < |n| && n[i].Snapshot? ensures Directory(n[..i]) == Some(n[i].named) {
      assert n[..i] == stream[..i];
    }
    assert stream[..|stream|] == stream;
  }

  // ---- Queueing ----

  ghost predicate AllReadable(streams: map<string, seq<Msg>>) { forall c :: c in streams ==> Readable(streams[c]) }

  /** These connections hold exactly this directory. */
  ghost predicate Told(streams: map<string, seq<Msg>>, conns: set<string>, table: SlotTable) {
    forall c :: c in conns ==> Directory(StreamOf(streams, c)) == Some(table)
  }

  lemma PublishKeeps(streams: map<string, seq<Msg>>, o: Out)
    requires AllReadable(streams) && (o.msg.Snapshot? ==> Directory(StreamOf(streams, o.conn)) == Some(o.msg.named))
    ensures var n := Publish(streams, o);
            && AllReadable(n)
            && forall c :: Directory(StreamOf(n, c)) ==
                 if c == o.conn && o.msg.Standings? then Some(o.msg.directory) else Directory(StreamOf(streams, c))
  {
    hide Readable, Directory;
    EmptyIsReadable();
    ReadableAfter(StreamOf(streams, o.conn), o.msg);
    DirectoryAfter(StreamOf(streams, o.conn), o.msg);
  }

  lemma EmptyIsReadable()
    ensures Readable([])
  {}

  lemma PublishAllSplit(streams: map<string, seq<Msg>>, a: seq<Out>, b: seq<Out>)
    ensures PublishAll(streams, a + b) == PublishAll(PublishAll(streams, a), b)
    decreases |a|
  {
    if a == [] {
      assert a + b == b;
    } else {
      assert (a + b)[1..] == a[1..] + b;
      PublishAllSplit(Publish(streams, a[0]), a[1..], b);
    }
  }

  /** One connection served: the directory first, when it needs one, and its snapshot read by it. */
  lemma ServeOne(streams: map<string, seq<Msg>>, conn: string, table: SlotTable, due: bool, told: set<string>,
                 knows: set<string>)
    requires AllReadable(streams) && Told(streams, knows, table) && (!due ==> told <= knows)
    ensures var n := PublishAll(streams, FramesFor(conn, table, due, told));
            AllReadable(n) && Told(n, knows + {conn}, table)
  {
    hide Readable, Directory, AllReadable;
    var frames := FramesFor(conn, table, due, told);
    var first := if due || conn !in told then Publish(streams, Out(conn, Standings(table))) else streams;
    if due || conn !in told {
      PublishKeeps(streams, Out(conn, Standings(table)));
      assert frames[1..] == [Out(conn, Snapshot(table))];
    }
    assert Told(first, knows + {conn}, table);
    PublishKeeps(first, Out(conn, Snapshot(table)));
    var last := [Out(conn, Snapshot(table))];
    PublishNone(Publish(first, last[0]), last[1..]);
    PublishOne(first, last);
    if due || conn !in told { PublishOne(streams, frames); } else { assert frames == last; }
    assert PublishAll(streams, frames) == Publish(first, last[0]);
  }

  lemma {:induction false} ServeAll(streams: map<string, seq<Msg>>, conns: seq<Member>, w: State, due: bool,
                                    told: set<string>, knows: set<string>)
    requires AllReadable(streams) && Told(streams, knows, w.slots) && (!due ==> told <= knows)
    ensures var n := PublishAll(streams, OutAll(conns, w, due, told));
            AllReadable(n) && Told(n, knows + Served(conns, w), w.slots)
    decreases |conns|
  {
    hide AllReadable, Directory, FramesFor;
    if conns == [] {
      assert knows + Served(conns, w) == knows;
    } else {
      var m, rest := conns[0], conns[1..];
      ServedCons(conns, w);
      if m.account in w.people {
        var frames := FramesFor(m.conn, w.slots, due, told);
        ServeOne(streams, m.conn, w.slots, due, told, knows);
        PublishAllSplit(streams, frames, OutAll(rest, w, due, told));
        ServeAll(PublishAll(streams, frames), rest, w, due, told, knows + {m.conn});
        assert knows + {m.conn} + Served(rest, w) == knows + Served(conns, w);
      } else {
        ServeAll(streams, rest, w, due, told, knows);
        assert OutAll(conns, w, due, told) == OutAll(rest, w, due, told);
      }
    }
  }

  lemma ServedCons(conns: seq<Member>, w: State)
    requires conns != []
    ensures Served(conns, w) == (if conns[0].account in w.people then {conns[0].conn} else {}) + Served(conns[1..], w)
  {
    assert conns == [conns[0]] + conns[1..];
    forall c ensures c in Served(conns, w) <==>
        c in (if conns[0].account in w.people then {conns[0].conn} else {}) + Served(conns[1..], w) {
      if c in Served(conns, w) {
        var m :| m in conns && m.account in w.people && m.conn == c;
        assert m == conns[0] || m in conns[1..];
      }
    }
  }

  // ---- The roster counts the changes of the slot table ----

  /** Nobody changed places unless the roster says so, and the roster never goes back. */
  predicate RosterTells(w: State, n: State) { n.roster >= w.roster && (n.roster == w.roster ==> n.slots == w.slots) }

  lemma {:induction false} ReleasesTell(w: State, ids: seq<string>)
    ensures RosterTells(w, ReleasedAll(w, ids))
    decreases |ids|
  {
    if ids != [] { ReleasesTell(Released(w, ids[0]), ids[1..]); }
  }

  lemma AdvanceTells(l: Level, w: State, plan: Plan)
    requires |l.sectors| > 0
    ensures RosterTells(w, Advanced(l, w, plan))
  {
    hide Advanced, ReleasedAll, Recorded;
    var touched := PlayedSeats(l, w, plan);
    RecordedSeats(l, touched, plan.now);
    ReleasesTell(Recorded(l, touched, plan.now), plan.abandoned);
  }

  // ---- Every run ----

  /** Every stream is readable; no roster was published that the building has not reached; and as long as the published
      roster is the building's, everybody in the ledger holds its slot table. */
  ghost predicate Honest(s: ServiceState) {
    && AllReadable(s.streams)
    && (s.site.Some? ==> s.published <= s.site.value.state.roster)
    && (s.site.Some? && s.published == s.site.value.state.roster ==>
        Told(s.streams, s.boarded, s.site.value.state.slots))
  }

  lemma EnsuredIsHonest(s: ServiceState, seed: Stream)
    requires Honest(s)
    ensures Honest(Ensured(s, seed)) && Ensured(s, seed).site.Some?
  {
    hide AllReadable, Told, Generated;
  }

  /** A step of the building that counts its changes keeps the ledger honest. */
  lemma MovedOnIsHonest(s: ServiceState, n: State)
    requires Honest(s) && s.site.Some? && RosterTells(s.site.value.state, n)
    ensures Honest(s.(site := Some(s.site.value.(state := n))))
  {
    hide AllReadable, Told;
  }

  lemma JoinTells(l: Level, w: State, id: string)
    requires |l.sectors| > 0
    ensures RosterTells(w, Joined(l, w, id))
  {}

  lemma HelloIsHonest(s: ServiceState, m: Member, seed: Stream)
    requires Honest(s)
    ensures Honest(Hello(s, m, seed))
  {
    hide AllReadable, Joined, Directory, RosterTells, Ensured;
    EnsuredIsHonest(s, seed);
    var e := Ensured(s, seed);
    var n := Joined(SiteOf(e).level, SiteOf(e).state, m.account);
    JoinTells(SiteOf(e).level, SiteOf(e).state, m.account);
    MovedOnIsHonest(e, n);
    PublishKeeps(e.streams, Out(m.conn, Greeting(m.account in n.people)));
  }

  lemma StepIsHonest(s: ServiceState, conns: seq<Member>, plan: Plan)
    requires Honest(s)
    ensures Honest(Stepped(s, conns, plan))
  {
    hide AllReadable, Advanced, Directory, PublishAll, OutAll, Served;
    if s.site.Some? && s.site.value.state.people != map[] {
      var w := Advanced(s.site.value.level, s.site.value.state, plan);
      AdvanceTells(s.site.value.level, s.site.value.state, plan);
      var due := Due(w, s.published);
      var knows := if due then {} else s.boarded;
      ServeAll(s.streams, conns, w, due, s.boarded, knows);
    }
  }

  lemma CallIsHonest(s: ServiceState, c: Call)
    requires Honest(s)
    ensures Honest(Called(s, c))
  {
    hide Honest, RosterTells, Hello, Stepped, Released, Enqueued, Ensured;
    match c
    case Greets(m, seed) => HelloIsHonest(s, m, seed);
    case Fetches(seed) => EnsuredIsHonest(s, seed);
    case Purges(account) =>
      if s.site.Some? && account in s.site.value.state.people {
        ReleaseTells(s.site.value.state, account);
        MovedOnIsHonest(s, Released(s.site.value.state, account));
        TornDownIsHonest(s);
      }
    case Sends(account, cmds) =>
      if s.site.Some? {
        EnqueueTells(s.site.value.state, account, cmds);
        MovedOnIsHonest(s, Enqueued(s.site.value.state, account, cmds));
      }
    case Ticks(conns, plan) => StepIsHonest(s, conns, plan);
  }

  lemma ReleaseTells(w: State, id: string)
    ensures RosterTells(w, Released(w, id))
  {}

  lemma EnqueueTells(w: State, id: string, cmds: seq<Sent<Order>>)
    ensures RosterTells(w, Enqueued(w, id, cmds))
  {
    hide CommandLane.Enqueue;
  }

  lemma TornDownIsHonest(s: ServiceState)
    requires Honest(s)
    ensures Honest(s.(site := None))
  {}

  lemma {:induction false} EveryRunIsHonest(s: ServiceState, cs: seq<Call>)
    requires Honest(s)
    ensures Honest(CalledAll(s, cs))
    decreases |cs|
  {
    hide Honest, Called;
    if cs != [] {
      CallIsHonest(s, cs[0]);
      EveryRunIsHonest(Called(s, cs[0]), cs[1..]);
    }
  }

  /** A snapshot never outruns its directory. Over every run of hellos, fetches, purges, input and ticks, with sockets
      that come and go, buildings torn down and rebuilt and slots changing hands: whenever a connection is sent a
      snapshot, the newest standings it was sent before are the slot table that snapshot was built from. */
  lemma ASnapshotNeverOutrunsItsDirectory(cs: seq<Call>, conn: string, i: nat)
    requires var stream := StreamOf(CalledAll(Opened(), cs).streams, conn); i < |stream| && stream[i].Snapshot?
    ensures var stream := StreamOf(CalledAll(Opened(), cs).streams, conn);
            exists j :: 0 <= j < i && stream[j] == Standings(stream[i].named) && forall k :: j < k < i ==>
                !stream[k].Standings?
  {
    hide CalledAll, Directory;
    EveryRunIsHonest(Opened(), cs);
    var stream := StreamOf(CalledAll(Opened(), cs).streams, conn);
    assert Directory(stream[..i]) == Some(stream[i].named);
    DirectoryIsTheNewest(stream[..i]);
    var j :| 0 <= j < i && stream[..i][j] == Standings(stream[i].named) && forall k :: j < k < i ==>
        !stream[..i][k].Standings?;
    assert stream[j] == Standings(stream[i].named);
    forall k | j < k < i ensures !stream[k].Standings? { assert stream[k] == stream[..i][k]; }
  }

  // ---- Everybody is served, and why the sentinel ----

  /** The newest frame of each of these connections is a snapshot of this moment. */
  ghost predicate UpToDate(streams: map<string, seq<Msg>>, conns: set<string>, table: SlotTable) {
    forall c :: c in conns ==> var stream := StreamOf(streams, c); stream != [] && stream[|stream|-1] == Snapshot(table)
  }

  lemma ServeOneUpToDate(streams: map<string, seq<Msg>>, conn: string, table: SlotTable, due: bool, told: set<string>,
                         seen: set<string>)
    requires UpToDate(streams, seen, table)
    ensures UpToDate(PublishAll(streams, FramesFor(conn, table, due, told)), seen + {conn}, table)
  {
    var frames, last := FramesFor(conn, table, due, told), [Out(conn, Snapshot(table))];
    var first := if due || conn !in told then Publish(streams, Out(conn, Standings(table))) else streams;
    PublishNone(Publish(first, last[0]), last[1..]);
    PublishOne(first, last);
    if due || conn !in told {
      assert frames[1..] == last;
      PublishOne(streams, frames);
    } else {
      assert frames == last;
    }
    assert PublishAll(streams, frames) == Publish(first, last[0]);
  }

  lemma {:induction false} ServeAllUpToDate(streams: map<string, seq<Msg>>, conns: seq<Member>, w: State, due: bool,
                                            told: set<string>, seen: set<string>)
    requires UpToDate(streams, seen, w.slots)
    ensures UpToDate(PublishAll(streams, OutAll(conns, w, due, told)), seen + Served(conns, w), w.slots)
    decreases |conns|
  {
    hide FramesFor, UpToDate;
    if conns == [] {
      assert seen + Served(conns, w) == seen;
    } else {
      var m, rest := conns[0], conns[1..];
      ServedCons(conns, w);
      if m.account in w.people {
        var frames := FramesFor(m.conn, w.slots, due, told);
        ServeOneUpToDate(streams, m.conn, w.slots, due, told, seen);
        PublishAllSplit(streams, frames, OutAll(rest, w, due, told));
        ServeAllUpToDate(PublishAll(streams, frames), rest, w, due, told, seen + {m.conn});
        assert seen + {m.conn} + Served(rest, w) == seen + Served(conns, w);
      } else {
        ServeAllUpToDate(streams, rest, w, due, told, seen);
        assert Served(conns, w) == Served(rest, w);
        assert OutAll(conns, w, due, told) == OutAll(rest, w, due, told);
      }
    }
  }

  /** Every socket of everybody in the building ends the tick with a snapshot of it. */
  lemma EveryTickReachesEverybody(s: ServiceState, conns: seq<Member>, plan: Plan, m: Member)
    requires s.site.Some? && s.site.value.state.people != map[] && m in conns
    requires m.account in Advanced(s.site.value.level, s.site.value.state, plan).people
    ensures var w := Advanced(s.site.value.level, s.site.value.state, plan);
            var stream := StreamOf(Stepped(s, conns, plan).streams, m.conn);
            stream != [] && stream[|stream|-1] == Snapshot(w.slots)
  {
    hide Advanced, OutAll, PublishAll;
    var w := Advanced(s.site.value.level, s.site.value.state, plan);
    ServeAllUpToDate(s.streams, conns, w, Due(w, s.published), s.boarded, {});
    assert m.conn in {} + Served(conns, w);
  }

  // ---- Why the sentinel ----

  /** A service that raises a new building without resetting the published roster. */
  function Rebuilt(s: ServiceState, seed: Stream): ServiceState {
    GeneratedIsWellBuilt(seed);
    if s.site.Some? then s else s.(site := Some(Site(Generated(seed), Founded())))
  }

  function CalledWithoutReset(s: ServiceState, c: Call): ServiceState {
    match c
    case Greets(m, seed) => Hello(Rebuilt(s, seed), m, seed)
    case Fetches(seed) => Rebuilt(s, seed)
    case _ => Called(s, c)
  }

  function CalledAllWithoutReset(s: ServiceState, cs: seq<Call>): ServiceState
    decreases |cs|
  {
    if cs == [] then s else CalledAllWithoutReset(CalledWithoutReset(s, cs[0]), cs[1..])
  }

  /** Two people and their sockets, and a third who comes later. */
  datatype Cast = Cast(x: Member, a: Member, again: Member, y: Member)

  predicate Distinguished(c: Cast) {
    && c.x.account != "" && c.a.account != "" && c.y.account != ""
    && c.x.account != c.a.account && c.y.account != c.a.account && c.again.account == c.a.account
    && c.x.conn != c.a.conn && c.again.conn != c.a.conn && c.y.conn != c.a.conn
  }

  /** Two play, both are purged between two ticks, and one of them is back on a new socket with a newcomer before the
      next. */
  function Return(c: Cast, seed: Stream, first: Plan, second: Plan): seq<Call> {
    [Greets(c.x, seed), Greets(c.a, seed), Ticks([c.x, c.a], first), Purges(c.x.account), Purges(c.a.account),
     Greets(c.again, seed), Greets(c.y, seed), Ticks([c.a], second)]
  }

  lemma Seated(s: ServiceState, m: Member, seed: Stream, slots: SlotTable, i: nat)
    requires s.site.Some? && s.site.value.state.slots == slots && m.account !in s.site.value.state.people
    requires i < MAX_OCCUPANTS && slots[i] == "" && forall j :: 0 <= j < i ==> slots[j] != ""
    ensures var n := Hello(s, m, seed);
            && n.site.Some? && n.site.value.state.slots == slots[i := m.account]
            && n.site.value.state.people.Keys == s.site.value.state.people.Keys + {m.account}
            && n.site.value.state.roster == s.site.value.state.roster + 1
            && n.site.value.state.tick == s.site.value.state.tick
            && n.published == s.published && n.boarded == s.boarded - {m.conn}
            && n.streams == Publish(s.streams, Out(m.conn, Greeting(true)))
  {
    FirstFreeIs(slots, i);
    hide Generated;
  }

  lemma FirstFreeIs(slots: seq<string>, i: nat)
    requires i < |slots| && slots[i] == "" && forall j :: 0 <= j < i ==> slots[j] != ""
    ensures FreeSlot(slots) == i
  {}

  /** The first half: both are seated and the second holds the directory of the two of them. */
  lemma BothPlay(c: Cast, seed: Stream, first: Plan) returns (s: ServiceState)
    requires Distinguished(c) && first.abandoned == []
    ensures s == Called(Hello(Rebuilt(Hello(Rebuilt(Opened(), seed), c.x, seed), seed), c.a, seed),
            Ticks([c.x, c.a], first))
    ensures s.published == 2 && c.a.conn in s.boarded && s.site.Some?
            && s.site.value.state.people.Keys == {c.x.account, c.a.account}
    ensures Directory(StreamOf(s.streams, c.a.conn)) == Some([c.x.account, c.a.account, ""])
  {
    hide Generated, Hello, Advanced, OutAll, PublishAll, Directory, FreeSlot;
    var r := Rebuilt(Opened(), seed);
    Seated(r, c.x, seed, ["", "", ""], 0);
    var one := Hello(r, c.x, seed);
    Seated(one, c.a, seed, [c.x.account, "", ""], 1);
    var two := Hello(one, c.a, seed);
    assert two.site.value.state.slots == [c.x.account, c.a.account, ""];
    NobodyLeaves(two.site.value.level, two.site.value.state, first);
    s := Called(two, Ticks([c.x, c.a], first));
    var w := Advanced(two.site.value.level, two.site.value.state, first);
    GreetingsAreReadable(c.x.conn, c.a.conn);
    ServeAll(two.streams, [c.x, c.a], w, true, two.boarded, {});
    assert [c.x, c.a][1] == c.a;
    assert c.a.conn in Served([c.x, c.a], w);
  }

  lemma GreetingsAreReadable(c: string, d: string)
    ensures AllReadable(Publish(Publish(map[], Out(c, Greeting(true))), Out(d, Greeting(true))))
  {}

  /** The second half: the roster of the new building is the old number, nothing is due, and the old socket is sent a
      snapshot of a table it has never seen. */
  lemma OneReturns(c: Cast, seed: Stream, s: ServiceState, second: Plan) returns (n: ServiceState)
    requires Distinguished(c) && second.abandoned == []
    requires s.published == 2 && c.a.conn in s.boarded && s.site.Some?
             && s.site.value.state.people.Keys == {c.x.account, c.a.account}
    ensures var gone := Called(Called(s, Purges(c.x.account)), Purges(c.a.account));
            n == Called(Hello(Rebuilt(Hello(Rebuilt(gone, seed), c.again, seed), seed), c.y, seed),
                Ticks([c.a], second))
    ensures StreamOf(n.streams, c.a.conn) == StreamOf(s.streams, c.a.conn) + [Snapshot([c.a.account, c.y.account, ""])]
  {
    hide Rebuilt, Hello, Stepped;
    BothGo(s, c.x.account, c.a.account);
    var two := BothComeIn(c, seed, s.(site := None));
    n := Called(two, Ticks([c.a], second));
    NothingIsDue(two, c.a, second);
  }

  lemma BothComeIn(c: Cast, seed: Stream, gone: ServiceState) returns (two: ServiceState)
    requires Distinguished(c) && gone.site.None? && gone.published == 2 && c.a.conn in gone.boarded
    ensures two == Hello(Rebuilt(Hello(Rebuilt(gone, seed), c.again, seed), seed), c.y, seed)
    ensures two.published == 2 && c.a.conn in two.boarded
            && StreamOf(two.streams, c.a.conn) == StreamOf(gone.streams, c.a.conn)
    ensures two.site.Some? && two.site.value.state.roster == 2 && two.site.value.state.tick == 0
    ensures two.site.value.state.people.Keys == {c.a.account, c.y.account}
            && two.site.value.state.slots == [c.a.account, c.y.account, ""]
  {
    hide Generated, Hello, FreeSlot;
    var r := Rebuilt(gone, seed);
    Seated(r, c.again, seed, ["", "", ""], 0);
    var one := Hello(r, c.again, seed);
    Seated(one, c.y, seed, [c.a.account, "", ""], 1);
    two := Hello(one, c.y, seed);
  }

  /** The first tick of a building whose roster is the published one: whoever is in the ledger gets his snapshot
      alone. */
  lemma NothingIsDue(s: ServiceState, m: Member, plan: Plan)
    requires s.site.Some? && s.site.value.state.roster == s.published && s.site.value.state.tick == 0
             && plan.abandoned == []
    requires m.account in s.site.value.state.people && m.conn in s.boarded
    ensures StreamOf(Stepped(s, [m], plan).streams, m.conn)
            == StreamOf(s.streams, m.conn) + [Snapshot(s.site.value.state.slots)]
  {
    hide Advanced, OutAll, PublishAll;
    var w := Advanced(s.site.value.level, s.site.value.state, plan);
    NobodyLeaves(s.site.value.level, s.site.value.state, plan);
    assert !Due(w, s.published);
    OneSnapshot(s.streams, m, w, s.boarded);
  }

  lemma BothGo(s: ServiceState, x: string, a: string)
    requires s.site.Some? && s.site.value.state.people.Keys == {x, a} && x != a
    ensures Purged(Purged(s, x), a) == s.(site := None)
  {
    hide Forgotten;
    var w := s.site.value.state;
    assert x in w.people && a in w.people - {x};
    var one := Released(w, x);
    assert one.people.Keys == {a};
    assert a in one.people && one.people != map[];
    assert (one.people - {a}).Keys == {};
  }

  lemma OneSnapshot(streams: map<string, seq<Msg>>, m: Member, w: State, told: set<string>)
    requires m.account in w.people && m.conn in told
    ensures PublishAll(streams, OutAll([m], w, false, told)) == Publish(streams, Out(m.conn, Snapshot(w.slots)))
  {
    var out := [Out(m.conn, Snapshot(w.slots))];
    assert [m][1..] == [] && OutAll([], w, false, told) == [];
    assert FramesFor(m.conn, w.slots, false, told) == out && OutAll([m], w, false, told) == out;
    PublishOne(streams, out);
    PublishNone(Publish(streams, out[0]), out[1..]);
  }

  /** Without the reset there is a run that sends a snapshot its reader cannot read: with the directory of the old
      building in his hand, and nothing but it, he is shown the slots of the new one. */
  lemma TheSentinelIsNeeded(c: Cast, seed: Stream, first: Plan, second: Plan)
    requires Distinguished(c) && first.abandoned == [] && second.abandoned == []
    ensures !Readable(StreamOf(CalledAllWithoutReset(Opened(), Return(c, seed, first, second)).streams, c.a.conn))
  {
    hide Hello, Called, Rebuilt, Directory, Readable;
    var s := BothPlay(c, seed, first);
    var n := OneReturns(c, seed, s, second);
    TheRun(c, seed, first, second);
    StaleIsUnreadable(StreamOf(s.streams, c.a.conn), [c.x.account, c.a.account, ""], [c.a.account, c.y.account, ""]);
  }

  lemma StaleIsUnreadable(stream: seq<Msg>, before: SlotTable, now: SlotTable)
    requires Directory(stream) == Some(before) && before[0] != now[0]
    ensures !Readable(stream + [Snapshot(now)])
  {
    var n := stream + [Snapshot(now)];
    assert n[..|stream|] == stream && n[|stream|].Snapshot?;
  }

  lemma TheRun(c: Cast, seed: Stream, first: Plan, second: Plan)
    ensures var s := Called(Hello(Rebuilt(Hello(Rebuilt(Opened(), seed), c.x, seed), seed), c.a, seed),
            Ticks([c.x, c.a], first));
            var gone := Called(Called(s, Purges(c.x.account)), Purges(c.a.account));
            CalledAllWithoutReset(Opened(), Return(c, seed, first, second))
            == Called(Hello(Rebuilt(Hello(Rebuilt(gone, seed), c.again, seed), seed), c.y, seed), Ticks([c.a], second))
  {
    hide Hello, Called, Rebuilt, CalledAllWithoutReset;
    var cs := Return(c, seed, first, second);
    var s := TheRunBegins(c, seed, first, second);
    var gone := Called(Called(s, Purges(c.x.account)), Purges(c.a.account));
    var one := Hello(Rebuilt(gone, seed), c.again, seed);
    NextCall(s, cs, 3);
    NextCall(Called(s, cs[3]), cs, 4);
    NextCall(gone, cs, 5);
    NextCall(one, cs, 6);
    NextCall(Hello(Rebuilt(one, seed), c.y, seed), cs, 7);
    NoCall(Called(Hello(Rebuilt(one, seed), c.y, seed), cs[7]), cs[8..]);
  }

  lemma TheRunBegins(c: Cast, seed: Stream, first: Plan, second: Plan) returns (s: ServiceState)
    ensures s == Called(Hello(Rebuilt(Hello(Rebuilt(Opened(), seed), c.x, seed), seed), c.a, seed),
            Ticks([c.x, c.a], first))
    ensures var cs := Return(c, seed, first, second);
            CalledAllWithoutReset(Opened(), cs) == CalledAllWithoutReset(s, cs[3..])
  {
    hide Hello, Called, Rebuilt, CalledAllWithoutReset;
    var cs := Return(c, seed, first, second);
    var one := Hello(Rebuilt(Opened(), seed), c.x, seed);
    var two := Hello(Rebuilt(one, seed), c.a, seed);
    s := Called(two, cs[2]);
    assert cs[0..] == cs;
    NextCall(Opened(), cs, 0);
    NextCall(one, cs, 1);
    NextCall(two, cs, 2);
  }

  lemma NextCall(s: ServiceState, cs: seq<Call>, i: nat)
    requires i < |cs|
    ensures CalledAllWithoutReset(s, cs[i..]) == CalledAllWithoutReset(CalledWithoutReset(s, cs[i]), cs[i+1..])
  {
    hide CalledWithoutReset;
    assert cs[i..][1..] == cs[i+1..];
  }

  lemma NoCall(s: ServiceState, cs: seq<Call>)
    requires cs == []
    ensures CalledAllWithoutReset(s, cs) == s
  {}
}
