/** The service over the building: who has been told whose slot is whose, one ordered stream per connection. */
module Ledger {
  import opened Wrappers
  import opened Draws
  import opened Levels
  import opened CommandLane
  import opened Soldier
  import opened World

  const STANDINGS_EVERY: nat := 20

  /** A frame as its reader sees it: the standings are the slot directory; a snapshot names slots, to be read by the
      directory of the moment it was built. */
  datatype Msg = Standings(directory: SlotTable) | Snapshot(named: SlotTable) | Greeting(seated: bool)

  datatype Out = Out(conn: string, msg: Msg)

  /** A socket in the room, and the account it was opened by. */
  datatype Member = Member(account: string, conn: string)

  type Built = l: Level | |l.sectors| > 0 witness Level([Sector(0, 0.0, 0.0, 5.0, 5.0, 0.0)], [])

  datatype Site = Site(level: Built, state: State)

  datatype ServiceState = ServiceState(site: Option<Site>, boarded: set<string>, published: int, streams: map<string,
      seq<Msg>>)

  function Opened(): ServiceState { ServiceState(None, {}, -1, map[]) }

  function StreamOf(streams: map<string, seq<Msg>>, conn: string): seq<Msg> {
    if conn in streams then streams[conn] else []
  }

  function Publish(streams: map<string, seq<Msg>>, o: Out): map<string, seq<Msg>> {
    streams[o.conn := StreamOf(streams, o.conn) + [o.msg]]
  }

  function PublishAll(streams: map<string, seq<Msg>>, out: seq<Out>): map<string, seq<Msg>>
    decreases |out|
  {
    if out == [] then streams else PublishAll(Publish(streams, out[0]), out[1..])
  }

  // ---- What reaches the service ----

  /** The building that stands, or a new one that nobody has been told about. */
  function Ensured(s: ServiceState, seed: Stream): ServiceState {
    GeneratedIsWellBuilt(seed);
    if s.site.Some? then s else s.(site := Some(Site(Generated(seed), Founded())), published := -1)
  }

  /** The building of a service that has one. */
  function SiteOf(s: ServiceState): Site
    requires s.site.Some?
  {
    s.site.value
  }

  function Hello(s: ServiceState, m: Member, seed: Stream): ServiceState {
    var e := Ensured(s, seed);
    var site := SiteOf(e);
    var n := Joined(site.level, site.state, m.account);
    var seated := m.account in n.people;
    e.(site := Some(site.(state := n)), boarded := if seated then e.boarded - {m.conn} else e.boarded,
       streams := Publish(e.streams, Out(m.conn, Greeting(seated))))
  }

  function Purged(s: ServiceState, account: string): ServiceState {
    if s.site.None? || account !in s.site.value.state.people then s
    else
      var n := Released(s.site.value.state, account);
      s.(site := if n.people == map[] then None else Some(s.site.value.(state := n)))
  }

  function Received(s: ServiceState, account: string, cmds: seq<Sent<Order>>): ServiceState {
    if s.site.None? then s else s.(site := Some(s.site.value.(state := Enqueued(s.site.value.state, account, cmds))))
  }

  // ---- One tick ----

  /** What one connection is sent: the directory when one is due to everybody or it has never had one, then its
      snapshot. */
  function FramesFor(conn: string, table: SlotTable, due: bool, boarded: set<string>): seq<Out> {
    (if due || conn !in boarded then [Out(conn, Standings(table))] else []) + [Out(conn, Snapshot(table))]
  }

  function OutAll(conns: seq<Member>, w: State, due: bool, boarded: set<string>): seq<Out>
    decreases |conns|
  {
    if conns == [] then []
    else
      (if conns[0].account in w.people then FramesFor(conns[0].conn, w.slots, due, boarded) else [])
      + OutAll(conns[1..], w, due, boarded)
  }

  /** The connections of the people in the building. */
  function Served(conns: seq<Member>, w: State): set<string> {
    set m | m in conns && m.account in w.people :: m.conn
  }

  function Due(w: State, published: int): bool { w.tick % STANDINGS_EVERY == 0 || w.roster != published }

  function Stepped(s: ServiceState, conns: seq<Member>, plan: Plan): ServiceState {
    if s.site.None? || s.site.value.state.people == map[] then s.(boarded := {})
    else
      var w := Advanced(s.site.value.level, s.site.value.state, plan);
      var due := Due(w, s.published);
      ServiceState(if w.people == map[] then None else Some(s.site.value.(state := w)),
        Served(conns, w), if due then w.roster else s.published,
        PublishAll(s.streams, OutAll(conns, w, due, s.boarded)))
  }

  /** What happens to the service. Sockets open and close by appearing in a tick's list of members or not. */
  datatype Call =
    | Greets(m: Member, seed: Stream)
    | Fetches(seed: Stream)
    | Purges(account: string)
    | Sends(account: string, cmds: seq<Sent<Order>>)
    | Ticks(conns: seq<Member>, plan: Plan)

  function Called(s: ServiceState, c: Call): ServiceState {
    match c
    case Greets(m, seed) => Hello(s, m, seed)
    case Fetches(seed) => Ensured(s, seed)
    case Purges(account) => Purged(s, account)
    case Sends(account, cmds) => Received(s, account, cmds)
    case Ticks(conns, plan) => Stepped(s, conns, plan)
  }

  function CalledAll(s: ServiceState, cs: seq<Call>): ServiceState
    decreases |cs|
  {
    if cs == [] then s else CalledAll(Called(s, cs[0]), cs[1..])
  }

  // ---- The service as it runs ----

  class Service {
    var site: Option<Site>
    var boarded: set<string>
    var publishedRoster: int
    var streams: map<string, seq<Msg>>

    function Now(): ServiceState
      reads this
    {
      ServiceState(site, boarded, publishedRoster, streams)
    }

    constructor ()
      ensures Now() == Opened()
    {
      site, boarded, publishedRoster, streams := None, {}, -1, map[];
    }

    method EnsureWorld(seed: Stream)
      modifies this
      ensures Now() == Ensured(old(Now()), seed) && site.Some?
    {
      if site.Some? { return; }
      var l := Generate(seed);
      site := Some(Site(l, Founded()));
      publishedRoster := -1;
    }

    method OnHello(m: Member, seed: Stream)
      modifies this
      ensures Now() == Hello(old(Now()), m, seed)
    {
      hide Joined, Generated;
      EnsureWorld(seed);
      var n := Joined(site.value.level, site.value.state, m.account);
      var seated := m.account in n.people;
      site := Some(site.value.(state := n));
      if seated { boarded := boarded - {m.conn}; }
      streams := Publish(streams, Out(m.conn, Greeting(seated)));
    }

    method PurgeAccount(account: string)
      modifies this
      ensures Now() == Purged(old(Now()), account)
    {
      if site.None? { return; }
      if account !in site.value.state.people { return; }
      site := Some(site.value.(state := Released(site.value.state, account)));
      if site.value.state.people == map[] { site := None; }
    }

    method Step(conns: seq<Member>, plan: Plan)
      modifies this
      ensures Now() == Stepped(old(Now()), conns, plan)
    {
      hide Advanced, OutAll, PublishAll;
      if site.None? || site.value.state.people == map[] {
        boarded := {};
        return;
      }
      var w := Advanced(site.value.level, site.value.state, plan);
      site := if w.people == map[] then None else Some(site.value.(state := w));
      var due := w.tick % STANDINGS_EVERY == 0 || w.roster != publishedRoster;
      if due { publishedRoster := w.roster; }
      var out, now := CollectFrames(conns, w, due, boarded);
      boarded := now;
      for i := 0 to |out|
        invariant site == (if w.people == map[] then None else Some(old(site).value.(state := w)))
        invariant boarded == now && publishedRoster == if due then w.roster else old(publishedRoster)
        invariant PublishAll(streams, out[i..]) == PublishAll(old(streams), out)
      {
        PublishOne(streams, out[i..]);
        assert out[i..][1..] == out[i+1..];
        streams := Publish(streams, out[i]);
      }
      PublishNone(streams, out[|out|..]);
    }
  }

  lemma PublishOne(streams: map<string, seq<Msg>>, out: seq<Out>)
    requires out != []
    ensures PublishAll(streams, out) == PublishAll(Publish(streams, out[0]), out[1..])
  {}

  lemma PublishNone(streams: map<string, seq<Msg>>, out: seq<Out>)
    requires out == []
    ensures PublishAll(streams, out) == streams
  {}

  lemma ServedSnoc(conns: seq<Member>, m: Member, w: State)
    ensures Served(conns + [m], w) == Served(conns, w) + if m.account in w.people then {m.conn} else {}
  {}

  /** One pass over the members: the frames to queue, and the new ledger of who has been told. */
  method CollectFrames(conns: seq<Member>, w: State, due: bool, told: set<string>)
      returns (out: seq<Out>, now: set<string>)
    ensures out == OutAll(conns, w, due, told) && now == Served(conns, w)
  {
    hide Served, OutAll;
    out, now := [], {};
    ServedNobody(w);
    for i := 0 to |conns|
      invariant out + OutAll(conns[i..], w, due, told) == OutAll(conns, w, due, told)
      invariant now == Served(conns[..i], w)
    {
      var c := conns[i];
      assert conns[..i+1] == conns[..i] + [c];
      ServedSnoc(conns[..i], c, w);
      OutAllSplit(conns, i, w, due, told);
      if c.account in w.people {
        ghost var was, rest := out, OutAll(conns[i+1..], w, due, told);
        if due || c.conn !in told { out := out + [Out(c.conn, Standings(w.slots))]; }
        out := out + [Out(c.conn, Snapshot(w.slots))];
        assert out == was + FramesFor(c.conn, w.slots, due, told);
        Regroup(was, FramesFor(c.conn, w.slots, due, told), rest);
        now := now + {c.conn};
      }
    }
    assert conns[..|conns|] == conns;
    OutNone(conns[|conns|..], w, due, told);
  }

  lemma Regroup(a: seq<Out>, b: seq<Out>, c: seq<Out>)
    ensures a + (b + c) == (a + b) + c
  {}

  lemma OutAllSplit(conns: seq<Member>, i: nat, w: State, due: bool, told: set<string>)
    requires i < |conns|
    ensures var frames := if conns[i].account in w.people then FramesFor(conns[i].conn, w.slots, due, told) else [];
            OutAll(conns[i..], w, due, told) == frames + OutAll(conns[i+1..], w, due, told)
  {
    assert conns[i..][1..] == conns[i+1..];
  }

  lemma OutNone(conns: seq<Member>, w: State, due: bool, told: set<string>)
    requires conns == []
    ensures OutAll(conns, w, due, told) == []
  {}

  lemma ServedNobody(w: State)
    ensures Served([], w) == {}
  {}
}
