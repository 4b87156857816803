/**
 The authenticated TCP load holds of the probe server: connections up to a
 cap, a request line that may arrive in any pieces, idle timeouts, and the
 counters the server reports.
 */
module HoldServer {
  import opened Wire

  const MAX_REQUEST := 128
  const READY_LENGTH := 25
  const NEWLINE: byte := 0x0a
  const PREFIX: Bytes :=
    [0x58, 0x52, 0x41, 0x59, 0x2d, 0x4d, 0x45, 0x4d, 0x4f, 0x52, 0x59, 0x2d, 0x48, 0x4f, 0x4c, 0x44, 0x2f, 0x31, 0x20]

  /** 64 lowercase hexadecimal digits. */
  predicate IsToken(token: Bytes) {
    |token| == 64 && forall i :: 0 <= i < 64 ==> 0x30 <= token[i] <= 0x39 || 0x61 <= token[i] <= 0x66
  }

  datatype Config = Config(token: Bytes, cap: nat, idle: real) {
    predicate Valid() {
      IsToken(token)
    }

    function Expected(): Bytes {
      PREFIX + token + [NEWLINE]
    }
  }

  datatype Client = Client(deadline: real, request: Bytes, authenticated: bool)

  datatype Reason = Capacity | UnexpectedData | TooLong | Authentication | ShortReadyWrite | IdleTimeout

  datatype Outcome = Waiting | Closed | Rejected(reason: Reason) | Accepted

  datatype Server = Server(clients: map<int, Client>, accepted: nat, rejected: nat, peak: nat)

  /** What the event loop sees: a connection, data (none when the peer closed) together with what
      sending the ready line would return, and the sweep at the end of a turn. */
  datatype Event =
    | Connect(fd: int, now: real)
    | Data(fd: int, chunk: Bytes, now: real, sent: int)
    | Sweep(now: real)

  const START := Server(map[], 0, 0, 0)

  function Authenticated(clients: map<int, Client>): set<int> {
    set fd | fd in clients && clients[fd].authenticated
  }

  function Expired(clients: map<int, Client>, now: real): set<int> {
    set fd | fd in clients && clients[fd].deadline <= now
  }

  function Max(a: nat, b: nat): nat {
    if a < b then b else a
  }

  // ---- One event

  /** What the server makes of a chunk from a client. */
  function Judge(c: Config, client: Client, chunk: Bytes, sent: int): Outcome {
    var request := client.request + chunk;
    if chunk == [] then Closed
    else if client.authenticated then Rejected(UnexpectedData)
    else if |request| > MAX_REQUEST then Rejected(TooLong)
    else if NEWLINE !in request then Waiting
    else if request != c.Expected() then Rejected(Authentication)
    else if sent != READY_LENGTH then Rejected(ShortReadyWrite)
    else Accepted
  }

  function OnConnect(c: Config, s: Server, fd: int, now: real): Server {
    if |s.clients| >= c.cap then s.(rejected := s.rejected + 1)
    else s.(clients := s.clients[fd := Client(now + c.idle, [], false)])
  }

  function OnData(c: Config, s: Server, fd: int, chunk: Bytes, now: real, sent: int): Server
    requires fd in s.clients
  {
    var client := s.clients[fd];
    var heard := Client(now + c.idle, client.request + chunk, client.authenticated);
    match Judge(c, client, chunk, sent)
    case Closed => s.(clients := s.clients - {fd})
    case Rejected(_) => s.(clients := s.clients - {fd}, rejected := s.rejected + 1)
    case Waiting => s.(clients := s.clients[fd := heard])
    case Accepted =>
      var clients := s.clients[fd := heard.(authenticated := true)];
      s.(clients := clients, accepted := s.accepted + 1, peak := Max(s.peak, |Authenticated(clients)|))
  }

  function OnSweep(s: Server, now: real): Server {
    var expired := Expired(s.clients, now);
    s.(clients := s.clients - expired, rejected := s.rejected + |expired|)
  }

  /** The operating system hands out a descriptor that is not open, reads at most one byte more than
      the limit, and only from open descriptors. */
  predicate Possible(s: Server, e: Event) {
    match e
    case Connect(fd, _) => fd !in s.clients
    case Data(fd, chunk, _, _) => fd in s.clients && |chunk| <= MAX_REQUEST + 1
    case Sweep(_) => true
  }

  function Step(c: Config, s: Server, e: Event): Server
    requires Possible(s, e)
  {
    match e
    case Connect(fd, now) => OnConnect(c, s, fd, now)
    case Data(fd, chunk, now, sent) => OnData(c, s, fd, chunk, now, sent)
    case Sweep(now) => OnSweep(s, now)
  }

  // ---- Runs and what they say

  /** A run is the events so far, each possible where it happened. */
  ghost predicate IsRun(c: Config, events: seq<Event>)
    decreases |events|, 0
  {
    events == [] || (IsRun(c, Before(events)) && Possible(After(c, Before(events)), events[|events| - 1]))
  }

  function Before(events: seq<Event>): (r: seq<Event>)
    requires events != []
    ensures |r| < |events|
  {
    events[..|events| - 1]
  }

  ghost function After(c: Config, events: seq<Event>): Server
    requires IsRun(c, events)
    decreases |events|, 1
  {
    if events == [] then START else Step(c, After(c, Before(events)), events[|events| - 1])
  }

  /** Everything read from a descriptor since its connection, piece after piece. */
  function Received(events: seq<Event>, fd: int): Bytes
    decreases |events|
  {
    if events == [] then []
    else
      match events[|events| - 1]
      case Connect(f, _) => if f == fd then [] else Received(Before(events), fd)
      case Data(f, chunk, _, _) => Received(Before(events), fd) + (if f == fd then chunk else [])
      case Sweep(_) => Received(Before(events), fd)
  }

  /** When the descriptor last connected or had something to read. */
  function LastHeard(events: seq<Event>, fd: int): real
    decreases |events|
  {
    if events == [] then 0.0
    else
      match events[|events| - 1]
      case Connect(f, now) => if f == fd then now else LastHeard(Before(events), fd)
      case Data(f, _, now, _) => if f == fd then now else LastHeard(Before(events), fd)
      case Sweep(_) => LastHeard(Before(events), fd)
  }

  /** The most clients that were authenticated at one time. */
  ghost function MostHeld(c: Config, events: seq<Event>): nat
    requires IsRun(c, events)
    decreases |events|
  {
    if events == [] then 0
    else Max(MostHeld(c, Before(events)), |Authenticated(After(c, events).clients)|)
  }

  function Connections(events: seq<Event>): nat
    decreases |events|
  {
    if events == [] then 0
    else Connections(Before(events)) + (if events[|events| - 1].Connect? then 1 else 0)
  }

  function Hangups(events: seq<Event>): nat
    decreases |events|
  {
    if events == [] then 0
    else
      var e := events[|events| - 1];
      Hangups(Before(events)) + (if e.Data? && e.chunk == [] then 1 else 0)
  }

  // ---- Safety of every reachable state

  /** What the server may hold for a descriptor: everything received since it connected, which is
      exactly the expected line if it is authenticated, and otherwise a short part of a line. */
  ghost predicate ClientOk(c: Config, events: seq<Event>, fd: int, client: Client) {
    && client.request == Received(events, fd)
    && client.deadline == LastHeard(events, fd) + c.idle
    && (if client.authenticated then client.request == c.Expected()
        else NEWLINE !in client.request && |client.request| <= MAX_REQUEST)
  }

  ghost predicate Safe(c: Config, events: seq<Event>, s: Server) {
    && |s.clients| <= c.cap
    && forall fd :: fd in s.clients ==> ClientOk(c, events, fd, s.clients[fd])
  }

  lemma FewerClients(s: map<int, Client>, gone: set<int>)
    requires gone <= s.Keys
    ensures |s - gone| == |s| - |gone|
  {
    assert (s - gone).Keys == s.Keys - gone;
    assert |s.Keys - gone| == |s.Keys| - |gone|;
    assert |s| == |s.Keys| && |s - gone| == |(s - gone).Keys|;
  }

  lemma OneMore(s: map<int, Client>, fd: int, client: Client)
    ensures |s[fd := client]| == if fd in s then |s| else |s| + 1
  {
    assert s[fd := client].Keys == s.Keys + {fd};
    assert |s| == |s.Keys| && |s[fd := client]| == |s[fd := client].Keys|;
  }

  // Clients the event is not about are as they were.
  lemma OthersOk(c: Config, events: seq<Event>, fd: int, client: Client)
    requires events != [] && ClientOk(c, Before(events), fd, client)
    requires events[|events| - 1].Sweep? || events[|events| - 1].fd != fd
    ensures ClientOk(c, events, fd, client)
  {
    assert Received(Before(events), fd) + [] == Received(Before(events), fd);
  }

  // The client the event is about.
  lemma OwnOk(c: Config, events: seq<Event>, s: Server)
    requires events != [] && Safe(c, Before(events), s) && Possible(s, events[|events| - 1])
    requires !events[|events| - 1].Sweep?
    ensures var e := events[|events| - 1]; var t := Step(c, s, e);
            e.fd in t.clients ==> ClientOk(c, events, e.fd, t.clients[e.fd])
  {
    var e := events[|events| - 1];
    if e.Data? {
      assert ClientOk(c, Before(events), e.fd, s.clients[e.fd]);
    }
  }

  lemma CapKept(c: Config, s: Server, e: Event)
    requires Possible(s, e) && |s.clients| <= c.cap
    ensures |Step(c, s, e).clients| <= c.cap
  {
    match e
    case Connect(fd, now) => OneMore(s.clients, fd, Client(now + c.idle, [], false));
    case Data(fd, _, _, _) =>
      FewerClients(s.clients, {fd});
      var t := Step(c, s, e);
      if fd in t.clients {
        OneMore(s.clients, fd, t.clients[fd]);
        assert t.clients == s.clients[fd := t.clients[fd]];
      }
    case Sweep(now) => FewerClients(s.clients, Expired(s.clients, now));
  }

  lemma OthersKept(c: Config, s: Server, e: Event, fd: int)
    requires Possible(s, e) && (e.Sweep? || e.fd != fd) && fd in Step(c, s, e).clients
    ensures fd in s.clients && Step(c, s, e).clients[fd] == s.clients[fd]
  {
  }

  lemma SafeStep(c: Config, events: seq<Event>, s: Server)
    requires events != [] && Safe(c, Before(events), s) && Possible(s, events[|events| - 1])
    ensures Safe(c, events, Step(c, s, events[|events| - 1]))
  {
    var e := events[|events| - 1];
    var t := Step(c, s, e);
    CapKept(c, s, e);
    if !e.Sweep? {
      OwnOk(c, events, s);
    }
    hide Step, ClientOk;
    forall fd | fd in t.clients
      ensures ClientOk(c, events, fd, t.clients[fd])
    {
      if e.Sweep? || e.fd != fd {
        OthersKept(c, s, e, fd);
        OthersOk(c, events, fd, s.clients[fd]);
      }
    }
  }

  /** In every reachable state the cap is kept and every client is what its bytes say. */
  lemma {:induction false} EveryStateSafe(c: Config, events: seq<Event>)
    requires IsRun(c, events)
    ensures Safe(c, events, After(c, events))
    decreases |events|
  {
    if events != [] {
      EveryStateSafe(c, Before(events));
      SafeStep(c, events, After(c, Before(events)));
    }
  }

  // ---- Counters

  lemma HeldStep(c: Config, s: Server, e: Event)
    requires Possible(s, e)
    ensures var t := Step(c, s, e);
            t.peak == Max(s.peak, |Authenticated(t.clients)|) ||
            (t.peak == s.peak && Authenticated(t.clients) <= Authenticated(s.clients))
  {
  }

  /** The reported peak is the most clients ever authenticated at once. */
  lemma {:induction false} PeakIsMostHeld(c: Config, events: seq<Event>)
    requires IsRun(c, events)
    ensures After(c, events).peak == MostHeld(c, events)
    ensures |Authenticated(After(c, events).clients)| <= After(c, events).peak
    decreases |events|
  {
    if events != [] {
      var s, e := After(c, Before(events)), events[|events| - 1];
      PeakIsMostHeld(c, Before(events));
      HeldStep(c, s, e);
      var t := Step(c, s, e);
      if Authenticated(t.clients) <= Authenticated(s.clients) {
        Smaller(Authenticated(t.clients), Authenticated(s.clients));
      }
    }
  }

  lemma Smaller(a: set<int>, b: set<int>)
    requires a <= b
    ensures |a| <= |b|
  {
    assert b == a + (b - a);
  }

  lemma HeldAtMostAccepted(c: Config, s: Server, e: Event)
    requires Possible(s, e)
    ensures var t := Step(c, s, e);
            |Authenticated(t.clients)| - |Authenticated(s.clients)| <= t.accepted - s.accepted
  {
    var t := Step(c, s, e);
    var mine := if e.Sweep? then {} else {e.fd};
    if t.accepted == s.accepted {
      Smaller(Authenticated(t.clients), Authenticated(s.clients));
    } else {
      Smaller(Authenticated(t.clients), Authenticated(s.clients) + mine);
    }
  }

  /** No more are ever held at once than were accepted in all. */
  lemma {:induction false} PeakAtMostAccepted(c: Config, events: seq<Event>)
    requires IsRun(c, events)
    ensures var s := After(c, events); |Authenticated(s.clients)| <= s.peak <= s.accepted
    ensures events != [] ==> After(c, Before(events)).accepted <= After(c, events).accepted
    decreases |events|
  {
    PeakIsMostHeld(c, events);
    if events != [] {
      var s, e := After(c, Before(events)), events[|events| - 1];
      PeakAtMostAccepted(c, Before(events));
      HeldAtMostAccepted(c, s, e);
      HeldStep(c, s, e);
    }
  }

  lemma ConservedStep(c: Config, s: Server, e: Event)
    requires Possible(s, e)
    ensures var t := Step(c, s, e);
            |t.clients| + t.rejected + (if e.Data? && e.chunk == [] then 1 else 0) ==
            |s.clients| + s.rejected + (if e.Connect? then 1 else 0)
  {
    match e
    case Connect(fd, now) => OneMore(s.clients, fd, Client(now + c.idle, [], false));
    case Data(fd, _, _, _) =>
      FewerClients(s.clients, {fd});
      var t := Step(c, s, e);
      if fd in t.clients {
        OneMore(s.clients, fd, t.clients[fd]);
        assert t.clients == s.clients[fd := t.clients[fd]];
      }
    case Sweep(now) => FewerClients(s.clients, Expired(s.clients, now));
  }

  /** Every connection is held, was rejected and counted, or was closed by its peer. */
  lemma {:induction false} ConnectionsConserved(c: Config, events: seq<Event>)
    requires IsRun(c, events)
    ensures var s := After(c, events); Connections(events) == |s.clients| + s.rejected + Hangups(events)
    decreases |events|
  {
    if events != [] {
      ConnectionsConserved(c, Before(events));
      ConservedStep(c, After(c, Before(events)), events[|events| - 1]);
    }
  }

  /** After a sweep nobody is left who was last heard from more than the idle time ago. */
  lemma SweepLeavesRecent(c: Config, events: seq<Event>, now: real, fd: int)
    requires IsRun(c, events) && fd in OnSweep(After(c, events), now).clients
    ensures now < LastHeard(events, fd) + c.idle
  {
    EveryStateSafe(c, events);
    assert fd in After(c, events).clients;
  }

  /** Under any chunking: a client whose pieces so far make up the expected line, read before any
      sweep ends it, becomes authenticated with the piece that completes the line. */
  lemma LineAuthenticates(c: Config, events: seq<Event>, fd: int, chunk: Bytes, sent: int)
    requires c.Valid() && IsRun(c, events) && fd in After(c, events).clients && chunk != []
    requires Received(events, fd) + chunk == c.Expected()
    ensures Judge(c, After(c, events).clients[fd], chunk, sent) ==
            if sent == READY_LENGTH then Accepted else Rejected(ShortReadyWrite)
  {
    EveryStateSafe(c, events);
    assert ClientOk(c, events, fd, After(c, events).clients[fd]);
    assert c.Expected()[83] == NEWLINE;
  }

  // ---- The server's mutable state

  /** The client table and counters of the serving loop. */
  class LoadServer {
    const config: Config
    var clients: map<int, Client>
    var accepted: nat
    var rejected: nat
    var peak: nat

    ghost function State(): Server
      reads this
    {
      Server(clients, accepted, rejected, peak)
    }

    constructor (config: Config)
      ensures this.config == config && State() == START
    {
      this.config := config;
      clients, accepted, rejected, peak := map[], 0, 0, 0;
    }

    // reject and close_load_client
    method Reject(fd: int)
      requires fd in clients
      modifies this
      ensures State() == old(State()).(clients := old(clients) - {fd}, rejected := old(rejected) + 1)
    {
      rejected := rejected + 1;
      clients := clients - {fd};
    }

    method OnConnection(fd: int, now: real) returns (outcome: Outcome)
      requires Possible(State(), Connect(fd, now))
      modifies this
      ensures State() == OnConnect(config, old(State()), fd, now)
      ensures outcome == if |old(clients)| >= config.cap then Rejected(Capacity) else Waiting
    {
      if |clients| >= config.cap {
        rejected := rejected + 1;
        return Rejected(Capacity);
      }
      clients := clients[fd := Client(now + config.idle, [], false)];
      outcome := Waiting;
    }

    method OnReadable(fd: int, chunk: Bytes, now: real, sent: int) returns (outcome: Outcome)
      requires Possible(State(), Data(fd, chunk, now, sent))
      modifies this
      ensures State() == OnData(config, old(State()), fd, chunk, now, sent)
      ensures outcome == Judge(config, old(clients)[fd], chunk, sent)
    {
      hide Config.Expected, Authenticated;
      var client := clients[fd];
      if chunk == [] {
        clients := clients - {fd};
        return Closed;
      }
      if client.authenticated {
        Reject(fd);
        return Rejected(UnexpectedData);
      }
      client := Client(now + config.idle, client.request + chunk, false);
      if |client.request| > MAX_REQUEST {
        Reject(fd);
        return Rejected(TooLong);
      }
      if NEWLINE !in client.request {
        clients := clients[fd := client];
        return Waiting;
      }
      if client.request != config.Expected() {
        Reject(fd);
        return Rejected(Authentication);
      }
      if sent != READY_LENGTH {
        Reject(fd);
        return Rejected(ShortReadyWrite);
      }
      clients := clients[fd := client.(authenticated := true)];
      accepted := accepted + 1;
      peak := Max(peak, |Authenticated(clients)|);
      outcome := Accepted;
    }

    // The sweep visits the clients in the order the table lists them.
    method SweepIdle(order: seq<int>, now: real)
      requires Lists(order, clients)
      modifies this
      ensures State() == OnSweep(old(State()), now)
    {
      ghost var was := clients;
      for i := 0 to |order|
        invariant clients == was - Expired(was, now) * Visited(order, i)
        invariant rejected == old(rejected) + |Expired(was, now) * Visited(order, i)|
        invariant accepted == old(accepted) && peak == old(peak)
      {
        VisitNext(order, was, now, i);
        hide Expired, Visited, Lists;
        if clients[order[i]].deadline <= now {
          Reject(order[i]);
        }
      }
      AllVisited(order, was, now);
    }
  }

  ghost predicate Lists(order: seq<int>, clients: map<int, Client>) {
    && (forall i, j :: 0 <= i < j < |order| ==> order[i] != order[j])
    && (forall fd :: fd in order <==> fd in clients)
  }

  ghost function Visited(order: seq<int>, n: nat): set<int>
    requires n <= |order|
  {
    set fd | fd in order[..n]
  }

  lemma VisitNext(order: seq<int>, clients: map<int, Client>, now: real, i: nat)
    requires Lists(order, clients) && i < |order|
    ensures var fd, gone := order[i], Expired(clients, now) * Visited(order, i);
            && fd in clients && fd in clients - gone && fd !in gone
            && Expired(clients, now) * Visited(order, i + 1) ==
               (if clients[fd].deadline <= now then gone + {fd} else gone)
            && clients - gone - {fd} == clients - (gone + {fd})
  {
    assert order[..i + 1] == order[..i] + [order[i]];
    assert order[i] in order;
    assert Visited(order, i + 1) == Visited(order, i) + {order[i]};
  }

  lemma AllVisited(order: seq<int>, clients: map<int, Client>, now: real)
    requires Lists(order, clients)
    ensures Expired(clients, now) * Visited(order, |order|) == Expired(clients, now)
  {
    assert order[..|order|] == order;
    forall fd | fd in Expired(clients, now)
      ensures fd in Visited(order, |order|)
    {
      assert fd in order;
    }
  }
}
