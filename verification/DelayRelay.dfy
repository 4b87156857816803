/**
 The UDP delay relay: a queue ordered by due time, per-direction pacing, a
 byte cap and counters. Clock readings and arrivals are inputs; times are
 reals. The heap is modelled by the order in which it yields its entries.
 */
module DelayRelay {
  import opened Options

  type Address = nat

  /** A datagram in the queue. `fromServer` is its direction, `arrived` the clock reading at admission. */
  datatype Entry = Entry(due: real, sequence: nat, size: nat, target: Address, fromServer: bool, arrived: real)

  const CAP: nat := 32 * 1024 * 1024

  datatype Settings = Settings(server: Address, delay: real, rate: real) {
    predicate Valid() { delay >= 0.0 && rate > 0.0 }
  }

  /** What the relay's thread may stop on: a sendto that raises, a datagram from a second client
      endpoint, or a recvfrom that raises anything but a timeout. */
  datatype Cause = SendFailed | SecondClient | ReceiveFailed

  datatype State = State(
    queue: seq<Entry>, client: Option<Address>, queued: int, sequence: nat,
    nextFromServer: real, nextFromClient: real,
    received: nat, forwarded: nat, dropped: nat, peak: int, error: Option<Cause>)

  const Idle := State([], None, 0, 0, 0.0, 0.0, 0, 0, 0, 0, None)

  // Tuple order of the heap: due time, then admission number.
  predicate Before(a: Entry, b: Entry) {
    a.due < b.due || (a.due == b.due && a.sequence < b.sequence)
  }

  function Insert(queue: seq<Entry>, e: Entry): seq<Entry> {
    if queue == [] then [e]
    else if Before(e, queue[0]) then [e] + queue
    else [queue[0]] + Insert(queue[1..], e)
  }

  function TotalSize(entries: seq<Entry>): nat {
    if entries == [] then 0 else entries[0].size + TotalSize(entries[1..])
  }

  function NextSend(s: State, fromServer: bool): real {
    if fromServer then s.nextFromServer else s.nextFromClient
  }

  function Max(a: real, b: real): real {
    if a < b then b else a
  }

  /** The sending loop at clock reading `now`, in which sendto raises after `succeed` datagrams.
      Returns what was sent. */
  function SendDue(s: State, now: real, succeed: nat): (State, seq<Entry>)
    decreases |s.queue|
  {
    if s.queue == [] || s.queue[0].due > now then (s, []) else
    var e := s.queue[0];
    var popped := s.(queue := s.queue[1..], queued := s.queued - e.size);
    if succeed == 0 then (popped.(error := Some(SendFailed)), []) else
    var (s', sent) := SendDue(popped.(forwarded := s.forwarded + 1), now, succeed - 1);
    (s', [e] + sent)
  }

  /** A datagram of `size` bytes from `address`, taken off the socket at clock reading `at`. */
  datatype Arrival = Arrival(address: Address, size: nat, at: real)

  function Due(cfg: Settings, s: State, a: Arrival): real
    requires cfg.Valid()
  {
    Max(a.at, NextSend(s, a.address == cfg.server)) + a.size as real / cfg.rate
  }

  function Accept(cfg: Settings, s: State, a: Arrival): (State, Option<Entry>)
    requires cfg.Valid()
  {
    var fromServer := a.address == cfg.server;
    var s := s.(received := s.received + 1);
    if !fromServer && s.client.Some? && s.client.value != a.address then (s.(error := Some(SecondClient)), None) else
    var target := if fromServer then s.client else Some(cfg.server);
    var s := if fromServer then s else s.(client := Some(a.address));
    if target.None? || s.queued + a.size > CAP then (s.(dropped := s.dropped + 1), None) else
    var next := Due(cfg, s, a);
    var e := Entry(next + cfg.delay, s.sequence + 1, a.size, target.value, fromServer, a.at);
    var queued := s.queued + a.size;
    (s.(sequence := s.sequence + 1, queue := Insert(s.queue, e), queued := queued,
        nextFromServer := if fromServer then next else s.nextFromServer,
        nextFromClient := if fromServer then s.nextFromClient else next,
        peak := if s.peak < queued then queued else s.peak),
     Some(e))
  }

  // ---- Runs

  // What recvfrom does: time out, return a datagram, or raise.
  datatype Input = Quiet | Datagram(arrival: Arrival) | Failure

  /** One turn of the relay's loop: a clock reading, how many sends succeed, and what recvfrom does. */
  datatype Turn = Turn(now: real, succeed: nat, input: Input)

  datatype Sent = Sent(entry: Entry, at: real)

  /** The relay with everything it has admitted and sent, in order. */
  datatype World = World(s: State, admitted: seq<Entry>, sent: seq<Sent>)

  function Stamp(entries: seq<Entry>, at: real): seq<Sent> {
    seq(|entries|, i requires 0 <= i < |entries| => Sent(entries[i], at))
  }

  function Step(cfg: Settings, w: World, turn: Turn): World
    requires cfg.Valid()
  {
    if w.s.error.Some? then w else
    var (s, sent) := SendDue(w.s, turn.now, turn.succeed);
    var w := World(s, w.admitted, w.sent + Stamp(sent, turn.now));
    if s.error.Some? then w else
    match turn.input
    case Quiet => w
    case Failure => w.(s := s.(error := Some(ReceiveFailed)))
    case Datagram(a) =>
      var (s', e) := Accept(cfg, s, a);
      World(s', w.admitted + (if e.Some? then [e.value] else []), w.sent)
  }

  function Run(cfg: Settings, turns: seq<Turn>): World
    requires cfg.Valid()
  {
    if turns == [] then World(Idle, [], []) else Step(cfg, Run(cfg, turns[..|turns| - 1]), turns[|turns| - 1])
  }

  // The largest number of queued bytes at any loop head so far.
  function HighWater(cfg: Settings, turns: seq<Turn>): int
    requires cfg.Valid()
  {
    var here := Run(cfg, turns).s.queued;
    if turns == [] then here else
    var before := HighWater(cfg, turns[..|turns| - 1]);
    if before < here then here else before
  }

  // ---- Counters and bytes

  predicate Sorted(queue: seq<Entry>) {
    forall i, j :: 0 <= i < j < |queue| ==> Before(queue[i], queue[j])
  }

  /** Datagrams the counters lose sight of: the one in hand when a send or a second client stops
      the relay. A failing recvfrom has none in hand. */
  function Lost(error: Option<Cause>): nat {
    if error == Some(SendFailed) || error == Some(SecondClient) then 1 else 0
  }

  ghost predicate Counted(s: State) {
    && s.received == s.forwarded + s.dropped + |s.queue| + Lost(s.error)
    && s.queued == TotalSize(s.queue) <= CAP
    && s.queued <= s.peak
  }

  lemma {:induction false} InsertCounts(queue: seq<Entry>, e: Entry)
    ensures |Insert(queue, e)| == |queue| + 1 && TotalSize(Insert(queue, e)) == TotalSize(queue) + e.size
    ensures multiset(Insert(queue, e)) == multiset(queue) + multiset{e}
  {
    if queue != [] {
      assert queue == [queue[0]] + queue[1..];
      if Before(e, queue[0]) {
        assert ([e] + queue)[1..] == queue;
      } else {
        InsertCounts(queue[1..], e);
        assert ([queue[0]] + Insert(queue[1..], e))[1..] == Insert(queue[1..], e);
      }
    }
  }

  lemma {:induction false} SendDueCounts(s: State, now: real, succeed: nat)
    requires Counted(s) && s.error.None?
    ensures var s' := SendDue(s, now, succeed).0;
            Counted(s') && s'.peak == s.peak && s'.queued <= s.queued
    decreases |s.queue|
  {
    if s.queue != [] && s.queue[0].due <= now && succeed > 0 {
      SendDueCounts(s.(queue := s.queue[1..], queued := s.queued - s.queue[0].size, forwarded := s.forwarded + 1),
                    now, succeed - 1);
    }
  }

  lemma {:induction false} SendDueFrame(s: State, now: real, succeed: nat)
    requires s.error.None?
    ensures var s' := SendDue(s, now, succeed).0;
            && s' == s.(queue := s'.queue, queued := s'.queued, forwarded := s'.forwarded, error := s'.error)
            && (s'.error.Some? ==> s'.error == Some(SendFailed))
    decreases |s.queue|
  {
    if s.queue != [] && s.queue[0].due <= now && succeed > 0 {
      SendDueFrame(s.(queue := s.queue[1..], queued := s.queued - s.queue[0].size, forwarded := s.forwarded + 1),
                   now, succeed - 1);
    }
  }

  lemma {:induction false} SendDueFront(s: State, now: real, succeed: nat)
    requires s.error.None?
    ensures var (s', sent) := SendDue(s, now, succeed);
            var taken := |sent| + (if s'.error.Some? then 1 else 0);
            && taken <= |s.queue| && sent == s.queue[..|sent|] && s'.queue == s.queue[taken..]
            && forall i :: 0 <= i < |sent| ==> sent[i].due <= now
    decreases |s.queue|
  {
    if s.queue != [] && s.queue[0].due <= now && succeed > 0 {
      var e, rest := s.queue[0], s.queue[1..];
      var next := s.(queue := rest, queued := s.queued - e.size, forwarded := s.forwarded + 1);
      SendDueFront(next, now, succeed - 1);
      var more := SendDue(next, now, succeed - 1).1;
      assert [e] + rest[..|more|] == s.queue[..|more| + 1];
    }
  }

  // What is sent is the front of the queue; a failing send loses the datagram it had taken off.
  lemma SendDueTakesFront(s: State, now: real, succeed: nat)
    requires s.error.None?
    ensures var (s', sent) := SendDue(s, now, succeed);
            var taken := |sent| + (if s'.error.Some? then 1 else 0);
            && s' == s.(queue := s'.queue, queued := s'.queued, forwarded := s'.forwarded, error := s'.error)
            && taken <= |s.queue| && sent == s.queue[..|sent|] && s'.queue == s.queue[taken..]
            && (s'.error.Some? ==> s'.error == Some(SendFailed))
            && forall i :: 0 <= i < |sent| ==> sent[i].due <= now
  {
    hide SendDue;
    SendDueFrame(s, now, succeed);
    SendDueFront(s, now, succeed);
  }

  lemma AcceptCounts(cfg: Settings, s: State, a: Arrival)
    requires cfg.Valid() && Counted(s) && s.error.None?
    ensures var (s', e) := Accept(cfg, s, a);
            && Counted(s') && s'.peak == (if s.peak < s'.queued then s'.queued else s.peak)
  {
    var (s', e) := Accept(cfg, s, a);
    if e.Some? { InsertCounts(s.queue, e.value); }
  }

  /** At every loop head each received datagram is forwarded, dropped, queued or the one lost when
      the relay stopped, the queued bytes are those of the queue and never exceed the cap, and the
      reported peak is the historical maximum. */
  lemma {:induction false} RelayConserves(cfg: Settings, turns: seq<Turn>)
    requires cfg.Valid()
    ensures var s := Run(cfg, turns).s;
            && s.received == s.forwarded + s.dropped + |s.queue| + Lost(s.error)
            && s.queued == TotalSize(s.queue) <= CAP
            && s.peak == HighWater(cfg, turns)
  {
    CountersHold(cfg, turns);
  }

  lemma {:induction false} CountersHold(cfg: Settings, turns: seq<Turn>)
    requires cfg.Valid()
    ensures Counted(Run(cfg, turns).s) && Run(cfg, turns).s.peak == HighWater(cfg, turns)
  {
    hide SendDue, Accept;
    if turns != [] {
      var w, turn := Run(cfg, turns[..|turns| - 1]), turns[|turns| - 1];
      CountersHold(cfg, turns[..|turns| - 1]);
      if w.s.error.None? {
        SendDueCounts(w.s, turn.now, turn.succeed);
        var s := SendDue(w.s, turn.now, turn.succeed).0;
        if s.error.None? && turn.input.Datagram? { AcceptCounts(cfg, s, turn.input.arrival); }
      }
    }
  }

  // ---- Order and pacing, one direction at a time

  function Direction(entries: seq<Entry>, fromServer: bool): seq<Entry> {
    if entries == [] then [] else
    (if entries[0].fromServer == fromServer then [entries[0]] else []) + Direction(entries[1..], fromServer)
  }

  function Entries(sent: seq<Sent>): seq<Entry> {
    seq(|sent|, i requires 0 <= i < |sent| => sent[i].entry)
  }

  lemma {:induction false} DirectionConcat(a: seq<Entry>, b: seq<Entry>, d: bool)
    ensures Direction(a + b, d) == Direction(a, d) + Direction(b, d)
  {
    if a == [] {
      assert a + b == b;
    } else {
      var others := a[1..];
      DirectionConcat(others, b, d);
      assert (a + b)[0] == a[0] && (a + b)[1..] == others + b;
      var first := if a[0].fromServer == d then [a[0]] else [];
      assert first + (Direction(others, d) + Direction(b, d)) == (first + Direction(others, d)) + Direction(b, d);
    }
  }

  lemma {:induction false} DirectionAbsent(queue: seq<Entry>, d: bool)
    requires forall i :: 0 <= i < |queue| ==> queue[i].fromServer != d
    ensures Direction(queue, d) == []
  {
    if queue != [] { DirectionAbsent(queue[1..], d); }
  }

  lemma {:induction false} InsertMembers(queue: seq<Entry>, e: Entry)
    ensures forall x :: x in Insert(queue, e) <==> x in queue || x == e
  {
    if queue != [] {
      assert forall x :: x in queue <==> x == queue[0] || x in queue[1..];
      if !Before(e, queue[0]) { InsertMembers(queue[1..], e); }
    }
  }

  lemma {:induction false} InsertSorts(queue: seq<Entry>, e: Entry)
    requires Sorted(queue) && forall x :: x in queue ==> x.sequence != e.sequence
    ensures Sorted(Insert(queue, e))
  {
    if queue != [] && !Before(e, queue[0]) {
      var more := Insert(queue[1..], e);
      InsertSorts(queue[1..], e);
      InsertMembers(queue[1..], e);
      forall j | 0 <= j < |more| ensures Before(queue[0], more[j]) {
        assert more[j] in more;
        if more[j] != e {
          var k :| 0 <= k < |queue[1..]| && queue[1..][k] == more[j];
          assert queue[k + 1] == more[j];
        } else {
          assert queue[0] in queue;
        }
      }
    }
  }

  // An entry behind all of its own direction goes to the end of that direction.
  lemma {:induction false} InsertLast(queue: seq<Entry>, e: Entry, d: bool)
    requires Sorted(queue)
    requires forall x :: x in queue && x.fromServer == e.fromServer ==> Before(x, e)
    ensures Direction(Insert(queue, e), d) == Direction(queue, d) + (if e.fromServer == d then [e] else [])
  {
    if queue == [] {
      assert [e][1..] == [];
    } else if Before(e, queue[0]) {
      assert ([e] + queue)[0] == e && ([e] + queue)[1..] == queue;
      if e.fromServer == d {
        forall i | 0 <= i < |queue| ensures queue[i].fromServer != d {
          assert queue[i] in queue;
          assert i == 0 || Before(queue[0], queue[i]);
        }
        DirectionAbsent(queue, d);
      }
    } else {
      var more := Insert(queue[1..], e);
      InsertLast(queue[1..], e, d);
      assert ([queue[0]] + more)[0] == queue[0] && ([queue[0]] + more)[1..] == more;
      var first := if queue[0].fromServer == d then [queue[0]] else [];
      var added := if e.fromServer == d then [e] else [];
      assert first + (Direction(queue[1..], d) + added) == (first + Direction(queue[1..], d)) + added;
    }
  }

  // ---- The invariant

  // Admitted in order, each due no earlier than its arrival plus its serialization plus the delay,
  // and at least its serialization after the one before it.
  ghost predicate Paced(cfg: Settings, line: seq<Entry>)
    requires cfg.Valid()
  {
    && (forall i :: 0 <= i < |line| ==> line[i].due >= line[i].arrived + line[i].size as real / cfg.rate + cfg.delay)
    && (forall i :: 0 < i < |line| ==> line[i].due >= line[i - 1].due + line[i].size as real / cfg.rate)
    && (forall i :: 0 < i < |line| ==> line[i - 1].sequence < line[i].sequence)
  }

  // One direction of the relay: sent and still queued together are what was admitted.
  ghost predicate InLine(cfg: Settings, w: World, d: bool)
    requires cfg.Valid()
  {
    var line := Direction(w.admitted, d);
    && Paced(cfg, line)
    && (line != [] ==>
          line[|line| - 1].due == NextSend(w.s, d) + cfg.delay && line[|line| - 1].sequence <= w.s.sequence)
    && (w.s.error != Some(SendFailed) ==> Direction(Entries(w.sent) + w.s.queue, d) == line)
    && (w.s.error == Some(SendFailed) ==> Direction(Entries(w.sent), d) <= line)
  }

  ghost predicate Queued(w: World) {
    && Sorted(w.s.queue)
    && (forall x :: x in w.s.queue ==> x.sequence <= w.s.sequence)
  }

  ghost predicate OnTime(sent: seq<Sent>) {
    forall i :: 0 <= i < |sent| ==> sent[i].entry.due <= sent[i].at
  }

  lemma {:induction false} MemberOfDirection(entries: seq<Entry>, x: Entry)
    requires x in entries
    ensures x in Direction(entries, x.fromServer)
  {
    if entries[0] != x { MemberOfDirection(entries[1..], x); }
  }

  lemma {:induction false} PacedRises(cfg: Settings, line: seq<Entry>, i: nat, j: nat)
    requires cfg.Valid() && Paced(cfg, line) && i <= j < |line|
    ensures line[i].due <= line[j].due && line[i].sequence <= line[j].sequence
    decreases j
  {
    if i < j {
      PacedRises(cfg, line, i, j - 1);
      NonNegative(line[j].size, cfg.rate);
    }
  }

  lemma NonNegative(size: nat, rate: real)
    requires rate > 0.0
    ensures size as real / rate >= 0.0
  {
  }

  lemma EntriesConcat(sent: seq<Sent>, batch: seq<Entry>, now: real)
    ensures Entries(sent + Stamp(batch, now)) == Entries(sent) + batch
  {
  }

  // What SendDue does to the world, before anything arrives.
  function Sending(w: World, turn: Turn): World {
    var (s, batch) := SendDue(w.s, turn.now, turn.succeed);
    World(s, w.admitted, w.sent + Stamp(batch, turn.now))
  }

  lemma SendingInLine(cfg: Settings, w: World, turn: Turn, d: bool)
    requires cfg.Valid() && InLine(cfg, w, d) && w.s.error.None?
    ensures InLine(cfg, Sending(w, turn), d)
  {
    hide SendDue, Paced, Direction, Entries, Stamp;
    SendDueTakesFront(w.s, turn.now, turn.succeed);
    var (s, batch) := SendDue(w.s, turn.now, turn.succeed);
    EntriesConcat(w.sent, batch, turn.now);
    var before := Entries(w.sent);
    var behind := w.s.queue[|batch|..];
    assert before + w.s.queue == (before + batch) + behind;
    DirectionConcat(before + batch, behind, d);
  }

  lemma SendingQueued(w: World, turn: Turn)
    requires Queued(w) && OnTime(w.sent) && w.s.error.None?
    ensures Queued(Sending(w, turn)) && OnTime(Sending(w, turn).sent)
  {
    hide SendDue;
    SendDueTakesFront(w.s, turn.now, turn.succeed);
    var (s, batch) := SendDue(w.s, turn.now, turn.succeed);
    var skipped := if s.error.Some? then |batch| + 1 else |batch|;
    assert s.queue == w.s.queue[skipped..];
    assert forall x :: x in s.queue ==> x in w.s.queue;
  }

  // What admission says of the new entry and of the state.
  ghost predicate Admits(cfg: Settings, s: State, s': State, e: Entry)
    requires cfg.Valid()
  {
    && e.sequence == s'.sequence == s.sequence + 1 && s'.queue == Insert(s.queue, e) && s'.error.None?
    && e.due == NextSend(s', e.fromServer) + cfg.delay
    && NextSend(s', !e.fromServer) == NextSend(s, !e.fromServer)
    && e.due >= e.arrived + e.size as real / cfg.rate + cfg.delay
    && e.due >= NextSend(s, e.fromServer) + e.size as real / cfg.rate + cfg.delay
  }

  lemma AcceptAdmits(cfg: Settings, s: State, a: Arrival)
    requires cfg.Valid() && s.error.None? && Accept(cfg, s, a).1.Some?
    ensures Admits(cfg, s, Accept(cfg, s, a).0, Accept(cfg, s, a).1.value)
  {
  }

  // A newly admitted entry is behind everything queued in its direction.
  lemma NewcomerIsLast(cfg: Settings, w: World, s': State, e: Entry, x: Entry)
    requires cfg.Valid() && w.s.error.None? && InLine(cfg, w, e.fromServer) && Admits(cfg, w.s, s', e)
    requires x in w.s.queue && x.fromServer == e.fromServer
    ensures Before(x, e)
  {
    var d := e.fromServer;
    var line, all := Direction(w.admitted, d), Entries(w.sent) + w.s.queue;
    assert x in all;
    MemberOfDirection(all, x);
    var i :| 0 <= i < |line| && line[i] == x;
    PacedRises(cfg, line, i, |line| - 1);
    NonNegative(e.size, cfg.rate);
  }

  lemma PacedNext(cfg: Settings, line: seq<Entry>, e: Entry)
    requires cfg.Valid() && Paced(cfg, line)
    requires e.due >= e.arrived + e.size as real / cfg.rate + cfg.delay
    requires line != [] ==>
                 e.due >= line[|line| - 1].due + e.size as real / cfg.rate && line[|line| - 1].sequence < e.sequence
    ensures Paced(cfg, line + [e])
  {
    var more := line + [e];
    assert forall i :: 0 <= i < |line| ==> more[i] == line[i];
  }

  lemma AppendDirection(entries: seq<Entry>, e: Entry, d: bool)
    ensures Direction(entries + [e], d) ==
            if e.fromServer == d then Direction(entries, d) + [e] else Direction(entries, d)
  {
    DirectionConcat(entries, [e], d);
    assert [e][1..] == [];
  }

  lemma NewcomerBehindAll(cfg: Settings, w: World, s': State, e: Entry)
    requires cfg.Valid() && w.s.error.None? && InLine(cfg, w, e.fromServer) && Admits(cfg, w.s, s', e)
    ensures forall x :: x in w.s.queue && x.fromServer == e.fromServer ==> Before(x, e)
  {
    hide InLine, Admits, Before;
    forall x | x in w.s.queue && x.fromServer == e.fromServer ensures Before(x, e) {
      NewcomerIsLast(cfg, w, s', e, x);
    }
  }

  lemma NewcomerPaced(cfg: Settings, w: World, s': State, e: Entry)
    requires cfg.Valid() && InLine(cfg, w, e.fromServer) && Admits(cfg, w.s, s', e)
    ensures Paced(cfg, Direction(w.admitted, e.fromServer) + [e])
  {
    PacedNext(cfg, Direction(w.admitted, e.fromServer), e);
  }

  lemma JoinsEnd(before: seq<Entry>, queue: seq<Entry>, e: Entry)
    requires Sorted(queue) && forall x :: x in queue && x.fromServer == e.fromServer ==> Before(x, e)
    ensures Direction(before + Insert(queue, e), e.fromServer) == Direction(before + queue, e.fromServer) + [e]
  {
    hide Direction, Insert, Before;
    var d := e.fromServer;
    DirectionConcat(before, queue, d);
    DirectionConcat(before, Insert(queue, e), d);
    InsertLast(queue, e, d);
    assert Direction(before, d) + (Direction(queue, d) + [e]) == (Direction(before, d) + Direction(queue, d)) + [e];
  }

  // Its own direction: the newcomer joins the end of the line.
  lemma OwnLine(cfg: Settings, w: World, s': State, e: Entry)
    requires cfg.Valid() && w.s.error.None? && Queued(w) && InLine(cfg, w, e.fromServer) && Admits(cfg, w.s, s', e)
    ensures InLine(cfg, World(s', w.admitted + [e], w.sent), e.fromServer)
  {
    hide Direction, Paced, Entries, Insert, Before, NextSend;
    NewcomerBehindAll(cfg, w, s', e);
    NewcomerPaced(cfg, w, s', e);
    AppendDirection(w.admitted, e, e.fromServer);
    JoinsEnd(Entries(w.sent), w.s.queue, e);
  }

  // The other direction does not notice.
  lemma OtherLine(cfg: Settings, w: World, s': State, e: Entry)
    requires cfg.Valid() && w.s.error.None? && InLine(cfg, w, !e.fromServer) && Admits(cfg, w.s, s', e)
    ensures InLine(cfg, World(s', w.admitted + [e], w.sent), !e.fromServer)
  {
    hide Direction, Paced, Entries, Insert;
    var d := !e.fromServer;
    AppendDirection(w.admitted, e, d);
    DirectionConcat(Entries(w.sent), w.s.queue, d);
    DirectionConcat(Entries(w.sent), s'.queue, d);
    InsertOther(w.s.queue, e, d);
  }

  lemma AcceptInLine(cfg: Settings, w: World, a: Arrival, d: bool)
    requires cfg.Valid() && w.s.error.None? && Queued(w) && InLine(cfg, w, d)
    requires Accept(cfg, w.s, a).1.Some?
    ensures var (s, e) := Accept(cfg, w.s, a); InLine(cfg, World(s, w.admitted + [e.value], w.sent), d)
  {
    hide Accept, InLine, Queued, Admits;
    AcceptAdmits(cfg, w.s, a);
    var s', e := Accept(cfg, w.s, a).0, Accept(cfg, w.s, a).1.value;
    if e.fromServer == d { OwnLine(cfg, w, s', e); } else { OtherLine(cfg, w, s', e); }
  }

  lemma {:induction false} InsertOther(queue: seq<Entry>, e: Entry, d: bool)
    requires e.fromServer != d
    ensures Direction(Insert(queue, e), d) == Direction(queue, d)
  {
    if queue == [] {
      assert [e][1..] == [];
    } else if Before(e, queue[0]) {
      assert ([e] + queue)[0] == e && ([e] + queue)[1..] == queue;
    } else {
      var more := Insert(queue[1..], e);
      InsertOther(queue[1..], e, d);
      assert ([queue[0]] + more)[0] == queue[0] && ([queue[0]] + more)[1..] == more;
    }
  }

  lemma AcceptQueued(cfg: Settings, w: World, a: Arrival)
    requires cfg.Valid() && w.s.error.None? && Queued(w) && Accept(cfg, w.s, a).1.Some?
    ensures var (s, e) := Accept(cfg, w.s, a); Queued(World(s, w.admitted + [e.value], w.sent))
  {
    var e := Accept(cfg, w.s, a).1.value;
    InsertSorts(w.s.queue, e);
    InsertMembers(w.s.queue, e);
  }

  lemma RefusedQueued(cfg: Settings, w: World, a: Arrival)
    requires cfg.Valid() && Queued(w) && Accept(cfg, w.s, a).1.None?
    ensures Queued(World(Accept(cfg, w.s, a).0, w.admitted, w.sent))
  {
    RefusedKeeps(cfg, w.s, a);
  }

  ghost predicate Orderly(cfg: Settings, w: World)
    requires cfg.Valid()
  {
    InLine(cfg, w, true) && InLine(cfg, w, false) && Queued(w) && OnTime(w.sent)
  }

  // A refused or dropped datagram changes only counters and the client address.
  lemma RefusedKeeps(cfg: Settings, s: State, a: Arrival)
    requires cfg.Valid() && Accept(cfg, s, a).1.None?
    ensures var s' := Accept(cfg, s, a).0;
            && s' == s.(client := s'.client, received := s'.received, dropped := s'.dropped, error := s'.error)
            && (s'.error == s.error || s'.error == Some(SecondClient))
  {
  }

  lemma RefusedInLine(cfg: Settings, w: World, a: Arrival, d: bool)
    requires cfg.Valid() && w.s.error.None? && InLine(cfg, w, d) && Accept(cfg, w.s, a).1.None?
    ensures InLine(cfg, World(Accept(cfg, w.s, a).0, w.admitted, w.sent), d)
  {
    hide Accept, Paced, Direction, Entries;
    RefusedKeeps(cfg, w.s, a);
    DirectionConcat(Entries(w.sent), w.s.queue, d);
  }

  lemma FailureOrderly(cfg: Settings, w: World)
    requires cfg.Valid() && w.s.error.None? && Orderly(cfg, w)
    ensures Orderly(cfg, w.(s := w.s.(error := Some(ReceiveFailed))))
  {
    hide Paced, Direction, Entries, Sorted;
  }

  lemma StepOrderly(cfg: Settings, w: World, turn: Turn)
    requires cfg.Valid() && Orderly(cfg, w)
    ensures Orderly(cfg, Step(cfg, w, turn))
  {
    hide SendDue, Accept, InLine, Queued, OnTime;
    if w.s.error.None? {
      SendingInLine(cfg, w, turn, true);
      SendingInLine(cfg, w, turn, false);
      SendingQueued(w, turn);
      var w' := Sending(w, turn);
      if w'.s.error.None? && turn.input.Failure? { FailureOrderly(cfg, w'); }
      if w'.s.error.None? && turn.input.Datagram? {
        var a := turn.input.arrival;
        if Accept(cfg, w'.s, a).1.Some? {
          AcceptInLine(cfg, w', a, true);
          AcceptInLine(cfg, w', a, false);
          AcceptQueued(cfg, w', a);
        } else {
          RefusedInLine(cfg, w', a, true);
          RefusedInLine(cfg, w', a, false);
          RefusedQueued(cfg, w', a);
          assert w'.admitted + [] == w'.admitted;
        }
      }
    }
  }

  lemma {:induction false} RunOrderly(cfg: Settings, turns: seq<Turn>)
    requires cfg.Valid()
    ensures Orderly(cfg, Run(cfg, turns))
  {
    hide Step;
    if turns == [] {
      IdleOrderly(cfg);
    } else {
      RunOrderly(cfg, turns[..|turns| - 1]);
      StepOrderly(cfg, Run(cfg, turns[..|turns| - 1]), turns[|turns| - 1]);
    }
  }

  lemma IdleOrderly(cfg: Settings)
    requires cfg.Valid()
    ensures Orderly(cfg, World(Idle, [], []))
  {
    assert Entries([]) + Idle.queue == [];
  }

  // ---- Results

  /** Datagrams of one direction leave in the order they were admitted, without gaps: what has been
      sent is a prefix of what was admitted, equal due times and empty datagrams included. */
  lemma LeavesInAdmissionOrder(cfg: Settings, turns: seq<Turn>, d: bool)
    requires cfg.Valid()
    ensures var w := Run(cfg, turns); Direction(Entries(w.sent), d) <= Direction(w.admitted, d)
    ensures var w := Run(cfg, turns); w.s.error != Some(SendFailed) ==>
              Direction(w.admitted, d) == Direction(Entries(w.sent), d) + Direction(w.s.queue, d)
  {
    RunOrderly(cfg, turns);
    var w := Run(cfg, turns);
    DirectionConcat(Entries(w.sent), w.s.queue, d);
  }

  // ---- When the relay stops, and what that loses

  // Queued entries due by now, wherever they stand in the queue.
  function DueCount(queue: seq<Entry>, now: real): nat {
    if queue == [] then 0 else (if queue[0].due <= now then 1 else 0) + DueCount(queue[1..], now)
  }

  lemma {:induction false} NoneDue(queue: seq<Entry>, now: real)
    requires forall i :: 0 <= i < |queue| ==> queue[i].due > now
    ensures DueCount(queue, now) == 0
  {
    if queue != [] { NoneDue(queue[1..], now); }
  }

  lemma {:induction false} SendFailsIff(s: State, now: real, succeed: nat)
    requires Sorted(s.queue) && s.error.None?
    ensures SendDue(s, now, succeed).0.error == if DueCount(s.queue, now) > succeed then Some(SendFailed) else None
    decreases |s.queue|
  {
    if s.queue != [] {
      var e, rest := s.queue[0], s.queue[1..];
      if e.due > now {
        assert forall i :: 0 < i < |s.queue| ==> Before(e, s.queue[i]);
        NoneDue(s.queue, now);
      } else if succeed > 0 {
        SendFailsIff(s.(queue := rest, queued := s.queued - e.size, forwarded := s.forwarded + 1), now, succeed - 1);
      }
    }
  }

  /** What a turn stops on, from the state before it: more entries due than sends succeed, then a
      datagram from a second client or a failing recvfrom. */
  function StopOf(cfg: Settings, s: State, turn: Turn): Option<Cause> {
    if DueCount(s.queue, turn.now) > turn.succeed then Some(SendFailed) else
    match turn.input
    case Quiet => None
    case Failure => Some(ReceiveFailed)
    case Datagram(a) =>
      if a.address != cfg.server && s.client.Some? && s.client.value != a.address then Some(SecondClient) else None
  }

  lemma StepStops(cfg: Settings, w: World, turn: Turn)
    requires cfg.Valid() && Sorted(w.s.queue) && w.s.error.None?
    ensures Step(cfg, w, turn).s.error == StopOf(cfg, w.s, turn)
  {
    hide SendDue, DueCount;
    SendFailsIff(w.s, turn.now, turn.succeed);
    SendDueTakesFront(w.s, turn.now, turn.succeed);
  }

  /** Turn k is the first to stop the relay, on this cause. */
  ghost predicate StopsAt(cfg: Settings, turns: seq<Turn>, k: nat, cause: Cause)
    requires cfg.Valid()
  {
    && k < |turns| && StopOf(cfg, Run(cfg, turns[..k]).s, turns[k]) == Some(cause)
    && forall j :: 0 <= j < k ==> StopOf(cfg, Run(cfg, turns[..j]).s, turns[j]).None?
  }

  lemma StopsAtLonger(cfg: Settings, before: seq<Turn>, turn: Turn, k: nat, cause: Cause)
    requires cfg.Valid() && k < |before|
    ensures StopsAt(cfg, before + [turn], k, cause) <==> StopsAt(cfg, before, k, cause)
  {
    hide Run, StopOf;
    var turns := before + [turn];
    assert forall j :: 0 <= j <= k ==> turns[..j] == before[..j] && turns[j] == before[j];
  }

  // No turn has stopped a relay that has no error; the first that did is the one it reports.
  lemma {:induction false} ErrorIsFirstStop(cfg: Settings, turns: seq<Turn>)
    requires cfg.Valid()
    ensures Run(cfg, turns).s.error.None? ==>
              forall j :: 0 <= j < |turns| ==> StopOf(cfg, Run(cfg, turns[..j]).s, turns[j]).None?
    ensures Run(cfg, turns).s.error.Some? ==> exists k :: StopsAt(cfg, turns, k, Run(cfg, turns).s.error.value)
  {
    hide Step, StopOf;
    if turns != [] {
      var before, turn := turns[..|turns| - 1], turns[|turns| - 1];
      var w := Run(cfg, before);
      ErrorIsFirstStop(cfg, before);
      assert turns == before + [turn];
      assert forall j :: 0 <= j < |before| ==> turns[..j] == before[..j] && turns[j] == before[j];
      if w.s.error.None? {
        RunOrderly(cfg, before);
        StepStops(cfg, w, turn);
        if Run(cfg, turns).s.error.Some? {
          assert StopsAt(cfg, turns, |before|, Run(cfg, turns).s.error.value);
        }
      } else {
        StoppedStays(cfg, w, turn);
        var k :| StopsAt(cfg, before, k, w.s.error.value);
        StopsAtLonger(cfg, before, turn, k, w.s.error.value);
      }
    }
  }

  lemma StoppedStays(cfg: Settings, w: World, turn: Turn)
    requires cfg.Valid() && w.s.error.Some?
    ensures Step(cfg, w, turn) == w
  {
  }

  lemma FirstStopUnique(cfg: Settings, turns: seq<Turn>, k: nat, cause: Cause, k': nat, cause': Cause)
    requires cfg.Valid() && StopsAt(cfg, turns, k, cause) && StopsAt(cfg, turns, k', cause')
    ensures k == k' && cause == cause'
  {
    hide Run, StopOf;
  }

  /** The relay stops on a cause exactly when that is the cause of the first turn that stops it. */
  lemma StopsExactlyWhen(cfg: Settings, turns: seq<Turn>, cause: Cause)
    requires cfg.Valid()
    ensures Run(cfg, turns).s.error == Some(cause) <==> exists k :: StopsAt(cfg, turns, k, cause)
  {
    ErrorIsFirstStop(cfg, turns);
    hide Run, StopOf;
    if k :| StopsAt(cfg, turns, k, cause) {
      assert Run(cfg, turns).s.error.Some?;
      var actual := Run(cfg, turns).s.error.value;
      var j :| StopsAt(cfg, turns, j, actual);
      FirstStopUnique(cfg, turns, k, cause, j, actual);
    }
  }

  /** The three counters and the queue account for every received datagram exactly when the relay
      was not stopped by a failing send or a second client. */
  lemma ConservedIff(cfg: Settings, turns: seq<Turn>)
    requires cfg.Valid()
    ensures var s := Run(cfg, turns).s;
            s.received == s.forwarded + s.dropped + |s.queue| <==>
            !exists k :: StopsAt(cfg, turns, k, SendFailed) || StopsAt(cfg, turns, k, SecondClient)
  {
    RelayConserves(cfg, turns);
    StopsExactlyWhen(cfg, turns, SendFailed);
    StopsExactlyWhen(cfg, turns, SecondClient);
    hide Run, StopsAt;
  }

  lemma RunNext(cfg: Settings, turns: seq<Turn>, turn: Turn)
    requires cfg.Valid()
    ensures Run(cfg, turns + [turn]) == Step(cfg, Run(cfg, turns), turn)
  {
    assert (turns + [turn])[..|turns|] == turns;
  }

  // An empty datagram from the client arrives at the start.
  function OneArrival(client: Address): seq<Turn> {
    [Turn(0.0, 0, Datagram(Arrival(client, 0, 0.0)))]
  }

  lemma OneQueued(cfg: Settings, client: Address)
    requires cfg.Valid() && client != cfg.server
    ensures Run(cfg, OneArrival(client)).s ==
            State([Entry(cfg.delay, 1, 0, cfg.server, false, 0.0)], Some(client), 0, 1, 0.0, 0.0, 1, 0, 0, 0, None)
  {
    RunNext(cfg, [], OneArrival(client)[0]);
    assert [] + [OneArrival(client)[0]] == OneArrival(client);
    assert 0.0 / cfg.rate == 0.0;
  }

  /** For every setting and client, a run whose only datagram is lost to a failing send. */
  lemma FailedSendLoses(cfg: Settings, client: Address)
    requires cfg.Valid() && client != cfg.server
    ensures var s := Run(cfg, OneArrival(client) + [Turn(cfg.delay, 0, Quiet)]).s;
            && s.error == Some(SendFailed)
            && s.received == 1 && s.forwarded == 0 && s.dropped == 0 && s.queue == []
  {
    hide Run;
    OneQueued(cfg, client);
    RunNext(cfg, OneArrival(client), Turn(cfg.delay, 0, Quiet));
  }

  /** A run that loses the datagram of a second client. */
  lemma SecondClientLoses(cfg: Settings, client: Address, other: Address)
    requires cfg.Valid() && client != cfg.server && other != cfg.server && client != other
    ensures var s := Run(cfg, OneArrival(client) + [Turn(0.0, 1, Datagram(Arrival(other, 0, 0.0)))]).s;
            && s.error == Some(SecondClient)
            && s.received == 2 && s.forwarded + |s.queue| == 1 && s.dropped == 0
  {
    hide Run;
    OneQueued(cfg, client);
    var turn := Turn(0.0, 1, Datagram(Arrival(other, 0, 0.0)));
    RunNext(cfg, OneArrival(client), turn);
    var s := Run(cfg, OneArrival(client)).s;
    assert s.queue[1..] == [];
    assert SendDue(s.(queue := [], queued := 0, forwarded := 1), 0.0, 0).0.queue == [];
  }

  /** A failing recvfrom stops the relay and loses nothing. */
  lemma FailedReceiveLosesNothing(cfg: Settings)
    requires cfg.Valid()
    ensures var s := Run(cfg, [Turn(0.0, 0, Failure)]).s;
            s.error == Some(ReceiveFailed) && s.received == 0 && s.queue == []
  {
    RunNext(cfg, [], Turn(0.0, 0, Failure));
    assert [] + [Turn(0.0, 0, Failure)] == [Turn(0.0, 0, Failure)];
  }

  lemma QuotientAdds(a: nat, b: nat, rate: real)
    requires rate > 0.0
    ensures a as real / rate + b as real / rate == (a + b) as real / rate
  {
    var x, y := a as real / rate, b as real / rate;
    assert (x + y) * rate == x * rate + y * rate;
  }

  lemma {:induction false} TotalSizeNext(line: seq<Entry>, e: Entry)
    ensures TotalSize(line + [e]) == TotalSize(line) + e.size
  {
    if line == [] {
      assert (line + [e])[1..] == [];
    } else {
      TotalSizeNext(line[1..], e);
      assert (line + [e])[0] == line[0] && (line + [e])[1..] == line[1..] + [e];
    }
  }

  lemma {:induction false} PacedSpan(cfg: Settings, line: seq<Entry>, i: nat, j: nat)
    requires cfg.Valid() && Paced(cfg, line) && i < j < |line|
    ensures line[j].due - line[i].due >= TotalSize(line[i + 1..j + 1]) as real / cfg.rate
    decreases j
  {
    var span := line[i + 1..j];
    assert line[i + 1..j + 1] == span + [line[j]];
    TotalSizeNext(span, line[j]);
    QuotientAdds(TotalSize(span), line[j].size, cfg.rate);
    if i + 1 < j {
      PacedSpan(cfg, line, i, j - 1);
    } else {
      assert TotalSize(span) == 0;
    }
  }

  /** Pacing: between any two datagrams of one direction the due times leave room to serialize
      everything admitted after the earlier one, up to and including the later. */
  lemma DueTimesLeaveRoom(cfg: Settings, turns: seq<Turn>, d: bool, i: nat, j: nat)
    requires cfg.Valid() && i < j < |Direction(Run(cfg, turns).admitted, d)|
    ensures var line := Direction(Run(cfg, turns).admitted, d);
            line[j].due - line[i].due >= TotalSize(line[i + 1..j + 1]) as real / cfg.rate
  {
    RunOrderly(cfg, turns);
    PacedSpan(cfg, Direction(Run(cfg, turns).admitted, d), i, j);
  }

  lemma SentIsPaced(cfg: Settings, w: World, k: nat)
    requires cfg.Valid() && k < |w.sent|
    requires var d := w.sent[k].entry.fromServer;
             Direction(Entries(w.sent), d) <= Direction(w.admitted, d) && Paced(cfg, Direction(w.admitted, d))
    ensures var e := w.sent[k].entry; e.due >= e.arrived + e.size as real / cfg.rate + cfg.delay
  {
    hide Direction;
    var e := w.sent[k].entry;
    assert Entries(w.sent)[k] == e;
    MemberOfDirection(Entries(w.sent), e);
    var gone, line := Direction(Entries(w.sent), e.fromServer), Direction(w.admitted, e.fromServer);
    var i :| 0 <= i < |gone| && gone[i] == e;
    assert line[i] == e;
  }

  /** Nothing is sent before its arrival plus its serialization time plus the delay. */
  lemma NothingSentEarly(cfg: Settings, turns: seq<Turn>, k: nat)
    requires cfg.Valid() && k < |Run(cfg, turns).sent|
    ensures var x := Run(cfg, turns).sent[k];
            x.at >= x.entry.arrived + x.entry.size as real / cfg.rate + cfg.delay
  {
    hide Run, Direction, Paced;
    RunOrderly(cfg, turns);
    LeavesInAdmissionOrder(cfg, turns, Run(cfg, turns).sent[k].entry.fromServer);
    SentIsPaced(cfg, Run(cfg, turns), k);
  }

  // ---- The relay object

  class Relay {
    const cfg: Settings
    var queue: seq<Entry>
    var client: Option<Address>
    var queued: int
    var sequence: nat
    var nextFromServer: real
    var nextFromClient: real
    var received: nat
    var forwarded: nat
    var dropped: nat
    var peak: int
    var error: Option<Cause>

    ghost function View(): State
      reads this
    {
      State(queue, client, queued, sequence, nextFromServer, nextFromClient, received, forwarded, dropped, peak, error)
    }

    constructor (cfg: Settings)
      ensures this.cfg == cfg && View() == Idle
    {
      this.cfg := cfg;
      queue, client, queued, sequence := [], None, 0, 0;
      nextFromServer, nextFromClient := 0.0, 0.0;
      received, forwarded, dropped, peak, error := 0, 0, 0, 0, None;
    }

    // Sends everything due; stops with an error where sendto raises.
    method SendLoop(now: real, succeed: nat) returns (sent: seq<Entry>)
      modifies this`queue, this`queued, this`forwarded, this`error
      ensures (View(), sent) == SendDue(old(View()), now, succeed)
    {
      sent := [];
      var left := succeed;
      ghost var spec := SendDue(View(), now, succeed);
      assert [] + spec.1 == spec.1;
      while queue != [] && queue[0].due <= now
        invariant error == old(error)
        invariant spec == (SendDue(View(), now, left).0, sent + SendDue(View(), now, left).1)
        decreases |queue|
      {
        var e := queue[0];
        queue := queue[1..];
        queued := queued - e.size;
        if left == 0 {
          error := Some(SendFailed);
          assert sent + [] == sent;
          return;
        }
        forwarded := forwarded + 1;
        left := left - 1;
        assert forall more :: sent + ([e] + more) == sent + [e] + more;
        sent := sent + [e];
      }
      assert sent + [] == sent;
    }

    // The heap push, as a walk to the entry's place.
    method Push(e: Entry)
      modifies this`queue
      ensures queue == Insert(old(queue), e)
    {
      var i := 0;
      while i < |queue| && !Before(e, queue[i])
        invariant 0 <= i <= |queue| && queue == old(queue)
        invariant Insert(queue, e) == queue[..i] + Insert(queue[i..], e)
      {
        assert queue[i..][0] == queue[i] && queue[i..][1..] == queue[i + 1..];
        assert queue[..i] + ([queue[i]] + Insert(queue[i + 1..], e)) == queue[..i + 1] + Insert(queue[i + 1..], e);
        i := i + 1;
      }
      assert Insert(queue[i..], e) == [e] + queue[i..];
      queue := queue[..i] + ([e] + queue[i..]);
    }

    method Receive(a: Arrival) returns (entry: Option<Entry>)
      requires cfg.Valid()
      modifies this
      ensures (View(), entry) == Accept(cfg, old(View()), a)
    {
      received := received + 1;
      var fromServer := a.address == cfg.server;
      var target := client;
      if !fromServer {
        if client.Some? && client.value != a.address {
          error := Some(SecondClient);
          return None;
        }
        client, target := Some(a.address), Some(cfg.server);
      }
      if target.None? || queued + a.size > CAP {
        dropped := dropped + 1;
        return None;
      }
      sequence := sequence + 1;
      var e;
      if fromServer {
        nextFromServer := Max(a.at, nextFromServer) + a.size as real / cfg.rate;
        e := Entry(nextFromServer + cfg.delay, sequence, a.size, target.value, true, a.at);
      } else {
        nextFromClient := Max(a.at, nextFromClient) + a.size as real / cfg.rate;
        e := Entry(nextFromClient + cfg.delay, sequence, a.size, target.value, false, a.at);
      }
      Push(e);
      queued := queued + a.size;
      if peak < queued { peak := queued; }
      entry := Some(e);
    }

    /** The relay's thread over a script of clock readings and arrivals. */
    method Serve(turns: seq<Turn>) returns (admitted: seq<Entry>, sent: seq<Sent>)
      requires cfg.Valid() && View() == Idle
      modifies this
      ensures World(View(), admitted, sent) == Run(cfg, turns)
    {
      hide SendDue, Accept, Stamp;
      admitted, sent := [], [];
      var i := 0;
      while i < |turns|
        invariant 0 <= i <= |turns|
        invariant World(View(), admitted, sent) == Run(cfg, turns[..i])
      {
        assert turns[..i + 1][..i] == turns[..i];
        if error.None? {
          var batch := SendLoop(turns[i].now, turns[i].succeed);
          sent := sent + Stamp(batch, turns[i].now);
          if error.None? {
            match turns[i].input {
              case Quiet =>
              case Failure => error := Some(ReceiveFailed);
              case Datagram(a) =>
                var entry := Receive(a);
                if entry.Some? { admitted := admitted + [entry.value]; } else { assert admitted + [] == admitted; }
            }
          }
        }
        i := i + 1;
      }
      assert turns[..i] == turns;
    }
  }
}
