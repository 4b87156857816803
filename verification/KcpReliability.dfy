/**
 Two mKCP engines over a network that loses, duplicates, delays and reorders
 segments at will: what the application reads is a prefix of what the peer's
 application wrote, and nothing accepted for sending disappears unless the
 sending end itself discards it.
 */
module KcpReliability {
  import opened Options
  import opened Wire
  import opened KcpEngine

  function Concat(pieces: seq<Bytes>): Bytes {
    if pieces == [] then [] else Concat(pieces[..|pieces| - 1]) + pieces[|pieces| - 1]
  }

  // ---- One direction: a sender, the peer's receiver, and the segments in the network

  /** `history` holds the payloads pushed so far, `delivered` the bytes the peer's application has
      read, `discarded` whether the sender has ever dropped unacknowledged data. */
  datatype Flow = Flow(
    tx: Sender, rx: Receiver, released: bool, fromTx: set<Segment>, fromRx: set<Segment>,
    history: seq<Bytes>, delivered: Bytes, discarded: bool)

  predicate Received(r: Receiver, n: nat) {
    n < r.next || n in r.window
  }

  predicate InWindow(s: Sender, n: nat) {
    exists u :: u in s.window && u.number == n
  }

  ghost predicate WindowOk(window: seq<Unacked>, history: seq<Bytes>) {
    && (forall i, j :: 0 <= i < j < |window| ==> window[i].number < window[j].number)
    && (forall u :: u in window ==> u.number < |history| && u.payload == history[u.number])
  }

  ghost predicate ReceiverOk(f: Flow) {
    && f.rx.next <= |f.history|
    && (forall n :: n in f.rx.window ==> n < |f.history| && f.rx.window[n] == f.history[n])
    && (forall i :: 0 <= i < |f.rx.acks| ==> Received(f.rx, f.rx.acks[i]))
    && (if f.released then f.delivered <= Concat(f.history[..f.rx.next])
        else f.delivered + f.rx.leftOver == Concat(f.history[..f.rx.next]))
  }

  // What a segment may claim: data as it was pushed, acknowledgements of what has arrived.
  ghost predicate DataOk(segment: Segment, history: seq<Bytes>) {
    segment.Data? ==> segment.number < |history| && segment.payload == history[segment.number]
  }

  ghost predicate AckOk(segment: Segment, r: Receiver) {
    && (!segment.Data? ==> segment.receivingNext <= r.next)
    && (segment.Ack? ==> forall i :: 0 <= i < |segment.numbers| ==> Received(r, segment.numbers[i]))
  }

  ghost predicate Kept(f: Flow) {
    forall n: nat :: n < |f.history| ==> InWindow(f.tx, n) || Received(f.rx, n)
  }

  ghost predicate FlowOk(f: Flow) {
    && |f.history| < MODULUS && f.tx.next == |f.history|
    && WindowOk(f.tx.window, f.history)
    && ReceiverOk(f)
    && (forall segment :: segment in f.fromTx ==> DataOk(segment, f.history))
    && (forall segment :: segment in f.fromRx ==> AckOk(segment, f.rx))
    && (!f.discarded ==> Kept(f))
  }

  // ---- Sender steps

  lemma {:induction false} ClearBelowKeeps(window: seq<Unacked>, una: nat, history: seq<Bytes>)
    requires WindowOk(window, history)
    ensures WindowOk(ClearBelow(window, una), history)
    ensures forall u :: u in ClearBelow(window, una) <==> u in window && u.number >= una
  {
    if window != [] {
      assert forall u :: u in window <==> u == window[0] || u in window[1..];
      if window[0].number < una {
        ClearBelowKeeps(window[1..], una, history);
      } else {
        forall u | u in window ensures u.number >= una {
          var i :| 0 <= i < |window| && window[i] == u;
        }
      }
    }
  }

  lemma TailAbove(window: seq<Unacked>, history: seq<Bytes>)
    requires WindowOk(window, history) && window != []
    ensures WindowOk(window[1..], history)
    ensures forall u :: u in window[1..] ==> window[0].number < u.number
    ensures forall u :: u in window <==> u == window[0] || u in window[1..]
  {
    forall u | u in window[1..] ensures window[0].number < u.number {
      var i :| 0 <= i < |window| - 1 && window[1..][i] == u;
      assert window[1..][i] == window[i + 1];
    }
  }

  lemma PrependKeeps(u: Unacked, window: seq<Unacked>, history: seq<Bytes>)
    requires WindowOk([u], history) && WindowOk(window, history)
    requires forall v :: v in window ==> u.number < v.number
    ensures WindowOk([u] + window, history)
  {
    assert forall j :: 0 <= j < |window| ==> window[j] in window;
    assert [u][0] == u;
  }

  lemma {:induction false} RemoveKeeps(window: seq<Unacked>, number: nat, history: seq<Bytes>)
    requires WindowOk(window, history)
    ensures WindowOk(Remove(window, number), history)
    ensures forall u :: u in Remove(window, number) <==> u in window && u.number != number
  {
    if window != [] {
      var rest := window[1..];
      TailAbove(window, history);
      if window[0].number < number {
        assert WindowOk([window[0]], history);
        hide WindowOk;
        RemoveKeeps(rest, number, history);
        PrependKeeps(window[0], Remove(rest, number), history);
        assert forall u :: u in [window[0]] + Remove(rest, number) <==> u == window[0] || u in Remove(rest, number);
      }
    }
  }

  // ---- What happens to a flow when one of its ends changes

  // The sender's window lost only numbers that have arrived.
  lemma SenderDropped(f: Flow, tx: Sender)
    requires FlowOk(f) && tx.next == f.tx.next && WindowOk(tx.window, f.history)
    requires forall u :: u in f.tx.window ==> u in tx.window || Received(f.rx, u.number)
    ensures FlowOk(f.(tx := tx))
  {
    forall n: nat | n < |f.history| && InWindow(f.tx, n) ensures InWindow(tx, n) || Received(f.rx, n) {
      var u :| u in f.tx.window && u.number == n;
    }
  }

  // The sender discarded what it still had to send.
  lemma SenderDiscarded(f: Flow, tx: Sender)
    requires FlowOk(f) && tx.next == f.tx.next && tx.window == []
    ensures FlowOk(f.(tx := tx, discarded := f.discarded || f.tx.window != []))
  {
    if f.tx.window == [] {
      SenderDropped(f, tx);
    }
  }

  lemma SenderOnNext(f: Flow, una: nat)
    requires FlowOk(f) && una <= f.rx.next
    ensures FlowOk(f.(tx := ProcessReceivingNext(f.tx, una)))
  {
    ClearBelowKeeps(f.tx.window, una, f.history);
    SenderDropped(f, ProcessReceivingNext(f.tx, una));
  }

  lemma SenderOnNumber(f: Flow, number: nat)
    requires FlowOk(f) && Received(f.rx, number)
    ensures FlowOk(f.(tx := ProcessAck(f.tx, number)))
  {
    RemoveKeeps(f.tx.window, number, f.history);
    SenderDropped(f, ProcessAck(f.tx, number));
  }

  lemma {:induction false} SenderOnNumbers(f: Flow, numbers: seq<nat>)
    requires FlowOk(f) && forall i :: 0 <= i < |numbers| ==> Received(f.rx, numbers[i])
    ensures FlowOk(f.(tx := ProcessAcks(f.tx, numbers)))
    decreases |numbers|
  {
    hide FlowOk, ProcessAck;
    if numbers != [] {
      var last := |numbers| - 1;
      SenderOnNumbers(f, numbers[..last]);
      SenderOnNumber(f.(tx := ProcessAcks(f.tx, numbers[..last])), numbers[last]);
    }
  }

  lemma SenderOnSegment(f: Flow, segment: Segment)
    requires FlowOk(f) && segment in f.fromRx && segment.Ack?
    ensures FlowOk(f.(tx := SenderOnAck(f.tx, segment.receivingNext, segment.numbers)))
  {
    assert AckOk(segment, f.rx);
    SenderOnNext(f, segment.receivingNext);
    SenderOnNumbers(f.(tx := ProcessReceivingNext(f.tx, segment.receivingNext)), segment.numbers);
  }

  lemma ConcatNext(pieces: seq<Bytes>, piece: Bytes)
    ensures Concat(pieces + [piece]) == Concat(pieces) + piece
  {
    assert (pieces + [piece])[..|pieces|] == pieces;
  }

  lemma SenderPushed(cfg: Config, f: Flow, payload: Bytes)
    requires FlowOk(f) && |f.history| + 1 < MODULUS && Push(cfg, f.tx, payload).Some?
    ensures FlowOk(f.(tx := Push(cfg, f.tx, payload).value, history := f.history + [payload]))
  {
    var tx, history := Push(cfg, f.tx, payload).value, f.history + [payload];
    var u := Unacked(f.tx.next, payload);
    assert u in tx.window;
    assert history[..f.rx.next] == f.history[..f.rx.next];
    assert forall v :: v in tx.window <==> v in f.tx.window || v == u;
    assert forall n :: 0 <= n < |f.history| ==> history[n] == f.history[n];
    forall n: nat | n < |history| && !f.discarded ensures InWindow(tx, n) || Received(f.rx, n) {
      if n < |f.history| && InWindow(f.tx, n) {
        var v :| v in f.tx.window && v.number == n;
        assert v in tx.window;
      }
    }
  }

  lemma SenderEmits(f: Flow, segments: set<Segment>)
    requires FlowOk(f)
    requires forall segment :: segment in segments ==> DataOk(segment, f.history)
    ensures FlowOk(f.(fromTx := f.fromTx + segments))
  {
  }

  // ---- Receiver steps

  lemma ReceiverAdvanced(f: Flow, g: Flow)
    requires FlowOk(f) && g == f.(rx := g.rx, released := g.released, delivered := g.delivered) && ReceiverOk(g)
    requires f.rx.next <= g.rx.next && forall n :: Received(f.rx, n) ==> Received(g.rx, n)
    ensures FlowOk(g)
  {
    forall segment | segment in g.fromRx ensures AckOk(segment, g.rx) {
      assert AckOk(segment, f.rx);
    }
  }

  lemma {:induction false} ClearAcksSubset(acks: seq<nat>, una: nat)
    ensures forall i :: 0 <= i < |ClearAcks(acks, una)| ==> ClearAcks(acks, una)[i] in acks
  {
    if acks != [] { ClearAcksSubset(acks[..|acks| - 1], una); }
  }

  lemma ReceiverClearsAcks(f: Flow, una: nat)
    requires FlowOk(f)
    ensures FlowOk(f.(rx := f.rx.(acks := ClearAcks(f.rx.acks, una))))
  {
    ClearAcksSubset(f.rx.acks, una);
    ReceiverAdvanced(f, f.(rx := f.rx.(acks := ClearAcks(f.rx.acks, una))));
  }

  lemma ReceiverGetsData(cfg: Config, f: Flow, segment: Segment)
    requires FlowOk(f) && segment in f.fromTx && segment.Data?
    ensures FlowOk(f.(rx := ReceiveData(cfg, f.rx, segment.number, segment.sendingNext, segment.payload)))
  {
    assert DataOk(segment, f.history);
    ClearAcksSubset(f.rx.acks, segment.sendingNext);
    var rx := ReceiveData(cfg, f.rx, segment.number, segment.sendingNext, segment.payload);
    assert forall n :: n in f.rx.window ==> n in rx.window && rx.window[n] == f.rx.window[n];
    ReceiverAdvanced(f, f.(rx := rx));
  }

  // One turn of the drain loop.
  function DrainOne(r: Receiver): Receiver
    requires r.next in r.window
  {
    r.(leftOver := r.leftOver + r.window[r.next], window := r.window - {r.next}, next := (r.next + 1) % MODULUS)
  }

  lemma ReceiverDrainsOne(f: Flow)
    requires FlowOk(f) && !f.released && f.rx.next in f.rx.window
    ensures FlowOk(f.(rx := DrainOne(f.rx)))
  {
    var next, rx := f.rx.next, DrainOne(f.rx);
    assert rx.next == next + 1;
    assert f.history[..next + 1] == f.history[..next] + [f.history[next]];
    ConcatNext(f.history[..next], f.history[next]);
    assert f.delivered + (f.rx.leftOver + f.history[next]) == (f.delivered + f.rx.leftOver) + f.history[next];
    ReceiverAdvanced(f, f.(rx := rx));
  }

  lemma {:induction false} ReceiverDrains(f: Flow)
    requires FlowOk(f) && !f.released
    ensures FlowOk(f.(rx := Drain(f.rx)))
    decreases |f.rx.window|
  {
    hide FlowOk;
    if f.rx.next in f.rx.window {
      ReceiverDrainsOne(f);
      DrainShrinks(f.rx);
      ReceiverDrains(f.(rx := DrainOne(f.rx)));
    }
  }

  lemma ReceiverTakes(f: Flow, n: nat)
    requires FlowOk(f) && !f.released && n <= |f.rx.leftOver|
    ensures FlowOk(f.(rx := f.rx.(leftOver := f.rx.leftOver[n..]), delivered := f.delivered + f.rx.leftOver[..n]))
  {
    var g := f.(rx := f.rx.(leftOver := f.rx.leftOver[n..]), delivered := f.delivered + f.rx.leftOver[..n]);
    assert g.delivered + g.rx.leftOver == f.delivered + f.rx.leftOver;
    ReceiverAdvanced(f, g);
  }

  lemma ReceiverReads(f: Flow, count: nat)
    requires FlowOk(f) && !f.released
    ensures var (rx, bytes) := ReadReceiver(f.rx, count);
            FlowOk(f.(rx := rx, delivered := f.delivered + bytes))
  {
    hide FlowOk;
    var full := if f.rx.leftOver == [] then Drain(f.rx) else f.rx;
    if f.rx.leftOver == [] { ReceiverDrains(f); }
    var g := f.(rx := full);
    ReceiverTakes(g, if count <= |full.leftOver| then count else |full.leftOver|);
  }

  lemma ReceiverReleased(f: Flow)
    requires FlowOk(f)
    ensures FlowOk(f.(rx := f.rx.(leftOver := []), released := true))
  {
    ReceiverAdvanced(f, f.(rx := f.rx.(leftOver := []), released := true));
  }

  lemma ReceiverEmits(f: Flow, segments: set<Segment>)
    requires FlowOk(f)
    requires forall segment :: segment in segments ==> AckOk(segment, f.rx)
    ensures FlowOk(f.(fromRx := f.fromRx + segments))
  {
  }

  // ---- One engine between its two flows: it is the sender of `out` and the receiver of `back`

  datatype Ends = Ends(out: Flow, back: Flow)

  // The engine is the sender of one flow and the receiver of the other.
  ghost predicate Holds(e: Engine, ends: Ends) {
    && ends.out.tx == e.sending && ends.back.rx == e.receiving && ends.back.released == (e.phase == Terminated)
    && FlowOk(ends.out) && FlowOk(ends.back)
  }

  // The flows after the engine became e.
  function Rejoin(ends: Ends, e: Engine, discards: bool): Ends {
    Ends(ends.out.(tx := e.sending, discarded := ends.out.discarded || discards),
         ends.back.(rx := e.receiving, released := e.phase == Terminated))
  }

  // A phase change that leaves unacknowledged data behind.
  predicate Discards(before: Engine, after: Engine) {
    before.phase != after.phase && after.phase != ReadyToClose && before.sending.window != []
  }

  lemma HasMember(window: seq<Unacked>)
    ensures window != [] ==> exists u :: u in window
  {
    if window != [] { assert window[0] in window; }
  }

  lemma CloseWriteClears(f: Flow)
    requires FlowOk(f)
    ensures CloseWrite(f.tx).window == []
  {
    ClearBelowKeeps(f.tx.window, LAST_NUMBER, f.history);
    HasMember(CloseWrite(f.tx).window);
  }

  lemma SetPhaseHolds(e: Engine, ends: Ends, phase: Phase)
    requires Holds(e, ends) && e.phase != Terminated && phase != Active && phase != e.phase
    ensures Holds(SetPhase(e, phase), Rejoin(ends, SetPhase(e, phase), Discards(e, SetPhase(e, phase))))
  {
    hide FlowOk;
    CloseWriteClears(ends.out);
    var e' := SetPhase(e, phase);
    if phase != ReadyToClose {
      SenderDiscarded(ends.out, e'.sending);
    }
    if phase == Terminated {
      ReceiverReleased(ends.back);
    }
  }

  lemma DiscardedLater(f: Flow)
    requires FlowOk(f)
    ensures FlowOk(f.(discarded := true))
  {
  }

  // Rejoining twice is rejoining once, with at least the discards of both.
  lemma RejoinTwice(ends: Ends, e1: Engine, d1: bool, e2: Engine, d2: bool, d: bool)
    requires Holds(e2, Rejoin(Rejoin(ends, e1, d1), e2, d2)) && (d1 || d2 ==> d)
    ensures Holds(e2, Rejoin(ends, e2, d))
  {
    hide FlowOk;
    if d && !ends.out.discarded && !d1 && !d2 { DiscardedLater(ends.out.(tx := e2.sending)); }
  }

  lemma PhaseStepHolds(e: Engine, ends: Ends, e': Engine)
    requires Holds(e, ends)
    requires e' == Close(e) || e' == OnPeerClosed(e) || e' == OnTerminate(e)
    ensures Holds(e', Rejoin(ends, e', Discards(e, e')))
    ensures e'.phase == Terminated || e'.phase == e.phase || e.phase != Terminated
  {
    hide FlowOk;
    if e' != e {
      SetPhaseHolds(e, ends, e'.phase);
    } else {
      assert Rejoin(ends, e, false) == ends;
    }
  }

  /** An arriving segment keeps both flows. */
  lemma InputHolds(cfg: Config, e: Engine, ends: Ends, segment: Segment)
    requires Holds(e, ends) && segment in ends.out.fromRx && segment in ends.back.fromTx
    ensures var e' := Input(cfg, e, segment); Holds(e', Rejoin(ends, e', Discards(e, e')))
  {
    hide FlowOk, SenderOnAck, ReceiveData, ProcessReceivingNext, ClearAcks;
    var e' := Input(cfg, e, segment);
    var e1 := HandleOption(e, segment);
    if segment.closing { PhaseStepHolds(e, ends, e1); } else { assert Rejoin(ends, e, false) == ends; }
    var ends1 := Rejoin(ends, e1, Discards(e, e1));
    match segment
    case Data(_, _, _, _) =>
      ReceiverGetsData(cfg, ends1.back, segment);
      RejoinTwice(ends, e1, Discards(e, e1), e', false, Discards(e, e'));
    case Ack(_, _, _) =>
      SenderOnSegment(ends1.out, segment);
      RejoinTwice(ends, e1, Discards(e, e1), e', false, Discards(e, e'));
    case Cmd(_, terminate, sendingNext, receivingNext) =>
      CmdHolds(e1, ends1, segment, e');
      RejoinTwice(ends, e1, Discards(e, e1), e', Discards(e1, e'), Discards(e, e'));
  }

  lemma CmdHolds(e: Engine, ends: Ends, segment: Segment, e': Engine)
    requires Holds(e, ends) && segment in ends.out.fromRx && segment.Cmd?
    requires var e1 := if segment.terminate then OnTerminate(e) else e;
             e' == e1.(sending := ProcessReceivingNext(e1.sending, segment.receivingNext),
                       receiving := e1.receiving.(acks := ClearAcks(e1.receiving.acks, segment.sendingNext)))
    ensures Holds(e', Rejoin(ends, e', Discards(e, e')))
  {
    assert AckOk(segment, ends.out.rx);
    hide FlowOk, ProcessReceivingNext, ClearAcks;
    var e1 := if segment.terminate then OnTerminate(e) else e;
    if segment.terminate { PhaseStepHolds(e, ends, e1); } else { assert Rejoin(ends, e, false) == ends; }
    var ends1 := Rejoin(ends, e1, Discards(e, e1));
    SenderOnNext(ends1.out, segment.receivingNext);
    ReceiverClearsAcks(ends1.back, segment.sendingNext);
    RejoinTwice(ends, e1, Discards(e, e1), e', false, Discards(e, e'));
  }

  /** Queueing data extends the history by the chunks taken, which are a prefix of the data. */
  lemma {:induction false} ChunksPushed(cfg: Config, f: Flow, data: Bytes)
    requires FlowOk(f) && cfg.chunk > 0 && |f.history| + |PushChunks(cfg, f.tx, data).1| < MODULUS
    ensures var (tx, pieces) := PushChunks(cfg, f.tx, data);
            FlowOk(f.(tx := tx, history := f.history + pieces))
    decreases |data|
  {
    hide FlowOk, Push;
    assert f.history + [] == f.history;
    if data != [] {
      var piece := if cfg.chunk < |data| then data[..cfg.chunk] else data;
      var pushed := Push(cfg, f.tx, piece);
      if pushed.Some? {
        var (tx, pieces) := PushChunks(cfg, pushed.value, data[|piece|..]);
        SenderPushed(cfg, f, piece);
        ChunksPushed(cfg, f.(tx := pushed.value, history := f.history + [piece]), data[|piece|..]);
        assert f.history + [piece] + pieces == f.history + ([piece] + pieces);
      }
    }
  }

  lemma {:induction false} ConcatBoth(a: seq<Bytes>, b: seq<Bytes>)
    ensures Concat(a + b) == Concat(a) + Concat(b)
    decreases |b|
  {
    if b == [] {
      assert a + b == a;
    } else {
      var last := |b| - 1;
      ConcatBoth(a, b[..last]);
      assert (a + b)[..|a + b| - 1] == a + b[..last];
    }
  }

  lemma ConcatFirst(piece: Bytes, pieces: seq<Bytes>)
    ensures Concat([piece] + pieces) == piece + Concat(pieces)
  {
    ConcatBoth([piece], pieces);
    ConcatNext([], piece);
    assert [] + [piece] == [piece] && [] + piece == piece;
  }

  lemma PrefixBehind(front: Bytes, a: Bytes, b: Bytes)
    requires a <= b
    ensures front + a <= front + b
  {
  }

  lemma {:induction false} ChunksArePrefix(cfg: Config, s: Sender, data: Bytes)
    requires cfg.chunk > 0
    ensures Concat(PushChunks(cfg, s, data).1) <= data
    decreases |data|
  {
    hide Push, Concat;
    if data == [] {
      ConcatEmpty();
    } else {
      var piece := if cfg.chunk < |data| then data[..cfg.chunk] else data;
      var rest := data[|piece|..];
      var pushed := Push(cfg, s, piece);
      if pushed.Some? {
        ChunksArePrefix(cfg, pushed.value, rest);
        var pieces := PushChunks(cfg, pushed.value, rest).1;
        ConcatFirst(piece, pieces);
        PrefixBehind(piece, Concat(pieces), rest);
        assert data == piece + rest;
      } else {
        ConcatEmpty();
      }
    }
  }

  /** No piece is empty, so none is the data segment a reader cannot see. */
  lemma {:induction false} ChunksNonempty(cfg: Config, s: Sender, data: Bytes)
    requires cfg.chunk > 0
    ensures forall piece :: piece in PushChunks(cfg, s, data).1 ==> 0 < |piece| <= cfg.chunk
    decreases |data|
  {
    if data != [] {
      var piece := if cfg.chunk < |data| then data[..cfg.chunk] else data;
      match Push(cfg, s, piece)
      case None =>
      case Some(s') => ChunksNonempty(cfg, s', data[|piece|..]);
    }
  }

  lemma ConcatEmpty()
    ensures Concat([]) == []
  {
  }

  lemma WriteHolds(cfg: Config, e: Engine, ends: Ends, data: Bytes)
    requires Holds(e, ends) && cfg.chunk > 0 && |ends.out.history| + |Write(cfg, e, data).1| < MODULUS
    ensures var (e', pieces) := Write(cfg, e, data);
            Holds(e', Ends(ends.out.(tx := e'.sending, history := ends.out.history + pieces), ends.back))
  {
    hide FlowOk, PushChunks;
    if e.phase == Active {
      ChunksPushed(cfg, ends.out, data);
    } else {
      assert ends.out.history + [] == ends.out.history;
    }
  }

  lemma ReadHolds(e: Engine, ends: Ends, count: nat)
    requires Holds(e, ends)
    ensures var (e', bytes) := Read(e, count);
            Holds(e', Ends(ends.out, ends.back.(rx := e'.receiving,
                  delivered := ends.back.delivered + if bytes.Some? then bytes.value else [])))
  {
    hide FlowOk, ReadReceiver;
    if e.phase == ReadyToClose || e.phase == Terminating || e.phase == Terminated {
      assert ends.back.delivered + [] == ends.back.delivered;
    } else {
      ReceiverReads(ends.back, count);
    }
  }

  // ---- Flushing

  ghost predicate SegmentsOk(ends: Ends, segments: set<Segment>) {
    forall segment :: segment in segments ==> DataOk(segment, ends.out.history) && AckOk(segment, ends.back.rx)
  }

  lemma EmissionsOk(e: Engine, ends: Ends, ackLists: seq<seq<nat>>, transmit: seq<nat>, ping: bool)
    requires Holds(e, ends)
    ensures SegmentsOk(ends, Emissions(e, ackLists, transmit, ping))
  {
    forall segment | segment in Emissions(e, ackLists, transmit, ping)
      ensures DataOk(segment, ends.out.history) && AckOk(segment, ends.back.rx)
    {
      match segment
      case Data(_, _, _, _) =>
        var i :| 0 <= i < |transmit| && transmit[i] < |e.sending.window|
              && segment.number == e.sending.window[transmit[i]].number
              && segment.payload == e.sending.window[transmit[i]].payload;
        assert e.sending.window[transmit[i]] in e.sending.window;
      case Ack(_, _, numbers) =>
        forall j | 0 <= j < |numbers| ensures Received(e.receiving, numbers[j]) {
          assert numbers[j] in e.receiving.acks;
        }
      case Cmd(_, _, _, _) =>
    }
  }

  lemma EmitHolds(e: Engine, ends: Ends, segments: set<Segment>)
    requires Holds(e, ends) && SegmentsOk(ends, segments)
    ensures Holds(e, Ends(ends.out.(fromTx := ends.out.fromTx + segments),
                          ends.back.(fromRx := ends.back.fromRx + segments)))
  {
    SenderEmits(ends.out, segments);
    ReceiverEmits(ends.back, segments);
  }

  lemma FlushHeadHolds(e: Engine, ends: Ends, timers: Timers)
    requires Holds(e, ends) && e.phase != Terminated
    ensures var e' := FlushHead(e, timers);
            Holds(e', Rejoin(ends, e', Discards(e, e'))) && e'.phase != Terminated
  {
    hide FlowOk;
    var e1 := if e.phase == Active && timers.idle then Close(e) else e;
    if e1 == e { assert Rejoin(ends, e, false) == ends; } else { PhaseStepHolds(e, ends, e1); }
    var e' := FlushHead(e, timers);
    if e' != e1 {
      SetPhaseHolds(e1, Rejoin(ends, e1, Discards(e, e1)), Terminating);
      RejoinTwice(ends, e1, Discards(e, e1), e', Discards(e1, e'), Discards(e, e'));
    }
  }

  lemma FlushTailHolds(e: Engine, ends: Ends, timers: Timers)
    requires Holds(e, ends) && e.phase != Terminated && e.phase != Terminating
    ensures var e' := FlushTail(e, timers); Holds(e', Rejoin(ends, e', Discards(e, e')))
  {
    hide FlowOk;
    var e' := FlushTail(e, timers);
    if e' == e { assert Rejoin(ends, e, false) == ends; } else { SetPhaseHolds(e, ends, Terminating); }
  }

  // ---- The connection

  /** Both ends, everything each has ever put on the network, and per end the payloads pushed, the
      bytes its application has read, and whether it has discarded unacknowledged data. */
  datatype System = System(
    left: Engine, right: Engine, fromLeft: set<Segment>, fromRight: set<Segment>,
    wroteLeft: seq<Bytes>, wroteRight: seq<Bytes>, readLeft: Bytes, readRight: Bytes,
    discardedLeft: bool, discardedRight: bool)

  function Mirror(s: System): System {
    System(s.right, s.left, s.fromRight, s.fromLeft, s.wroteRight, s.wroteLeft, s.readRight, s.readLeft,
           s.discardedRight, s.discardedLeft)
  }

  const Start := System(Fresh, Fresh, {}, {}, [], [], [], [], false, false)

  datatype Action =
    | Writing(data: Bytes)
    | Reading(count: nat)
    | Closing
    | Arriving(segment: Segment)          // any segment the peer has ever sent, any number of times
    | Flushing(timers: Timers, ackLists: seq<seq<nat>>, transmit: seq<nat>, ping: bool)

  /** One action at the left end. */
  function StepLeft(cfg: Config, s: System, action: Action): System
    requires cfg.chunk > 0
  {
    match action
    case Writing(data) =>
      var (e, pieces) := Write(cfg, s.left, data);
      s.(left := e, wroteLeft := s.wroteLeft + pieces)
    case Reading(count) =>
      var (e, bytes) := Read(s.left, count);
      s.(left := e, readLeft := s.readLeft + if bytes.Some? then bytes.value else [])
    case Closing =>
      var e := Close(s.left);
      s.(left := e, discardedLeft := s.discardedLeft || Discards(s.left, e))
    case Arriving(segment) =>
      if segment !in s.fromRight then s else
      var e := Input(cfg, s.left, segment);
      s.(left := e, discardedLeft := s.discardedLeft || Discards(s.left, e))
    case Flushing(timers, ackLists, transmit, ping) =>
      var (e, segments) := Flush(s.left, timers, ackLists, transmit, ping);
      s.(left := e, fromLeft := s.fromLeft + segments, discardedLeft := s.discardedLeft || Discards(s.left, e))
  }

  datatype Turn = Turn(atLeft: bool, action: Action)

  function Step(cfg: Config, s: System, turn: Turn): System
    requires cfg.chunk > 0
  {
    if turn.atLeft then StepLeft(cfg, s, turn.action) else Mirror(StepLeft(cfg, Mirror(s), turn.action))
  }

  function Run(cfg: Config, turns: seq<Turn>): System
    requires cfg.chunk > 0
  {
    if turns == [] then Start else Step(cfg, Run(cfg, turns[..|turns| - 1]), turns[|turns| - 1])
  }

  // The flow from left to right, and the one back.
  function Across(s: System): Flow {
    Flow(s.left.sending, s.right.receiving, s.right.phase == Terminated, s.fromLeft, s.fromRight,
         s.wroteLeft, s.readRight, s.discardedLeft)
  }

  ghost predicate Inv(s: System) {
    FlowOk(Across(s)) && FlowOk(Across(Mirror(s)))
  }

  function EndsOfLeft(s: System): Ends {
    Ends(Across(s), Across(Mirror(s)))
  }

  // What either half of a flush discards, the whole flush discards.
  lemma FlushDiscards(e: Engine, timers: Timers, e': Engine)
    requires e.phase != Terminated
    requires var e1 := FlushHead(e, timers);
             if e1.phase == Terminating then e' == SetPhase(e1, Terminated) else e' == FlushTail(e1, timers)
    ensures var e1 := FlushHead(e, timers); Discards(e, e1) || Discards(e1, e') ==> Discards(e, e')
  {
  }

  lemma FlushHolds(s: System, timers: Timers, ackLists: seq<seq<nat>>, transmit: seq<nat>, ping: bool)
    requires Holds(s.left, EndsOfLeft(s))
    ensures var (e, segments) := Flush(s.left, timers, ackLists, transmit, ping);
            var s' := s.(left := e, fromLeft := s.fromLeft + segments,
                         discardedLeft := s.discardedLeft || Discards(s.left, e));
            Holds(e, EndsOfLeft(s'))
  {
    hide FlowOk, Emissions, FlushHead, FlushTail;
    var e0, ends := s.left, EndsOfLeft(s);
    var (e, segments) := Flush(e0, timers, ackLists, transmit, ping);
    if e0.phase == Terminated {
      assert s.fromLeft + segments == s.fromLeft;
    } else {
      FlushHeadHolds(e0, ends, timers);
      var e1 := FlushHead(e0, timers);
      var ends1 := Rejoin(ends, e1, Discards(e0, e1));
      if e1.phase == Terminating {
        PingOk(e1, ends1, true);
        EmitHolds(e1, ends1, segments);
        var sent := Emitted(ends, segments);
        assert Rejoin(sent, e1, Discards(e0, e1)) == Emitted(ends1, segments);
        if timers.terminating {
          SetPhaseHolds(e1, Emitted(ends1, segments), Terminated);
          FlushDiscards(e0, timers, e);
          RejoinTwice(sent, e1, Discards(e0, e1), e, Discards(e1, e), Discards(e0, e));
        }
      } else {
        FlushTailHolds(e1, ends1, timers);
        FlushDiscards(e0, timers, e);
        RejoinTwice(ends, e1, Discards(e0, e1), e, Discards(e1, e), Discards(e0, e));
        var ends2 := Rejoin(ends, e, Discards(e0, e));
        EmissionsOk(e, ends2, ackLists, transmit, ping);
        EmitHolds(e, ends2, segments);
      }
    }
  }

  function Emitted(ends: Ends, segments: set<Segment>): Ends {
    Ends(ends.out.(fromTx := ends.out.fromTx + segments), ends.back.(fromRx := ends.back.fromRx + segments))
  }

  lemma PingOk(e: Engine, ends: Ends, terminate: bool)
    requires Holds(e, ends)
    ensures SegmentsOk(ends, {Ping(e, terminate)})
  {
  }

  lemma StepLeftKeepsInv(cfg: Config, s: System, action: Action)
    requires cfg.chunk > 0 && Inv(s) && |StepLeft(cfg, s, action).wroteLeft| < MODULUS
    ensures Inv(StepLeft(cfg, s, action))
  {
    hide FlowOk, Write, Read, Close, Input, Flush, Discards;
    var ends := EndsOfLeft(s);
    assert Holds(s.left, ends);
    match action
    case Writing(data) => WriteHolds(cfg, s.left, ends, data);
    case Reading(count) => ReadHolds(s.left, ends, count);
    case Closing => PhaseStepHolds(s.left, ends, Close(s.left));
    case Arriving(segment) => if segment in s.fromRight { InputHolds(cfg, s.left, ends, segment); }
    case Flushing(timers, ackLists, transmit, ping) => FlushHolds(s, timers, ackLists, transmit, ping);
  }

  lemma StartInv()
    ensures Inv(Start)
  {
  }

  lemma {:induction false} RunKeepsInv(cfg: Config, turns: seq<Turn>)
    requires cfg.chunk > 0
    requires |Run(cfg, turns).wroteLeft| < MODULUS && |Run(cfg, turns).wroteRight| < MODULUS
    ensures Inv(Run(cfg, turns))
  {
    hide FlowOk, StepLeft;
    if turns == [] {
      StartInv();
    } else {
      var s, turn := Run(cfg, turns[..|turns| - 1]), turns[|turns| - 1];
      HistoriesGrow(cfg, s, turn);
      RunKeepsInv(cfg, turns[..|turns| - 1]);
      if turn.atLeft {
        StepLeftKeepsInv(cfg, s, turn.action);
      } else {
        StepLeftKeepsInv(cfg, Mirror(s), turn.action);
      }
    }
  }

  lemma HistoriesGrow(cfg: Config, s: System, turn: Turn)
    requires cfg.chunk > 0
    ensures s.wroteLeft <= Step(cfg, s, turn).wroteLeft && s.wroteRight <= Step(cfg, s, turn).wroteRight
  {
    hide Write, Read, Close, Input, Flush;
  }

  // ---- Results, for every run and both directions

  lemma {:induction false} ConcatPrefix(pieces: seq<Bytes>, n: nat)
    requires n <= |pieces|
    ensures Concat(pieces[..n]) <= Concat(pieces)
  {
    ConcatBoth(pieces[..n], pieces[n..]);
    assert pieces[..n] + pieces[n..] == pieces;
  }

  /** In order and exactly once: whatever the network does, the bytes read at one end are a prefix
      of the bytes the other end accepted for sending. */
  lemma ReadsArePrefixOfWrites(cfg: Config, turns: seq<Turn>)
    requires cfg.chunk > 0
    requires |Run(cfg, turns).wroteLeft| < MODULUS && |Run(cfg, turns).wroteRight| < MODULUS
    ensures Run(cfg, turns).readRight <= Concat(Run(cfg, turns).wroteLeft)
    ensures Run(cfg, turns).readLeft <= Concat(Run(cfg, turns).wroteRight)
  {
    RunKeepsInv(cfg, turns);
    var s := Run(cfg, turns);
    ConcatPrefix(s.wroteLeft, s.right.receiving.next);
    ConcatPrefix(s.wroteRight, s.left.receiving.next);
  }

  /** No data is lost: unless an end gave up unacknowledged data by leaving its open phases, every
      segment it accepted is still queued there or has arrived at the peer. */
  lemma NothingIsLost(cfg: Config, turns: seq<Turn>, n: nat)
    requires cfg.chunk > 0
    requires |Run(cfg, turns).wroteLeft| < MODULUS && |Run(cfg, turns).wroteRight| < MODULUS
    requires !Run(cfg, turns).discardedLeft && n < |Run(cfg, turns).wroteLeft|
    ensures InWindow(Run(cfg, turns).left.sending, n) || Received(Run(cfg, turns).right.receiving, n)
  {
    RunKeepsInv(cfg, turns);
  }

  lemma {:induction false} DrainReachesEnd(f: Flow)
    requires FlowOk(f) && !f.released
    requires forall n: nat :: f.rx.next <= n < |f.history| ==> n in f.rx.window
    ensures Drain(f.rx).next == |f.history|
    decreases |f.history| - f.rx.next
  {
    if f.rx.next < |f.history| {
      ReceiverDrainsOne(f);
      DrainReachesEnd(f.(rx := DrainOne(f.rx)));
    }
  }

  /** An orderly close loses nothing: once an end's window is empty without a discard, its whole
      stream has been read by the peer or waits there in order, unless the peer has terminated. */
  lemma OrderlyCloseIsComplete(cfg: Config, turns: seq<Turn>)
    requires cfg.chunk > 0
    requires var s := Run(cfg, turns); |s.wroteLeft| < MODULUS && |s.wroteRight| < MODULUS
    requires var s := Run(cfg, turns); s.left.sending.window == [] && !s.discardedLeft && s.right.phase != Terminated
    ensures var s := Run(cfg, turns);
            s.readRight + s.right.receiving.leftOver + Drain(s.right.receiving.(leftOver := [])).leftOver
            == Concat(s.wroteLeft)
  {
    RunKeepsInv(cfg, turns);
    var s := Run(cfg, turns);
    var rx := s.right.receiving;
    var f := Across(s).(rx := rx.(leftOver := []), delivered := s.readRight + rx.leftOver);
    assert FlowOk(f) by {
      assert f.delivered + [] == f.delivered;
      ReceiverAdvanced(Across(s), f);
    }
    forall n: nat | f.rx.next <= n < |f.history| ensures n in f.rx.window {
      assert InWindow(f.tx, n) || Received(f.rx, n);
    }
    DrainReachesEnd(f);
    ReceiverDrains(f);
    assert f.history[..|f.history|] == f.history;
  }
}
