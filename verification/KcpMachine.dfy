/**
 The mKCP engine as the objects it is made of, each method proved against the
 transition that defines it.
 */
module KcpMachine {
  import opened Options
  import opened Wire
  import opened KcpEngine

  class SendingWorker {
    const cfg: Config
    var window: seq<Unacked>
    var next: nat
    var firstUnacked: nat
    var closed: bool

    ghost function View(): Sender
      reads this
    {
      Sender(window, next, firstUnacked, closed)
    }

    constructor (cfg: Config)
      ensures this.cfg == cfg && View() == Fresh.sending
    {
      this.cfg := cfg;
      window, next, firstUnacked, closed := [], 0, 0, false;
    }

    // Pops the front while it is numbered below una.
    method Clear(una: nat)
      modifies this`window
      ensures window == ClearBelow(old(window), una)
    {
      while window != [] && window[0].number < una
        invariant ClearBelow(window, una) == ClearBelow(old(window), una)
        decreases |window|
      {
        window := window[1..];
      }
    }

    method FindFirstUnacknowledged()
      modifies this`firstUnacked
      ensures View() == FindFirst(old(View()))
    {
      firstUnacked := if window == [] then next else window[0].number;
    }

    method OnReceivingNext(una: nat)
      modifies this`window, this`firstUnacked
      ensures View() == ProcessReceivingNext(old(View()), una)
    {
      Clear(una);
      FindFirstUnacknowledged();
    }

    method RemoveNumber(number: nat) returns (removed: bool)
      modifies this`window
      ensures window == Remove(old(window), number)
      ensures removed <==> window != old(window)
    {
      var index := 0;
      ghost var before := window;
      while index < |window|
        invariant 0 <= index <= |window| && window == before
        invariant Remove(before, number) == before[..index] + Remove(before[index..], number)
      {
        RemoveStep(before, index, number);
        if window[index].number > number { return false; }
        if window[index].number == number {
          window := window[..index] + window[index + 1..];
          return true;
        }
        index := index + 1;
      }
      assert before[..index] + before[index..] == before && before[index..] == [];
      removed := false;
    }

    method OnAckNumber(number: nat)
      modifies this`window, this`firstUnacked
      ensures View() == ProcessAck(old(View()), number)
    {
      if WrappingSub(number, firstUnacked) > 0x7FFF_FFFF || WrappingSub(number, next) < 0x7FFF_FFFF { return; }
      var removed := RemoveNumber(number);
      if removed { FindFirstUnacknowledged(); }
    }

    method OnAckSegment(receivingNext: nat, numbers: seq<nat>)
      modifies this`window, this`firstUnacked
      ensures View() == SenderOnAck(old(View()), receivingNext, numbers)
    {
      if closed { return; }
      OnReceivingNext(receivingNext);
      ghost var start := View();
      var i := 0;
      while i < |numbers|
        invariant 0 <= i <= |numbers| && closed == old(closed) && next == old(next)
        invariant View() == ProcessAcks(start, numbers[..i])
      {
        assert numbers[..i + 1][..i] == numbers[..i];
        OnAckNumber(numbers[i]);
        i := i + 1;
      }
      assert numbers[..i] == numbers;
    }

    method PushPayload(payload: Bytes) returns (ok: bool)
      modifies this`window, this`next
      ensures ok == Push(cfg, old(View()), payload).Some?
      ensures View() == if ok then Push(cfg, old(View()), payload).value else old(View())
    {
      if closed || |window| > cfg.sendBuffer { return false; }
      window := window + [Unacked(next, payload)];
      next := (next + 1) % MODULUS;
      ok := true;
    }

    // Queues chunks of the data until one is refused.
    method WriteChunks(data: Bytes) returns (pieces: seq<Bytes>)
      requires cfg.chunk > 0
      modifies this`window, this`next
      ensures PushChunks(cfg, old(View()), data) == (View(), pieces)
    {
      pieces := [];
      var rest := data;
      ghost var spec := PushChunks(cfg, View(), data);
      assert [] + spec.1 == spec.1;
      while rest != []
        invariant spec == (PushChunks(cfg, View(), rest).0, pieces + PushChunks(cfg, View(), rest).1)
        decreases |rest|
      {
        var piece := if cfg.chunk < |rest| then rest[..cfg.chunk] else rest;
        var ok := PushPayload(piece);
        if !ok {
          assert pieces + [] == pieces;
          return;
        }
        assert forall more :: pieces + ([piece] + more) == pieces + [piece] + more;
        pieces := pieces + [piece];
        rest := rest[|piece|..];
      }
      assert pieces + [] == pieces;
    }
  }

  class ReceivingWorker {
    const cfg: Config
    var leftOver: Bytes
    var window: map<nat, Bytes>
    var acks: seq<nat>
    var next: nat

    ghost function View(): Receiver
      reads this
    {
      Receiver(leftOver, window, acks, next)
    }

    constructor (cfg: Config)
      ensures this.cfg == cfg && View() == Fresh.receiving
    {
      this.cfg := cfg;
      leftOver, window, acks, next := [], map[], [], 0;
    }

    // Compacts the list in place and cuts it to the numbers kept.
    method ClearAcknowledged(una: nat)
      modifies this`acks
      ensures acks == ClearAcks(old(acks), una)
    {
      ghost var before := acks;
      var count, i := 0, 0;
      while i < |acks|
        invariant 0 <= count <= i <= |acks| == |before|
        invariant acks[..count] == ClearAcks(before[..i], una)
        invariant acks[i..] == before[i..]
      {
        assert before[..i + 1][..i] == before[..i] && acks[i] == before[i];
        if acks[i] >= una {
          acks := acks[count := acks[i]];
          count := count + 1;
        }
        i := i + 1;
      }
      assert before[..i] == before;
      acks := acks[..count];
    }

    method OnData(number: nat, sendingNext: nat, payload: Bytes)
      modifies this`acks, this`window
      ensures View() == ReceiveData(cfg, old(View()), number, sendingNext, payload)
    {
      if WrappingSub(number, next) >= cfg.receiveWindow { return; }
      ClearAcknowledged(sendingNext);
      acks := acks + [number];
      if number !in window { window := window[number := payload]; }
    }

    method DrainWindow()
      modifies this`leftOver, this`window, this`next
      ensures View() == Drain(old(View()))
    {
      while next in window
        invariant Drain(View()) == Drain(old(View())) && acks == old(acks)
        decreases |window|
      {
        DrainShrinks(View());
        leftOver := leftOver + window[next];
        window := window - {next};
        next := (next + 1) % MODULUS;
      }
    }

    method TakeBytes(count: nat) returns (bytes: Bytes)
      modifies this`leftOver, this`window, this`next
      ensures (View(), bytes) == ReadReceiver(old(View()), count)
    {
      hide Drain;
      if leftOver == [] { DrainWindow(); }
      var n := if count <= |leftOver| then count else |leftOver|;
      bytes := leftOver[..n];
      leftOver := leftOver[n..];
    }
  }

  /** Why a write took nothing. */
  datatype Blocked = WriteClosed | WindowFull

  class Machine {
    const cfg: Config
    const sending: SendingWorker
    const receiving: ReceivingWorker
    var phase: Phase

    ghost function View(): Engine
      reads this, sending, receiving
    {
      Engine(phase, sending.View(), receiving.View())
    }

    ghost predicate Valid()
      reads this
    {
      sending.cfg == cfg && receiving.cfg == cfg
    }

    constructor (cfg: Config)
      ensures Valid() && this.cfg == cfg && View() == Fresh && fresh(sending) && fresh(receiving)
    {
      this.cfg := cfg;
      sending := new SendingWorker(cfg);
      receiving := new ReceivingWorker(cfg);
      phase := Active;
    }

    method Enter(phase: Phase)
      modifies this, sending, receiving
      ensures View() == SetPhase(old(View()), phase)
    {
      this.phase := phase;
      match phase {
        case Active =>
        case ReadyToClose =>
        case PeerClosed => sending.Clear(LAST_NUMBER);
        case Terminating => sending.Clear(LAST_NUMBER);
        case PeerTerminating => sending.Clear(LAST_NUMBER);
        case Terminated =>
          sending.Clear(LAST_NUMBER);
          sending.window, sending.closed := [], true;
          receiving.leftOver := [];
      }
    }

    // False when the connection was closed already.
    method CloseEnd() returns (closed: bool)
      modifies this, sending, receiving
      ensures View() == Close(old(View())) && (closed <==> phase != old(phase))
    {
      match phase {
        case Active => Enter(ReadyToClose);
        case PeerClosed => Enter(Terminating);
        case PeerTerminating => Enter(Terminated);
        case _ => return false;
      }
      closed := true;
    }

    method PeerHasClosed()
      modifies this, sending, receiving
      ensures View() == OnPeerClosed(old(View()))
    {
      if phase == ReadyToClose {
        Enter(Terminating);
      } else if phase == Active {
        Enter(PeerClosed);
      }
    }

    method PeerTerminates()
      modifies this, sending, receiving
      ensures View() == OnTerminate(old(View()))
    {
      match phase {
        case Active => Enter(PeerTerminating);
        case PeerClosed => Enter(PeerTerminating);
        case ReadyToClose => Enter(Terminating);
        case Terminating => Enter(Terminated);
        case _ =>
      }
    }

    method OnSegment(segment: Segment)
      requires Valid()
      modifies this, sending, receiving
      ensures View() == Input(cfg, old(View()), segment)
    {
      hide SetPhase, ReceiveData, SenderOnAck, ProcessReceivingNext, ClearAcks, OnPeerClosed, OnTerminate;
      if segment.closing { PeerHasClosed(); }
      match segment {
        case Data(_, number, sendingNext, payload) => receiving.OnData(number, sendingNext, payload);
        case Ack(_, receivingNext, numbers) => sending.OnAckSegment(receivingNext, numbers);
        case Cmd(_, terminate, sendingNext, receivingNext) =>
          if terminate { PeerTerminates(); }
          sending.OnReceivingNext(receivingNext);
          receiving.ClearAcknowledged(sendingNext);
      }
    }

    method ReadBytes(count: nat) returns (bytes: Option<Bytes>)
      modifies receiving
      ensures (View(), bytes) == Read(old(View()), count)
    {
      if phase == ReadyToClose || phase == Terminating || phase == Terminated { return None; }
      var taken := receiving.TakeBytes(count);
      if taken == [] && phase == PeerTerminating { return None; }
      bytes := Some(taken);
    }

    method WriteBytes(data: Bytes) returns (pieces: seq<Bytes>, blocked: Option<Blocked>)
      requires Valid() && cfg.chunk > 0
      modifies sending
      ensures (View(), pieces) == Write(cfg, old(View()), data)
      ensures blocked == if pieces != [] then None else Some(if phase == Active then WindowFull else WriteClosed)
    {
      if phase != Active { return [], Some(WriteClosed); }
      pieces := sending.WriteChunks(data);
      blocked := if pieces == [] then Some(WindowFull) else None;
    }

    method SendAcks(ackLists: seq<seq<nat>>) returns (segments: set<Segment>)
      ensures segments == AckEmissions(View(), ackLists)
    {
      segments := {};
      for i := 0 to |ackLists|
        invariant segments == AckEmissions(View(), ackLists[..i])
      {
        assert ackLists[..i + 1] == ackLists[..i] + [ackLists[i]];
        if Pending(receiving.acks, ackLists[i]) {
          segments := segments + {Ack(phase == ReadyToClose, receiving.next, ackLists[i])};
        }
      }
      assert ackLists[..|ackLists|] == ackLists;
    }

    method SendData(transmit: seq<nat>) returns (segments: set<Segment>)
      ensures segments == DataEmissions(View(), transmit)
    {
      segments := {};
      if sending.closed { return; }
      for i := 0 to |transmit|
        invariant segments == DataEmissions(View(), transmit[..i])
      {
        assert transmit[..i + 1] == transmit[..i] + [transmit[i]];
        if transmit[i] < |sending.window| {
          var u := sending.window[transmit[i]];
          segments := segments + {Data(phase == ReadyToClose, u.number, sending.firstUnacked, u.payload)};
        }
      }
      assert transmit[..|transmit|] == transmit;
    }

    method FlushOpening(timers: Timers)
      modifies this, sending, receiving
      ensures View() == FlushHead(old(View()), timers)
    {
      hide CloseWrite;
      if phase == Active && timers.idle { var _ := CloseEnd(); }
      if phase == ReadyToClose && sending.window == [] { Enter(Terminating); }
    }

    method FlushClosing(timers: Timers)
      modifies this, sending, receiving
      ensures View() == FlushTail(old(View()), timers)
    {
      if phase == PeerTerminating && timers.peerTerminating { Enter(Terminating); }
      if phase == ReadyToClose && timers.closing { Enter(Terminating); }
    }

    method FlushAll(timers: Timers, ackLists: seq<seq<nat>>, transmit: seq<nat>, ping: bool)
      returns (segments: set<Segment>)
      modifies this, sending, receiving
      ensures (View(), segments) == Flush(old(View()), timers, ackLists, transmit, ping)
    {
      hide FlushHead, FlushTail, AckEmissions, DataEmissions;
      segments := {};
      if phase == Terminated { return; }
      FlushOpening(timers);
      if phase == Terminating {
        segments := {Cmd(false, true, sending.firstUnacked, receiving.next)};
        if timers.terminating { Enter(Terminated); }
        return;
      }
      FlushClosing(timers);
      var acks := SendAcks(ackLists);
      var data := SendData(transmit);
      segments := acks + data;
      if ping {
        segments := segments + {Cmd(phase == ReadyToClose, false, sending.firstUnacked, receiving.next)};
      }
      assert segments == Emissions(View(), ackLists, transmit, ping);
    }
  }

  // One turn of the search for a number.
  lemma RemoveStep(window: seq<Unacked>, index: nat, number: nat)
    requires index < |window|
    ensures var here, done := window[index].number, window[..index] + Remove(window[index..], number);
            && (here > number ==> done == window)
            && (here == number ==> done == window[..index] + window[index + 1..])
            && (here < number ==> done == window[..index + 1] + Remove(window[index + 1..], number))
  {
    assert window[index..][0] == window[index] && window[index..][1..] == window[index + 1..];
    assert window[..index] + [window[index]] == window[..index + 1];
    assert window[..index] + window[index..] == window;
    var more := Remove(window[index + 1..], number);
    assert window[..index] + ([window[index]] + more) == (window[..index] + [window[index]]) + more;
  }
}
