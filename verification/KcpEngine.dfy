/**
 The mKCP engine: the state of one end of a connection and its transitions.
 Clocks are inputs: which timers have run out, and which due segments a flush
 sends, are chosen by the caller, so every schedule is covered.
 */
module KcpEngine {
  import opened Options
  import opened Wire

  const MODULUS := 0x1_0000_0000
  const LAST_NUMBER := 0xFFFF_FFFF

  // u32::wrapping_sub
  function WrappingSub(a: int, b: int): (d: nat)
    ensures d < MODULUS
  {
    (a - b) % MODULUS
  }

  datatype Segment =
    | Data(closing: bool, number: nat, sendingNext: nat, payload: Bytes)
    | Ack(closing: bool, receivingNext: nat, numbers: seq<nat>)
    | Cmd(closing: bool, terminate: bool, sendingNext: nat, receivingNext: nat)

  datatype Phase = Active | ReadyToClose | PeerClosed | Terminating | PeerTerminating | Terminated

  /** A data segment waiting for its acknowledgement. */
  datatype Unacked = Unacked(number: nat, payload: Bytes)

  datatype Sender = Sender(window: seq<Unacked>, next: nat, firstUnacked: nat, closed: bool)

  datatype Receiver = Receiver(leftOver: Bytes, window: map<nat, Bytes>, acks: seq<nat>, next: nat)

  datatype Engine = Engine(phase: Phase, sending: Sender, receiving: Receiver)

  /** Segments the sending window holds beyond, segments the receiver accepts ahead, bytes per segment. */
  datatype Config = Config(sendBuffer: nat, receiveWindow: nat, chunk: nat)

  const Fresh := Engine(Active, Sender([], 0, 0, false), Receiver([], map[], [], 0))

  // ---- Sending worker

  // Drops the front of the window while its numbers are below una.
  function ClearBelow(window: seq<Unacked>, una: nat): seq<Unacked> {
    if window == [] || window[0].number >= una then window else ClearBelow(window[1..], una)
  }

  function FindFirst(s: Sender): Sender {
    s.(firstUnacked := if s.window == [] then s.next else s.window[0].number)
  }

  function ProcessReceivingNext(s: Sender, una: nat): Sender {
    FindFirst(s.(window := ClearBelow(s.window, una)))
  }

  // The window without the segment of this number, searching until a larger number.
  function Remove(window: seq<Unacked>, number: nat): seq<Unacked> {
    if window == [] || window[0].number > number then window
    else if window[0].number == number then window[1..]
    else [window[0]] + Remove(window[1..], number)
  }

  predicate AckInRange(s: Sender, number: nat) {
    WrappingSub(number, s.firstUnacked) <= 0x7FFF_FFFF && WrappingSub(number, s.next) >= 0x7FFF_FFFF
  }

  function ProcessAck(s: Sender, number: nat): Sender {
    if !AckInRange(s, number) then s else
    var window := Remove(s.window, number);
    if window == s.window then s else FindFirst(s.(window := window))
  }

  function ProcessAcks(s: Sender, numbers: seq<nat>): Sender {
    if numbers == [] then s else ProcessAck(ProcessAcks(s, numbers[..|numbers| - 1]), numbers[|numbers| - 1])
  }

  function SenderOnAck(s: Sender, receivingNext: nat, numbers: seq<nat>): Sender {
    if s.closed then s else ProcessAcks(ProcessReceivingNext(s, receivingNext), numbers)
  }

  function Push(cfg: Config, s: Sender, payload: Bytes): Option<Sender> {
    if s.closed || |s.window| > cfg.sendBuffer then None
    else Some(s.(window := s.window + [Unacked(s.next, payload)], next := (s.next + 1) % MODULUS))
  }

  function CloseWrite(s: Sender): Sender {
    s.(window := ClearBelow(s.window, LAST_NUMBER))
  }

  // ---- Receiving worker

  function ClearAcks(acks: seq<nat>, una: nat): seq<nat> {
    if acks == [] then [] else
    var last := |acks| - 1;
    ClearAcks(acks[..last], una) + if acks[last] < una then [] else [acks[last]]
  }

  function ReceiveData(cfg: Config, r: Receiver, number: nat, sendingNext: nat, payload: Bytes): Receiver {
    if WrappingSub(number, r.next) >= cfg.receiveWindow then r else
    r.(acks := ClearAcks(r.acks, sendingNext) + [number],
       window := if number in r.window then r.window else r.window[number := payload])
  }

  // Moves what is in order from the window to the bytes left over.
  function Drain(r: Receiver): Receiver
    decreases |r.window|
  {
    if r.next !in r.window then r else
    DrainShrinks(r);
    Drain(r.(leftOver := r.leftOver + r.window[r.next], window := r.window - {r.next}, next := (r.next + 1) % MODULUS))
  }

  lemma DrainShrinks(r: Receiver)
    requires r.next in r.window
    ensures |r.window - {r.next}| < |r.window|
  {
    assert (r.window - {r.next}).Keys == r.window.Keys - {r.next};
    assert |r.window.Keys - {r.next}| < |r.window.Keys|;
  }

  function ReadReceiver(r: Receiver, count: nat): (Receiver, Bytes) {
    var full := if r.leftOver == [] then Drain(r) else r;
    var n := if count <= |full.leftOver| then count else |full.leftOver|;
    (full.(leftOver := full.leftOver[n..]), full.leftOver[..n])
  }

  // ---- The engine

  function SetPhase(e: Engine, phase: Phase): Engine {
    match phase
    case Active => e.(phase := phase)
    case ReadyToClose => e.(phase := phase)
    case PeerClosed => e.(phase := phase, sending := CloseWrite(e.sending))
    case Terminating => e.(phase := phase, sending := CloseWrite(e.sending))
    case PeerTerminating => e.(phase := phase, sending := CloseWrite(e.sending))
    case Terminated =>
      e.(phase := phase, sending := e.sending.(window := [], closed := true),
         receiving := e.receiving.(leftOver := []))
  }

  function Close(e: Engine): Engine {
    match e.phase
    case Active => SetPhase(e, ReadyToClose)
    case PeerClosed => SetPhase(e, Terminating)
    case PeerTerminating => SetPhase(e, Terminated)
    case _ => e
  }

  function OnPeerClosed(e: Engine): Engine {
    match e.phase
    case ReadyToClose => SetPhase(e, Terminating)
    case Active => SetPhase(e, PeerClosed)
    case _ => e
  }

  function OnTerminate(e: Engine): Engine {
    match e.phase
    case Active => SetPhase(e, PeerTerminating)
    case PeerClosed => SetPhase(e, PeerTerminating)
    case ReadyToClose => SetPhase(e, Terminating)
    case Terminating => SetPhase(e, Terminated)
    case _ => e
  }

  function HandleOption(e: Engine, segment: Segment): Engine {
    if segment.closing then OnPeerClosed(e) else e
  }

  /** One segment of a datagram. */
  function Input(cfg: Config, e: Engine, segment: Segment): Engine {
    var e := HandleOption(e, segment);
    match segment
    case Data(_, number, sendingNext, payload) =>
      e.(receiving := ReceiveData(cfg, e.receiving, number, sendingNext, payload))
    case Ack(_, receivingNext, numbers) =>
      e.(sending := SenderOnAck(e.sending, receivingNext, numbers))
    case Cmd(_, terminate, sendingNext, receivingNext) =>
      var e := if terminate then OnTerminate(e) else e;
      e.(sending := ProcessReceivingNext(e.sending, receivingNext),
         receiving := e.receiving.(acks := ClearAcks(e.receiving.acks, sendingNext)))
  }

  /** What the application reads: None at the end of the stream. */
  function Read(e: Engine, count: nat): (Engine, Option<Bytes>) {
    if e.phase == ReadyToClose || e.phase == Terminating || e.phase == Terminated then (e, None) else
    var (receiving, bytes) := ReadReceiver(e.receiving, count);
    var e := e.(receiving := receiving);
    if bytes == [] && e.phase == PeerTerminating then (e, None) else (e, Some(bytes))
  }

  // Queues data chunk by chunk until the window refuses one; returns the chunks taken.
  function PushChunks(cfg: Config, s: Sender, data: Bytes): (Sender, seq<Bytes>)
    requires cfg.chunk > 0
    decreases |data|
  {
    if data == [] then (s, []) else
    var piece := if cfg.chunk < |data| then data[..cfg.chunk] else data;
    match Push(cfg, s, piece)
    case None => (s, [])
    case Some(s') =>
      var (s'', pieces) := PushChunks(cfg, s', data[|piece|..]);
      (s'', [piece] + pieces)
  }

  function Write(cfg: Config, e: Engine, data: Bytes): (Engine, seq<Bytes>)
    requires cfg.chunk > 0
  {
    if e.phase != Active then (e, []) else
    var (sending, pieces) := PushChunks(cfg, e.sending, data);
    (e.(sending := sending), pieces)
  }

  /** Which of the engine's timers have run out. */
  datatype Timers = Timers(idle: bool, closing: bool, terminating: bool, peerTerminating: bool)

  // The phase changes at the head of a flush, up to the terminating case.
  function FlushHead(e: Engine, timers: Timers): Engine {
    var e := if e.phase == Active && timers.idle then Close(e) else e;
    if e.phase == ReadyToClose && e.sending.window == [] then SetPhase(e, Terminating) else e
  }

  function FlushTail(e: Engine, timers: Timers): Engine {
    var e := if e.phase == PeerTerminating && timers.peerTerminating then SetPhase(e, Terminating) else e;
    if e.phase == ReadyToClose && timers.closing then SetPhase(e, Terminating) else e
  }

  function Ping(e: Engine, terminate: bool): Segment {
    Cmd(e.phase == ReadyToClose, terminate, e.sending.firstUnacked, e.receiving.next)
  }

  predicate Pending(acks: seq<nat>, numbers: seq<nat>) {
    forall j :: 0 <= j < |numbers| ==> numbers[j] in acks
  }

  // Acknowledgement segments over numbers that wait for one.
  function AckEmissions(e: Engine, ackLists: seq<seq<nat>>): set<Segment> {
    set i | 0 <= i < |ackLists| && Pending(e.receiving.acks, ackLists[i])
          :: Ack(e.phase == ReadyToClose, e.receiving.next, ackLists[i])
  }

  // (Re)transmissions from the sending window.
  function DataEmissions(e: Engine, transmit: seq<nat>): set<Segment> {
    set i | 0 <= i < |transmit| && !e.sending.closed && transmit[i] < |e.sending.window|
          :: var u := e.sending.window[transmit[i]];
             Data(e.phase == ReadyToClose, u.number, e.sending.firstUnacked, u.payload)
  }

  function Emissions(e: Engine, ackLists: seq<seq<nat>>, transmit: seq<nat>, ping: bool): set<Segment> {
    AckEmissions(e, ackLists) + DataEmissions(e, transmit) + (if ping then {Ping(e, false)} else {})
  }

  /** A flush: the engine after it and the segments it sends. */
  function Flush(e: Engine, timers: Timers, ackLists: seq<seq<nat>>, transmit: seq<nat>, ping: bool)
    : (Engine, set<Segment>)
  {
    if e.phase == Terminated then (e, {}) else
    var e := FlushHead(e, timers);
    if e.phase == Terminating then
      (if timers.terminating then SetPhase(e, Terminated) else e, {Ping(e, true)})
    else
      var e := FlushTail(e, timers);
      (e, Emissions(e, ackLists, transmit, ping))
  }
}
