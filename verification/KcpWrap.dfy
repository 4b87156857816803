/**
 What happens at 2^32 segments: segment numbers are 32 bits wide and come
 round, so a copy of the first segment that the network kept is taken for the
 next one. A run that does this bounds the reliability results exactly.
 */
module KcpWrap {
  import opened Wire
  import opened KcpEngine
  import opened KcpReliability

  const BYTE: Bytes := [0]
  const QUIET := Timers(false, false, false, false)

  // The data segment numbered n as the left end sends it when nothing else is unacknowledged.
  function Numbered(n: nat): Segment {
    Data(false, n, n, BYTE)
  }

  const STALE := Numbered(0)

  // The acknowledgement of the last number but one, which says that 2^32 - 1 comes next.
  const STALE_ACK := Ack(false, LAST_NUMBER, [LAST_NUMBER - 1])

  /** Both ends idle after n one-byte segments have been written, read and acknowledged. */
  ghost predicate Idle(s: System, n: nat) {
    && s.left.phase == Active && s.left.sending == Sender([], n % MODULUS, n % MODULUS, false)
    && s.right.phase == Active
    && s.right.receiving == Receiver([], map[], s.right.receiving.acks, n % MODULUS)
    && |s.wroteLeft| == n && s.wroteRight == [] && s.readLeft == [] && s.readRight == Concat(s.wroteLeft)
    && !s.discardedLeft
    && (n > 0 ==> STALE in s.fromLeft)
    && (n >= LAST_NUMBER ==> STALE_ACK in s.fromRight)
  }

  // ---- One byte across

  function Left(action: Action): Turn { Turn(true, action) }
  function Right(action: Action): Turn { Turn(false, action) }

  lemma Written(cfg: Config, s: System, n: nat)
    requires cfg.chunk > 0 && Idle(s, n) && n < MODULUS
    ensures Step(cfg, s, Left(Writing(BYTE))) ==
            s.(left := s.left.(sending := Sender([Unacked(n, BYTE)], (n + 1) % MODULUS, n, false)),
               wroteLeft := s.wroteLeft + [BYTE])
  {
    var pushed := Push(cfg, s.left.sending, BYTE).value;
    assert PushChunks(cfg, pushed, BYTE[1..]) == (pushed, []);
    assert PushChunks(cfg, s.left.sending, BYTE) == (pushed, [BYTE] + []);
    assert [BYTE] + [] == [BYTE];
  }

  lemma Sent(cfg: Config, s: System, n: nat)
    requires cfg.chunk > 0 && s.left.phase == Active && !s.left.sending.closed
    requires s.left.sending.window == [Unacked(n, BYTE)] && s.left.sending.firstUnacked == n
    ensures Step(cfg, s, Left(Flushing(QUIET, [], [0], false))) ==
            s.(fromLeft := s.fromLeft + {Numbered(n)})
  {
    assert AckEmissions(s.left, []) == {};
    assert DataEmissions(s.left, [0]) == {Numbered(n)} by {
      assert [0][0] == 0;
    }
    assert Emissions(s.left, [], [0], false) == {Numbered(n)};
  }

  lemma Arrived(cfg: Config, s: System, n: nat)
    requires cfg.chunk > 0 && cfg.receiveWindow > 0 && n < MODULUS
    requires Numbered(n) in s.fromLeft && s.right.receiving.next == n && s.right.receiving.window == map[]
    ensures var rx := s.right.receiving;
            Step(cfg, s, Right(Arriving(Numbered(n)))) ==
            s.(right := s.right.(receiving := rx.(acks := ClearAcks(rx.acks, n) + [n], window := map[n := BYTE])))
  {
    assert WrappingSub(n, n) == 0;
  }

  lemma ReadOne(cfg: Config, s: System, n: nat)
    requires cfg.chunk > 0 && s.right.phase == Active && n < MODULUS
    requires s.right.receiving.leftOver == [] && s.right.receiving.next == n
    requires s.right.receiving.window == map[n := BYTE]
    ensures var rx := s.right.receiving;
            Step(cfg, s, Right(Reading(1))) ==
            s.(right := s.right.(receiving := rx.(window := map[], next := (n + 1) % MODULUS)),
               readRight := s.readRight + BYTE)
  {
    var rx := s.right.receiving;
    var drained := DrainOne(rx);
    assert drained == rx.(leftOver := BYTE, window := map[], next := (n + 1) % MODULUS) by {
      assert [] + BYTE == BYTE;
      assert map[n := BYTE] - {n} == map[];
    }
    assert Drain(rx) == Drain(drained) == drained;
    assert BYTE[..1] == BYTE && BYTE[1..] == [];
  }

  lemma Acknowledged(cfg: Config, s: System, n: nat)
    requires cfg.chunk > 0 && s.right.phase == Active && n in s.right.receiving.acks
    ensures Ack(false, s.right.receiving.next, [n]) in Step(cfg, s, Right(Flushing(QUIET, [[n]], [], false))).fromRight
    ensures var t := Step(cfg, s, Right(Flushing(QUIET, [[n]], [], false)));
            t == s.(fromRight := t.fromRight) && s.fromRight <= t.fromRight
  {
    var ackLists := [[n]];
    assert ackLists[0] == [n] && Pending(s.right.receiving.acks, ackLists[0]);
    assert Ack(false, s.right.receiving.next, ackLists[0]) in AckEmissions(s.right, ackLists);
  }

  // The number 2^32 - 1 leaves the window by the list alone: the cumulative number has become 0.
  lemma Removed(n: nat)
    requires n < MODULUS
    ensures SenderOnAck(Sender([Unacked(n, BYTE)], (n + 1) % MODULUS, n, false), (n + 1) % MODULUS, [n]) ==
            Sender([], (n + 1) % MODULUS, (n + 1) % MODULUS, false)
  {
    var tx := Sender([Unacked(n, BYTE)], (n + 1) % MODULUS, n, false);
    var next := (n + 1) % MODULUS;
    var cleared := ProcessReceivingNext(tx, next);
    assert [n][..0] == [];
    assert ProcessAcks(cleared, [n]) == ProcessAck(cleared, n);
    assert tx.window[1..] == [];
    if n < LAST_NUMBER {
      assert next == n + 1;
      assert ClearBelow(tx.window, next) == ClearBelow(tx.window[1..], next) == [];
    } else {
      assert cleared == tx;
      assert WrappingSub(n, n) == 0 && WrappingSub(n, next) == LAST_NUMBER;
    }
  }

  lemma Cleared(cfg: Config, s: System, n: nat)
    requires cfg.chunk > 0 && n < MODULUS && Ack(false, (n + 1) % MODULUS, [n]) in s.fromRight && s.left.phase == Active
    requires s.left.sending == Sender([Unacked(n, BYTE)], (n + 1) % MODULUS, n, false)
    ensures Step(cfg, s, Left(Arriving(Ack(false, (n + 1) % MODULUS, [n])))) ==
            s.(left := s.left.(sending := Sender([], (n + 1) % MODULUS, (n + 1) % MODULUS, false)))
  {
    hide SenderOnAck;
    Removed(n);
  }

  // The four turns that take one more byte across, after the given ones.
  function Delivery(turns: seq<Turn>, n: nat): seq<Turn> {
    turns + [Left(Writing(BYTE))] + [Left(Flushing(QUIET, [], [0], false))]
    + [Right(Arriving(Numbered(n)))] + [Right(Reading(1))]
  }

  /** And the two that acknowledge it. */
  function Cycle(turns: seq<Turn>, n: nat): seq<Turn> {
    Delivery(turns, n)
    + [Right(Flushing(QUIET, [[n]], [], false))] + [Left(Arriving(Ack(false, (n + 1) % MODULUS, [n])))]
  }

  lemma RunNext(cfg: Config, turns: seq<Turn>, turn: Turn)
    requires cfg.chunk > 0
    ensures Run(cfg, turns + [turn]) == Step(cfg, Run(cfg, turns), turn)
  {
    assert (turns + [turn])[..|turns|] == turns;
  }

  // The byte has been read and waits for its acknowledgement.
  ghost predicate Unacknowledged(s: System, n: nat) {
    && s.left.phase == Active && s.left.sending == Sender([Unacked(n, BYTE)], (n + 1) % MODULUS, n, false)
    && s.right.phase == Active && n in s.right.receiving.acks
    && s.right.receiving == Receiver([], map[], s.right.receiving.acks, (n + 1) % MODULUS)
    && |s.wroteLeft| == n + 1 && s.wroteRight == [] && s.readLeft == [] && s.readRight == Concat(s.wroteLeft)
    && !s.discardedLeft && STALE in s.fromLeft && (n >= LAST_NUMBER ==> STALE_ACK in s.fromRight)
  }

  lemma Delivered(cfg: Config, turns: seq<Turn>, n: nat)
    requires cfg.chunk > 0 && cfg.receiveWindow > 0 && n < MODULUS && Idle(Run(cfg, turns), n)
    ensures Unacknowledged(Run(cfg, Delivery(turns, n)), n)
  {
    hide Run, Step;
    var s := Run(cfg, turns);
    var one := turns + [Left(Writing(BYTE))];
    RunNext(cfg, turns, Left(Writing(BYTE)));
    Written(cfg, s, n);
    var two := one + [Left(Flushing(QUIET, [], [0], false))];
    RunNext(cfg, one, Left(Flushing(QUIET, [], [0], false)));
    Sent(cfg, Run(cfg, one), n);
    var three := two + [Right(Arriving(Numbered(n)))];
    RunNext(cfg, two, Right(Arriving(Numbered(n))));
    Arrived(cfg, Run(cfg, two), n);
    RunNext(cfg, three, Right(Reading(1)));
    ReadOne(cfg, Run(cfg, three), n);
    ConcatNext(s.wroteLeft, BYTE);
  }

  lemma Cycled(cfg: Config, turns: seq<Turn>, n: nat)
    requires cfg.chunk > 0 && cfg.receiveWindow > 0 && n < MODULUS && Idle(Run(cfg, turns), n)
    ensures Idle(Run(cfg, Cycle(turns, n)), n + 1)
  {
    hide Run, Step;
    Delivered(cfg, turns, n);
    var four := Delivery(turns, n);
    var five := four + [Right(Flushing(QUIET, [[n]], [], false))];
    RunNext(cfg, four, Right(Flushing(QUIET, [[n]], [], false)));
    Acknowledged(cfg, Run(cfg, four), n);
    RunNext(cfg, five, Left(Arriving(Ack(false, (n + 1) % MODULUS, [n]))));
    Cleared(cfg, Run(cfg, five), n);
  }

  // ---- Round the numbers

  function Around(n: nat): seq<Turn> {
    if n == 0 then [] else Cycle(Around(n - 1), n - 1)
  }

  lemma {:induction false} AroundIsIdle(cfg: Config, n: nat)
    requires cfg.chunk > 0 && cfg.receiveWindow > 0 && n <= MODULUS
    ensures Idle(Run(cfg, Around(n)), n)
  {
    if n > 0 {
      AroundIsIdle(cfg, n - 1);
      Cycled(cfg, Around(n - 1), n - 1);
    }
  }

  /** Every number once, then the kept copy of segment 0 arrives and is read. */
  function OnceTooOften(): seq<Turn> {
    Around(MODULUS) + [Right(Arriving(STALE))] + [Right(Reading(1))]
  }

  /** A run of 2^32 segments in which the right end reads one byte more than was ever written,
      although the left end has nothing left to send and has discarded nothing. */
  lemma NumbersRepeatAfterWrap(cfg: Config)
    requires cfg.chunk > 0 && cfg.receiveWindow > 0
    ensures var s := Run(cfg, OnceTooOften());
            && |s.wroteLeft| == MODULUS && s.wroteRight == [] && s.readRight == Concat(s.wroteLeft) + BYTE
            && s.left.sending.window == [] && !s.discardedLeft && s.right.phase == Active
  {
    hide Run, Step, Around;
    var turns := Around(MODULUS);
    AroundIsIdle(cfg, MODULUS);
    RunNext(cfg, turns, Right(Arriving(STALE)));
    Arrived(cfg, Run(cfg, turns), 0);
    RunNext(cfg, turns + [Right(Arriving(STALE))], Right(Reading(1)));
    ReadOne(cfg, Run(cfg, turns + [Right(Arriving(STALE))]), 0);
  }

  /** Every number once, one more segment, and the kept acknowledgement of the number before the
      last arrives. */
  function OneTooMany(): seq<Turn> {
    Around(MODULUS) + [Left(Writing(BYTE))] + [Left(Arriving(STALE_ACK))]
  }

  // The stale cumulative number is above the new segment's 0.
  lemma StaleAckClears()
    ensures SenderOnAck(Sender([Unacked(0, BYTE)], 1, 0, false), LAST_NUMBER, [LAST_NUMBER - 1]) ==
            Sender([], 1, 1, false)
  {
    var tx := Sender([Unacked(0, BYTE)], 1, 0, false);
    assert tx.window[1..] == [];
    assert ClearBelow(tx.window, LAST_NUMBER) == ClearBelow(tx.window[1..], LAST_NUMBER) == [];
    var cleared := ProcessReceivingNext(tx, LAST_NUMBER);
    assert [LAST_NUMBER - 1][..0] == [];
    assert ProcessAcks(cleared, [LAST_NUMBER - 1]) == ProcessAck(cleared, LAST_NUMBER - 1);
    assert WrappingSub(LAST_NUMBER - 1, 1) == LAST_NUMBER - 2;
  }

  /** A run of 2^32 + 1 segments whose last byte is gone: the left end has dropped it as
      acknowledged, discarding nothing, and it never left. */
  lemma StaleAckLosesSegment(cfg: Config)
    requires cfg.chunk > 0 && cfg.receiveWindow > 0
    ensures var s := Run(cfg, OneTooMany());
            && |s.wroteLeft| == MODULUS + 1 && s.readRight + BYTE == Concat(s.wroteLeft)
            && s.left.sending.window == [] && !s.discardedLeft
            && s.right.phase == Active && s.right.receiving.leftOver == [] && s.right.receiving.window == map[]
  {
    hide Run, Step, Around;
    var turns := Around(MODULUS);
    AroundIsIdle(cfg, MODULUS);
    var s := Run(cfg, turns);
    RunNext(cfg, turns, Left(Writing(BYTE)));
    WrittenAgain(cfg, s);
    var more := turns + [Left(Writing(BYTE))];
    RunNext(cfg, more, Left(Arriving(STALE_ACK)));
    ClearedAgain(cfg, Run(cfg, more));
    ConcatNext(s.wroteLeft, BYTE);
  }

  lemma WrittenAgain(cfg: Config, s: System)
    requires cfg.chunk > 0 && Idle(s, MODULUS)
    ensures Step(cfg, s, Left(Writing(BYTE))) ==
            s.(left := s.left.(sending := Sender([Unacked(0, BYTE)], 1, 0, false)), wroteLeft := s.wroteLeft + [BYTE])
  {
    var pushed := Push(cfg, s.left.sending, BYTE).value;
    assert PushChunks(cfg, pushed, BYTE[1..]) == (pushed, []);
    assert PushChunks(cfg, s.left.sending, BYTE) == (pushed, [BYTE] + []);
    assert [BYTE] + [] == [BYTE];
  }

  lemma ClearedAgain(cfg: Config, s: System)
    requires cfg.chunk > 0 && STALE_ACK in s.fromRight && s.left.phase == Active
    requires s.left.sending == Sender([Unacked(0, BYTE)], 1, 0, false)
    ensures Step(cfg, s, Left(Arriving(STALE_ACK))) == s.(left := s.left.(sending := Sender([], 1, 1, false)))
  {
    hide SenderOnAck;
    StaleAckClears();
  }

  // ---- The exact bound

  /** Neither end reads anything but a prefix of what the other wrote. */
  ghost predicate Faithful(s: System) {
    s.readRight <= Concat(s.wroteLeft) && s.readLeft <= Concat(s.wroteRight)
  }

  /** If the left end has nothing unacknowledged and dropped nothing, its whole stream has been read
      or waits at a right end that is still open. */
  ghost predicate Complete(s: System) {
    s.left.sending.window == [] && !s.discardedLeft && s.right.phase != Terminated ==>
      s.readRight + s.right.receiving.leftOver + Drain(s.right.receiving.(leftOver := [])).leftOver
      == Concat(s.wroteLeft)
  }

  /** Unless the left end dropped data, every number it has used is unacknowledged or, by the number
      the receiver expects, has arrived. At 2^32 the numbers stop telling; StaleAckLosesSegment is
      a run that loses data. */
  ghost predicate Accounted(s: System) {
    !s.discardedLeft ==>
      forall n: nat :: n < |s.wroteLeft| ==> InWindow(s.left.sending, n) || Received(s.right.receiving, n)
  }

  ghost predicate Within(s: System, limit: nat) {
    |s.wroteLeft| <= limit && |s.wroteRight| <= limit
  }

  // Once the receiver expects 0 again, the numbers no longer tell what has arrived.
  lemma NumbersUnaccounted(cfg: Config)
    requires cfg.chunk > 0 && cfg.receiveWindow > 0
    ensures var s := Run(cfg, Around(MODULUS)); |s.wroteLeft| == MODULUS && s.wroteRight == [] && !Accounted(s)
  {
    hide Run, Around;
    AroundIsIdle(cfg, MODULUS);
    var s := Run(cfg, Around(MODULUS));
    assert !InWindow(s.left.sending, 0) && !Received(s.right.receiving, 0);
  }

  /** In-order delivery, completeness and accounting hold of every run of at most `limit` segments an end if
      and only if the limit is below 2^32. */
  lemma ReliableExactlyBelowWrap(cfg: Config, limit: nat)
    requires cfg.chunk > 0 && cfg.receiveWindow > 0
    ensures (forall turns :: Within(Run(cfg, turns), limit) ==> Faithful(Run(cfg, turns))) <==> limit < MODULUS
    ensures (forall turns :: Within(Run(cfg, turns), limit) ==> Complete(Run(cfg, turns))) <==> limit < MODULUS
    ensures (forall turns :: Within(Run(cfg, turns), limit) ==> Accounted(Run(cfg, turns))) <==> limit < MODULUS
  {
    hide Run, Drain, Concat, Around, OnceTooOften;
    if limit < MODULUS {
      forall turns | Within(Run(cfg, turns), limit)
        ensures Faithful(Run(cfg, turns)) && Complete(Run(cfg, turns)) && Accounted(Run(cfg, turns))
      {
        ReadsArePrefixOfWrites(cfg, turns);
        var s := Run(cfg, turns);
        forall n: nat | !s.discardedLeft && n < |s.wroteLeft|
          ensures InWindow(s.left.sending, n) || Received(s.right.receiving, n)
        {
          NothingIsLost(cfg, turns, n);
        }
        if s.left.sending.window == [] && !s.discardedLeft && s.right.phase != Terminated {
          OrderlyCloseIsComplete(cfg, turns);
        }
      }
    } else {
      NumbersRepeatAfterWrap(cfg);
      assert Within(Run(cfg, OnceTooOften()), limit);
      assert !Faithful(Run(cfg, OnceTooOften()));
      assert !Complete(Run(cfg, OnceTooOften()));
      NumbersUnaccounted(cfg);
      assert Within(Run(cfg, Around(MODULUS)), limit);
    }
  }
}
