/**
 mKCP segments on the wire: what the engine encodes, and the reader of the
 segments of a datagram.
 */
module KcpSegments {
  import opened Options
  import opened Wire

  const CMD_ACK: byte := 0
  const CMD_DATA: byte := 1

  datatype Segment =
    | Data(conv: nat, option: byte, timestamp: nat, number: nat, sendingNext: nat, payload: Bytes)
    | Ack(conv: nat, option: byte, receivingWindow: nat, receivingNext: nat, timestamp: nat, numbers: seq<nat>)
    | Cmd(conv: nat, cmd: byte, option: byte, sendingNext: nat, receivingNext: nat, peerRto: nat)

  predicate IsU32(n: nat) {
    n < 0x1_0000_0000
  }

  /** The fields are of their Rust types, the lengths fit their fields, and a command is not one of
      the two that have bodies of their own. */
  predicate Fits(s: Segment) {
    && s.conv < 0x1_0000
    && match s
       case Data(_, _, timestamp, number, next, payload) =>
         IsU32(timestamp) && IsU32(number) && IsU32(next) && |payload| < 0x1_0000
       case Ack(_, _, window, next, timestamp, numbers) =>
         && IsU32(window) && IsU32(next) && IsU32(timestamp) && |numbers| < 0x100
         && (forall i :: 0 <= i < |numbers| ==> IsU32(numbers[i]))
       case Cmd(_, cmd, _, next, receiving, rto) =>
         IsU32(next) && IsU32(receiving) && IsU32(rto) && cmd != CMD_ACK && cmd != CMD_DATA
  }

  // ---- 32-bit fields

  function U32(n: nat): (s: Bytes)
    requires IsU32(n)
    ensures |s| == 4
  {
    [n / 0x100_0000, n / 0x1_0000 % 0x100, n / 0x100 % 0x100, n % 0x100]
  }

  function U32At(s: Bytes): (n: nat)
    requires |s| >= 4
    ensures IsU32(n)
  {
    s[0] as nat * 0x100_0000 + s[1] as nat * 0x1_0000 + s[2] as nat * 0x100 + s[3] as nat
  }

  lemma U32Written(n: nat, rest: Bytes)
    requires IsU32(n)
    ensures U32At(U32(n) + rest) == n && (U32(n) + rest)[4..] == rest
  {
    assert n / 0x1_0000 == n / 0x100_0000 * 0x100 + n / 0x1_0000 % 0x100;
    assert n / 0x100 == n / 0x1_0000 * 0x100 + n / 0x100 % 0x100;
  }

  lemma Digits(a: byte, b: byte, c: byte, d: byte)
    ensures var n: nat := a as nat * 0x100_0000 + b as nat * 0x1_0000 + c as nat * 0x100 + d as nat;
            && n / 0x100_0000 == a && n / 0x1_0000 % 0x100 == b && n / 0x100 % 0x100 == c && n % 0x100 == d
  {
    var n: nat := a as nat * 0x100_0000 + b as nat * 0x1_0000 + c as nat * 0x100 + d as nat;
    assert n / 0x100 == a as nat * 0x1_0000 + b as nat * 0x100 + c as nat;
    assert n / 0x1_0000 == a as nat * 0x100 + b as nat;
  }

  lemma U32Read(s: Bytes)
    requires |s| >= 4
    ensures s == U32(U32At(s)) + s[4..]
  {
    Digits(s[0], s[1], s[2], s[3]);
    assert s == [s[0], s[1], s[2], s[3]] + s[4..];
  }

  // Three 32-bit fields in a row.
  function Triple(a: nat, b: nat, c: nat): (s: Bytes)
    requires IsU32(a) && IsU32(b) && IsU32(c)
    ensures |s| == 12
  {
    U32(a) + U32(b) + U32(c)
  }

  lemma TripleWritten(a: nat, b: nat, c: nat, rest: Bytes)
    requires IsU32(a) && IsU32(b) && IsU32(c)
    ensures var s := Triple(a, b, c) + rest;
            U32At(s) == a && U32At(s[4..]) == b && U32At(s[8..]) == c && s[12..] == rest
  {
    var s := Triple(a, b, c) + rest;
    assert s == U32(a) + (U32(b) + (U32(c) + rest));
    U32Written(a, U32(b) + (U32(c) + rest));
    U32Written(b, U32(c) + rest);
    U32Written(c, rest);
    assert s[8..] == s[4..][4..] && s[12..] == s[4..][4..][4..];
  }

  lemma TripleRead(s: Bytes)
    requires |s| >= 12
    ensures s == Triple(U32At(s), U32At(s[4..]), U32At(s[8..])) + s[12..]
  {
    U32Read(s);
    U32Read(s[4..]);
    U32Read(s[8..]);
    assert s[4..][4..] == s[8..] && s[8..][4..] == s[12..];
  }

  function Words(s: Bytes): (r: seq<nat>)
    requires |s| % 4 == 0
    ensures |r| == |s| / 4
  {
    if s == [] then [] else [U32At(s)] + Words(s[4..])
  }

  function EncodeWords(numbers: seq<nat>): (s: Bytes)
    requires forall i :: 0 <= i < |numbers| ==> IsU32(numbers[i])
    ensures |s| == 4 * |numbers|
  {
    if numbers == [] then [] else U32(numbers[0]) + EncodeWords(numbers[1..])
  }

  lemma {:induction false} WordsWritten(numbers: seq<nat>)
    requires forall i :: 0 <= i < |numbers| ==> IsU32(numbers[i])
    ensures Words(EncodeWords(numbers)) == numbers
  {
    if numbers != [] {
      WordsWritten(numbers[1..]);
      U32Written(numbers[0], EncodeWords(numbers[1..]));
    }
  }

  lemma {:induction false} WordsRead(s: Bytes)
    requires |s| % 4 == 0
    ensures forall i :: 0 <= i < |Words(s)| ==> IsU32(Words(s)[i])
    ensures EncodeWords(Words(s)) == s
  {
    if s != [] {
      WordsRead(s[4..]);
      U32Read(s);
      assert Words(s)[1..] == Words(s[4..]);
    }
  }

  // ---- Segments

  function Head(conv: nat, cmd: byte, option: byte): (s: Bytes)
    requires conv < 0x1_0000
    ensures |s| == 4
  {
    U16(conv) + [cmd, option]
  }

  function Body(s: Segment): Bytes
    requires Fits(s)
  {
    match s
    case Data(_, _, timestamp, number, next, payload) => Triple(timestamp, number, next) + (U16(|payload|) + payload)
    case Ack(_, _, window, next, timestamp, numbers) =>
      Triple(window, next, timestamp) + ([|numbers|] + EncodeWords(numbers))
    case Cmd(_, _, _, next, receiving, rto) => Triple(next, receiving, rto)
  }

  function Command(s: Segment): byte {
    match s
    case Data(_, _, _, _, _, _) => CMD_DATA
    case Ack(_, _, _, _, _, _) => CMD_ACK
    case Cmd(_, cmd, _, _, _, _) => cmd
  }

  function Encode(s: Segment): Bytes
    requires Fits(s)
  {
    Head(s.conv, Command(s), s.option) + Body(s)
  }

  function ReadData(conv: nat, option: byte, buf: Bytes): Option<(Segment, Bytes)> {
    if |buf| < 15 then None
    else
      var length, rest := buf[12] as nat * 0x100 + buf[13] as nat, buf[14..];
      if |rest| < length then None
      else Some((Data(conv, option, U32At(buf), U32At(buf[4..]), U32At(buf[8..]), rest[..length]), rest[length..]))
  }

  function ReadAck(conv: nat, option: byte, buf: Bytes): Option<(Segment, Bytes)> {
    if |buf| < 13 then None
    else
      var size, rest := buf[12] as nat * 4, buf[13..];
      if |rest| < size then None
      else Some((Ack(conv, option, U32At(buf), U32At(buf[4..]), U32At(buf[8..]), Words(rest[..size])), rest[size..]))
  }

  function ReadCmd(conv: nat, cmd: byte, option: byte, buf: Bytes): Option<(Segment, Bytes)> {
    if |buf| < 12 then None
    else Some((Cmd(conv, cmd, option, U32At(buf), U32At(buf[4..]), U32At(buf[8..])), buf[12..]))
  }

  function ReadBody(conv: nat, cmd: byte, option: byte, buf: Bytes): Option<(Segment, Bytes)> {
    if cmd == CMD_DATA then ReadData(conv, option, buf)
    else if cmd == CMD_ACK then ReadAck(conv, option, buf)
    else ReadCmd(conv, cmd, option, buf)
  }

  function ReadSegment(buf: Bytes): Option<(Segment, Bytes)> {
    if |buf| < 4 then None
    else ReadBody(buf[0] as nat * 0x100 + buf[1] as nat, buf[2], buf[3], buf[4..])
  }

  /** What the reader cannot see: a data segment without payload at the very end. */
  predicate Silent(s: Segment, rest: Bytes) {
    s.Data? && s.payload == [] && rest == []
  }

  lemma DataWritten(s: Segment, rest: Bytes)
    requires s.Data? && Fits(s) && !Silent(s, rest)
    ensures ReadData(s.conv, s.option, Body(s) + rest) == Some((s, rest))
  {
    hide U32At, Triple;
    var head, n := Triple(s.timestamp, s.number, s.sendingNext), U16(|s.payload|);
    var buf := head + (n + (s.payload + rest));
    assert Body(s) + rest == buf;
    TripleWritten(s.timestamp, s.number, s.sendingNext, n + (s.payload + rest));
    assert buf[12] == n[0] && buf[13] == n[1] && buf[14..] == s.payload + rest;
  }

  lemma AckWritten(s: Segment, rest: Bytes)
    requires s.Ack? && Fits(s)
    ensures ReadAck(s.conv, s.option, Body(s) + rest) == Some((s, rest))
  {
    hide U32At, Triple, Words, EncodeWords;
    var head, words := Triple(s.receivingWindow, s.receivingNext, s.timestamp), EncodeWords(s.numbers);
    var buf := head + ([|s.numbers|] + (words + rest));
    assert Body(s) + rest == buf;
    TripleWritten(s.receivingWindow, s.receivingNext, s.timestamp, [|s.numbers|] + (words + rest));
    assert buf[12] == |s.numbers| && buf[13..] == words + rest;
    assert buf[13..][..4 * |s.numbers|] == words;
    WordsWritten(s.numbers);
  }

  lemma BodyWritten(s: Segment, rest: Bytes)
    requires Fits(s) && !Silent(s, rest)
    ensures ReadBody(s.conv, Command(s), s.option, Body(s) + rest) == Some((s, rest))
  {
    match s
    case Data(_, _, _, _, _, _) => DataWritten(s, rest);
    case Ack(_, _, _, _, _, _) => AckWritten(s, rest);
    case Cmd(_, _, _, next, receiving, rto) => TripleWritten(next, receiving, rto, rest);
  }

  lemma DataRead(conv: nat, option: byte, buf: Bytes)
    requires conv < 0x1_0000 && ReadData(conv, option, buf).Some?
    ensures var (s, rest) := ReadData(conv, option, buf).value;
            s.Data? && Fits(s) && buf == Body(s) + rest && !Silent(s, rest)
  {
    hide Triple, U32At;
    TripleRead(buf);
    var (s, rest) := ReadData(conv, option, buf).value;
    var tail := buf[12..];
    assert U16(|s.payload|) == [buf[12], buf[13]];
    assert tail == [buf[12], buf[13]] + buf[14..];
    assert buf[14..] == s.payload + rest;
    assert buf == Triple(s.timestamp, s.number, s.sendingNext) + (U16(|s.payload|) + s.payload) + rest;
  }

  lemma AckRead(conv: nat, option: byte, buf: Bytes)
    requires conv < 0x1_0000 && ReadAck(conv, option, buf).Some?
    ensures var (s, rest) := ReadAck(conv, option, buf).value;
            s.Ack? && Fits(s) && buf == Body(s) + rest
  {
    hide Triple, U32At, Words, EncodeWords;
    TripleRead(buf);
    var (s, rest) := ReadAck(conv, option, buf).value;
    var words := buf[13..][..buf[12] as nat * 4];
    WordsRead(words);
    assert buf[12..] == [buf[12]] + buf[13..];
    assert buf[13..] == words + rest;
    assert buf == Triple(s.receivingWindow, s.receivingNext, s.timestamp) + ([|s.numbers|] + words) + rest;
  }

  lemma BodyRead(conv: nat, cmd: byte, option: byte, buf: Bytes, s: Segment, rest: Bytes)
    requires conv < 0x1_0000 && ReadBody(conv, cmd, option, buf) == Some((s, rest))
    ensures Fits(s) && s.conv == conv && Command(s) == cmd && s.option == option
    ensures buf == Body(s) + rest && !Silent(s, rest)
  {
    if cmd == CMD_DATA {
      DataRead(conv, option, buf);
    } else if cmd == CMD_ACK {
      AckRead(conv, option, buf);
    } else {
      TripleRead(buf);
    }
  }

  /** The reader takes exactly the encodings, except an empty data segment at the end. */
  lemma SegmentExact(buf: Bytes, s: Segment, rest: Bytes)
    ensures ReadSegment(buf) == Some((s, rest)) <==> Fits(s) && !Silent(s, rest) && buf == Encode(s) + rest
  {
    hide ReadBody, Body;
    if ReadSegment(buf) == Some((s, rest)) {
      var conv: nat := buf[0] as nat * 0x100 + buf[1] as nat;
      BodyRead(conv, buf[2], buf[3], buf[4..], s, rest);
      assert U16(conv) == [buf[0], buf[1]];
      assert buf == [buf[0], buf[1], buf[2], buf[3]] + buf[4..];
    }
    if Fits(s) && !Silent(s, rest) && buf == Encode(s) + rest {
      BodyWritten(s, rest);
      assert buf[..4] == Head(s.conv, Command(s), s.option);
      assert buf[4..] == Body(s) + rest;
    }
  }

  // ---- Datagrams

  function EncodeAll(segments: seq<Segment>): Bytes
    requires forall i :: 0 <= i < |segments| ==> Fits(segments[i])
  {
    if segments == [] then [] else Encode(segments[0]) + EncodeAll(segments[1..])
  }

  function ReadSegments(buf: Bytes): seq<Segment>
    decreases |buf|
  {
    if buf == [] then [] else
    match ReadSegment(buf)
    case None => []
    case Some((s, rest)) => (ReadShrinks(buf); [s] + ReadSegments(rest))
  }

  lemma ReadShrinks(buf: Bytes)
    ensures ReadSegment(buf).Some? ==> |ReadSegment(buf).value.1| < |buf|
  {
  }

  // read_segments
  method CollectSegments(datagram: Bytes) returns (segments: seq<Segment>)
    ensures segments == ReadSegments(datagram)
  {
    hide ReadSegment;
    var buf := datagram;
    segments := [];
    while buf != []
      invariant segments + ReadSegments(buf) == ReadSegments(datagram)
      decreases |buf|
    {
      ReadShrinks(buf);
      var read := ReadSegment(buf);
      if read.None? { break; }
      assert segments + ([read.value.0] + ReadSegments(read.value.1)) ==
             segments + [read.value.0] + ReadSegments(read.value.1);
      segments := segments + [read.value.0];
      buf := read.value.1;
    }
  }

  /** The segments of a datagram are read back, all of them unless the last is an empty data
      segment, which alone is dropped. */
  lemma {:induction false} DatagramReadBack(segments: seq<Segment>)
    requires forall i :: 0 <= i < |segments| ==> Fits(segments[i])
    ensures ReadSegments(EncodeAll(segments)) ==
            if segments != [] && Silent(segments[|segments| - 1], []) then segments[..|segments| - 1] else segments
  {
    hide ReadSegment, Encode, Silent;
    if segments != [] {
      var first, tail := segments[0], segments[1..];
      DatagramReadBack(tail);
      FirstReadBack(first, EncodeAll(tail));
      if tail == [] {
        assert Encode(first) + EncodeAll(tail) == Encode(first);
      } else {
        EncodingNonempty(tail[0]);
        assert [first] + tail[..|tail| - 1] == segments[..|segments| - 1];
      }
      assert segments == [first] + tail;
    }
  }

  lemma FirstReadBack(first: Segment, rest: Bytes)
    requires Fits(first)
    ensures Encode(first) != [] && (rest != [] ==> !Silent(first, rest))
    ensures ReadSegment(Encode(first) + rest) == if Silent(first, rest) then None else Some((first, rest))
  {
    hide ReadSegment, Encode;
    EncodingNonempty(first);
    if Silent(first, rest) {
      SilentUnread(first);
      assert Encode(first) + rest == Encode(first);
    } else {
      SegmentExact(Encode(first) + rest, first, rest);
    }
  }

  lemma EncodingNonempty(s: Segment)
    requires Fits(s)
    ensures Encode(s) != []
  {
  }

  lemma SilentUnread(s: Segment)
    requires Fits(s) && Silent(s, [])
    ensures ReadSegment(Encode(s)).None?
  {
    assert |Encode(s)[4..]| == 14;
  }
}
