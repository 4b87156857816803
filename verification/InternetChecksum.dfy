/**
 The Internet checksum (section 1 of RFC 1071) and the two builders of UDP
 over IPv4 test packets that carry it (section 3.1 of RFC 791, RFC 768).
 */
module InternetChecksum {
  import opened Options
  import opened Wire

  const MAX16 := 65535

  function Padded(data: Bytes): (r: Bytes)
    ensures |r| % 2 == 0
  {
    if |data| % 2 == 1 then data + [0] else data
  }

  function WordSum(data: Bytes): nat
    requires |data| % 2 == 0
  {
    if data == [] then 0 else (data[0] as nat) * 0x100 + data[1] as nat + WordSum(data[2..])
  }

  /** The one's-complement sum as one number: the total modulo 65535, where a total that is not
      zero folds to 65535 rather than to zero. */
  function Folded(total: nat): (r: nat)
    ensures r <= MAX16 && r % MAX16 == total % MAX16 && (r == 0 <==> total == 0)
  {
    if total == 0 then 0 else (total - 1) % MAX16 + 1
  }

  function Checksum(data: Bytes): (c: nat)
    ensures c <= MAX16
  {
    MAX16 - Folded(WordSum(Padded(data)))
  }

  lemma FoldedUnique(total: nat, r: nat)
    requires r <= MAX16 && r % MAX16 == total % MAX16 && (r == 0 <==> total == 0)
    ensures r == Folded(total)
  {
  }

  /** Adding the high half to the low half ends, and never leaves the class of the total. */
  method Fold(total: nat) returns (r: nat)
    ensures r == Folded(total)
  {
    r := total;
    while r / 0x1_0000 != 0
      invariant r % MAX16 == total % MAX16 && (r == 0 <==> total == 0)
      decreases r
    {
      FoldStep(r);
      r := r % 0x1_0000 + r / 0x1_0000;
    }
    FoldedUnique(total, r);
  }

  lemma FoldStep(r: nat)
    ensures (r % 0x1_0000 + r / 0x1_0000) % MAX16 == r % MAX16
    ensures r / 0x1_0000 != 0 ==> 0 < r % 0x1_0000 + r / 0x1_0000 < r
  {
    var low, high := r % 0x1_0000, r / 0x1_0000;
    assert r == high * MAX16 + (low + high);
    AddMultiple(low + high, high);
  }

  lemma AddMultiple(n: nat, k: nat)
    ensures (k * MAX16 + n) % MAX16 == n % MAX16
  {
    var q, m := n / MAX16, n % MAX16;
    assert k * MAX16 + n == (k + q) * MAX16 + m;
  }

  // checksum
  method ComputeChecksum(data: Bytes) returns (c: nat)
    ensures c == Checksum(data)
  {
    var total := WordSum(Padded(data));
    total := Fold(total);
    c := MAX16 - total;
  }

  // ---- A checksum in its field makes the whole sum to zero

  lemma {:induction false} WordSumBounded(data: Bytes)
    requires |data| % 2 == 0
    ensures WordSum(data) <= |data| / 2 * MAX16
  {
    if data != [] {
      WordSumBounded(data[2..]);
    }
  }

  lemma {:induction false} WordSumConcat(a: Bytes, b: Bytes)
    requires |a| % 2 == 0 && |b| % 2 == 0
    ensures WordSum(a + b) == WordSum(a) + WordSum(b)
  {
    if a == [] {
      assert a + b == b;
    } else {
      WordSumConcat(a[2..], b);
      assert (a + b)[2..] == a[2..] + b;
    }
  }

  lemma OneWord(n: nat)
    requires n <= MAX16
    ensures WordSum(U16(n)) == n
  {
    assert U16(n)[2..] == [];
  }

  lemma PaddedAround(a: Bytes, word: Bytes, b: Bytes)
    requires |a| % 2 == 0 && |word| == 2
    ensures Padded(a + word + b) == a + (word + Padded(b))
  {
    assert |a + word + b| % 2 == |b| % 2;
  }

  lemma SumAround(a: Bytes, n: nat, b: Bytes)
    requires |a| % 2 == 0 && n <= MAX16
    ensures WordSum(Padded(a + U16(n) + b)) == WordSum(a) + n + WordSum(Padded(b))
  {
    PaddedAround(a, U16(n), b);
    OneWord(n);
    hide WordSum, Padded;
    WordSumConcat(a, U16(n) + Padded(b));
    WordSumConcat(U16(n), Padded(b));
  }

  /** The zero a receiver finds: the field may carry the checksum or, where that is zero, 65535. */
  lemma FieldMakesZero(a: Bytes, b: Bytes, field: nat)
    requires |a| % 2 == 0 && field <= MAX16
    requires var c := Checksum(a + U16(0) + b); field == c || (c == 0 && field == MAX16)
    ensures Checksum(a + U16(field) + b) == 0
  {
    var before := WordSum(a) + WordSum(Padded(b));
    SumAround(a, 0, b);
    SumAround(a, field, b);
    ComplementMakesZero(before, field);
  }

  lemma ComplementMakesZero(before: nat, field: nat)
    requires var c := MAX16 - Folded(before); field == c || (c == 0 && field == MAX16)
    ensures Folded(before + field) == MAX16
  {
    var r := Folded(before);
    if before == 0 {
      assert field == MAX16;
    } else {
      var q := (before - 1) / MAX16;
      assert before == q * MAX16 + r;
      assert before + field == (q + 1) * MAX16 || before + field == (q + 2) * MAX16;
    }
    MultipleFolds(before + field);
  }

  lemma MultipleFolds(n: nat)
    requires n > 0 && n % MAX16 == 0
    ensures Folded(n) == MAX16
  {
    FoldedUnique(n, MAX16);
  }

  // ---- UDP packets

  const SOURCE: Bytes := [10, 44, 0, 2]
  const ECHO: Bytes := [198, 51, 100, 7]
  const ECHO_PORT := 49155
  const MTU := 1420

  /** An IPv4 header without options around a given checksum field. */
  function HeaderWith(source: Bytes, host: Bytes, length: nat, field: nat): (h: Bytes)
    requires |source| == |host| == 4 && length <= MAX16 && field <= MAX16
    ensures |h| == 20
  {
    [0x45, 0] + U16(length) + [0, 0, 0, 0, 64, 17] + U16(field) + source + host
  }

  /** The header of a UDP packet of the given total length. */
  function Header(source: Bytes, host: Bytes, length: nat): (h: Bytes)
    requires |source| == |host| == 4 && length <= MAX16
    ensures |h| == 20
  {
    HeaderWith(source, host, length, Checksum(HeaderWith(source, host, length, 0)))
  }

  function Datagram(sourcePort: nat, port: nat, field: nat, payload: Bytes): (d: Bytes)
    requires sourcePort <= MAX16 && port <= MAX16 && |payload| + 8 <= MAX16 && field <= MAX16
    ensures |d| == |payload| + 8
  {
    U16(sourcePort) + U16(port) + U16(|payload| + 8) + U16(field) + payload
  }

  function PseudoHeader(source: Bytes, host: Bytes, length: nat): (h: Bytes)
    requires |source| == |host| == 4 && length <= MAX16
    ensures |h| == 12
  {
    source + host + [0, 17] + U16(length)
  }

  /** packet of the reuse check. None is the error of packing a number that does not fit 16 bits. */
  function ReusePacket(sourcePort: nat, host: Bytes, port: nat, payload: Bytes): Option<Bytes>
    requires |host| == 4
  {
    if sourcePort > MAX16 || port > MAX16 || |payload| + 28 > MAX16 then None
    else
      var udp := Datagram(sourcePort, port, 0, payload);
      var sum := Checksum(PseudoHeader(SOURCE, host, |udp|) + udp);
      var sealed := udp[..6] + U16(if sum == 0 then MAX16 else sum) + udp[8..];
      var ip := HeaderWith(SOURCE, host, 20 + |sealed|, 0);
      Some(ip[..10] + U16(Checksum(ip)) + ip[12..] + sealed)
  }

  lemma HeaderReplaced(source: Bytes, host: Bytes, length: nat, field: nat)
    requires |source| == |host| == 4 && length <= MAX16 && field <= MAX16
    ensures var ip := HeaderWith(source, host, length, 0);
            HeaderWith(source, host, length, field) == ip[..10] + U16(field) + ip[12..]
  {
  }

  lemma DatagramReplaced(sourcePort: nat, port: nat, field: nat, payload: Bytes)
    requires sourcePort <= MAX16 && port <= MAX16 && |payload| + 8 <= MAX16 && field <= MAX16
    ensures var udp := Datagram(sourcePort, port, 0, payload);
            Datagram(sourcePort, port, field, payload) == udp[..6] + U16(field) + udp[8..]
  {
  }

  /** The header's own checksum makes it sum to zero. */
  lemma HeaderVerifies(source: Bytes, host: Bytes, length: nat)
    requires |source| == |host| == 4 && length <= MAX16
    ensures Checksum(Header(source, host, length)) == 0
  {
    var ip := HeaderWith(source, host, length, 0);
    var c := Checksum(ip);
    HeaderReplaced(source, host, length, 0);
    HeaderReplaced(source, host, length, c);
    hide Checksum, HeaderWith;
    FieldMakesZero(ip[..10], ip[12..], c);
  }

  // The UDP checksum field the reuse check writes.
  function SealField(sourcePort: nat, host: Bytes, port: nat, payload: Bytes): (field: nat)
    requires |host| == 4 && sourcePort <= MAX16 && port <= MAX16 && |payload| + 28 <= MAX16
    ensures 0 < field <= MAX16
  {
    var udp := Datagram(sourcePort, port, 0, payload);
    var sum := Checksum(PseudoHeader(SOURCE, host, |udp|) + udp);
    if sum == 0 then MAX16 else sum
  }

  lemma DatagramVerifies(sourcePort: nat, host: Bytes, port: nat, payload: Bytes)
    requires |host| == 4 && sourcePort <= MAX16 && port <= MAX16 && |payload| + 28 <= MAX16
    ensures var field := SealField(sourcePort, host, port, payload);
            Checksum(PseudoHeader(SOURCE, host, |payload| + 8) + Datagram(sourcePort, port, field, payload)) == 0
  {
    var field := SealField(sourcePort, host, port, payload);
    var udp, pseudo := Datagram(sourcePort, port, 0, payload), PseudoHeader(SOURCE, host, |payload| + 8);
    DatagramReplaced(sourcePort, port, 0, payload);
    DatagramReplaced(sourcePort, port, field, payload);
    hide Checksum, Datagram, PseudoHeader;
    FieldUnderMakesZero(pseudo, udp[..6], udp[8..], field);
  }

  // The same with an even number of bytes in front.
  lemma FieldUnderMakesZero(front: Bytes, a: Bytes, b: Bytes, field: nat)
    requires |front| % 2 == 0 && |a| % 2 == 0 && field <= MAX16
    requires var c := Checksum(front + (a + U16(0) + b)); field == c || (c == 0 && field == MAX16)
    ensures Checksum(front + (a + U16(field) + b)) == 0
  {
    hide Checksum;
    assert front + (a + U16(0) + b) == (front + a) + U16(0) + b;
    assert front + (a + U16(field) + b) == (front + a) + U16(field) + b;
    FieldMakesZero(front + a, b, field);
  }

  /** Every packet the reuse check builds carries a header that sums to zero, and a datagram that
      sums to zero under its pseudo-header whatever the payload's parity, with a checksum field
      that is never zero. */
  lemma ReusePacketVerifies(sourcePort: nat, host: Bytes, port: nat, payload: Bytes)
    requires |host| == 4
    ensures ReusePacket(sourcePort, host, port, payload).Some? <==>
            sourcePort <= MAX16 && port <= MAX16 && |payload| + 28 <= MAX16
    ensures ReusePacket(sourcePort, host, port, payload).Some? ==>
              var p := ReusePacket(sourcePort, host, port, payload).value;
              && p == Header(SOURCE, host, |p|)
                      + Datagram(sourcePort, port, SealField(sourcePort, host, port, payload), payload)
              && |p| == |payload| + 28
              && Checksum(p[..20]) == 0
              && Checksum(PseudoHeader(SOURCE, host, |p| - 20) + p[20..]) == 0
              && p[26..28] != U16(0)
  {
    if ReusePacket(sourcePort, host, port, payload).Some? {
      var p, n := ReusePacket(sourcePort, host, port, payload).value, |payload| + 28;
      var field := SealField(sourcePort, host, port, payload);
      DatagramReplaced(sourcePort, port, field, payload);
      HeaderReplaced(SOURCE, host, n, Checksum(HeaderWith(SOURCE, host, n, 0)));
      var h, d := Header(SOURCE, host, n), Datagram(sourcePort, port, field, payload);
      assert p == h + d;
      HeaderVerifies(SOURCE, host, n);
      DatagramVerifies(sourcePort, host, port, payload);
      assert p[..20] == h && p[20..] == d;
      assert p[26..28] == d[6..8] == U16(field);
    }
  }

  /** packet of the adapter prototype, written into its buffer in place. None is the failed length
      assertion. The header is the one the reuse check writes for the same addresses and length. */
  method PrototypePacket(source: Bytes, port: nat, payload: Bytes) returns (r: Option<Bytes>)
    requires |source| == 4 && port <= MAX16
    ensures r.Some? <==> |payload| + 28 <= MTU
    ensures r.Some? ==> r.value == Header(source, ECHO, |payload| + 28) + Datagram(ECHO_PORT, port, 0, payload)
    ensures r.Some? ==> Checksum(r.value[..20]) == 0
    ensures r.Some? && source == SOURCE ==> forall from: nat, to: nat | from <= MAX16 && to <= MAX16 ::
              var p := ReusePacket(from, ECHO, to, payload); p.Some? && p.value[..20] == r.value[..20]
  {
    if |payload| + 28 > MTU { return None; }
    var n := 28 + |payload|;
    var raw := new byte[n](_ => 0);
    WriteHeader(raw, source);
    WriteDatagram(raw, port, payload);
    r := Some(raw[..]);
    assert raw[..] == raw[..20] + raw[20..];
    assert r.value[..20] == Header(source, ECHO, n);
    HeaderVerifies(source, ECHO, n);
    hide Checksum, Header, Datagram, ReusePacket;
    if source == SOURCE {
      forall from: nat, to: nat | from <= MAX16 && to <= MAX16
        ensures var p := ReusePacket(from, ECHO, to, payload); p.Some? && p.value[..20] == r.value[..20]
      {
        ReusePacketVerifies(from, ECHO, to, payload);
      }
    }
  }

  method WriteHeader(raw: array<byte>, source: Bytes)
    requires 28 <= raw.Length <= MTU && |source| == 4
    requires forall i :: 0 <= i < raw.Length ==> raw[i] == 0
    modifies raw
    ensures raw[..20] == Header(source, ECHO, raw.Length)
    ensures forall i :: 20 <= i < raw.Length ==> raw[i] == 0
  {
    var n := raw.Length;
    WriteFields(raw, source);
    HeaderReplaced(source, ECHO, n, Checksum(HeaderWith(source, ECHO, n, 0)));
    hide Checksum, HeaderWith;
    assert raw[..10] == raw[..20][..10] && raw[12..20] == raw[..20][12..];
    SealHeader(raw);
  }

  // copy_from_slice on part of the buffer.
  method CopyFrom(raw: array<byte>, at: nat, bytes: Bytes)
    requires at + |bytes| <= raw.Length
    modifies raw
    ensures forall i :: 0 <= i < raw.Length ==>
              raw[i] == if at <= i < at + |bytes| then bytes[i - at] else old(raw[i])
  {
    forall i | 0 <= i < |bytes| {
      raw[at + i] := bytes[i];
    }
  }

  method WriteFields(raw: array<byte>, source: Bytes)
    requires 28 <= raw.Length <= MTU && |source| == 4
    requires forall i :: 0 <= i < raw.Length ==> raw[i] == 0
    modifies raw
    ensures raw[..20] == HeaderWith(source, ECHO, raw.Length, 0)
    ensures forall i :: 20 <= i < raw.Length ==> raw[i] == 0
  {
    var n := raw.Length;
    HeaderBytes(source, ECHO, n);
    hide HeaderWith;
    raw[0] := 0x45;
    CopyFrom(raw, 2, U16(n));
    raw[8] := 64;
    raw[9] := 17;
    CopyFrom(raw, 12, source);
    CopyFrom(raw, 16, ECHO);
  }

  lemma HeaderBytes(source: Bytes, host: Bytes, n: nat)
    requires |source| == |host| == 4 && n <= MAX16
    ensures HeaderWith(source, host, n, 0) ==
            [0x45, 0, U16(n)[0], U16(n)[1], 0, 0, 0, 0, 64, 17, 0, 0,
             source[0], source[1], source[2], source[3], host[0], host[1], host[2], host[3]]
  {
  }

  method SealHeader(raw: array<byte>)
    requires raw.Length >= 20
    modifies raw
    ensures raw[..20] == old(raw[..10]) + U16(Checksum(old(raw[..20]))) + old(raw[12..20])
    ensures forall i :: 20 <= i < raw.Length ==> raw[i] == old(raw[i])
  {
    WordSumBounded(raw[..20]);
    assert WordSum(raw[..20]) < 0x1_0000_0000;  // the sum is a u32
    var sum := Fold(WordSum(raw[..20]));
    var field := U16(MAX16 - sum);
    assert field == U16(Checksum(raw[..20]));
    CopyFrom(raw, 10, field);
  }

  method WriteDatagram(raw: array<byte>, port: nat, payload: Bytes)
    requires raw.Length == 28 + |payload| <= MTU && port <= MAX16
    requires forall i :: 20 <= i < raw.Length ==> raw[i] == 0
    modifies raw
    ensures raw[..20] == old(raw[..20]) && raw[20..] == Datagram(ECHO_PORT, port, 0, payload)
  {
    CopyFrom(raw, 20, U16(ECHO_PORT));
    CopyFrom(raw, 22, U16(port));
    CopyFrom(raw, 24, U16(8 + |payload|));
    CopyFrom(raw, 28, payload);
  }
}
