/**
 Big-endian integers and length-prefixed vectors, as section 3 of RFC 8446
 writes them, and readers that consume the front of a byte string.
 */
module Wire {
  import opened Options

  type byte = b: int | 0 <= b < 256
  type Bytes = seq<byte>

  function U8(n: nat): Bytes
    requires n < 0x100
  {
    [n]
  }

  function U16(n: nat): Bytes
    requires n < 0x1_0000
  {
    [n / 0x100, n % 0x100]
  }

  function U24(n: nat): Bytes
    requires n < 0x100_0000
  {
    [n / 0x1_0000, n / 0x100 % 0x100, n % 0x100]
  }

  function Take(s: Bytes, n: nat): Option<(Bytes, Bytes)> {
    if |s| < n then None else Some((s[..n], s[n..]))
  }

  function ReadU8(s: Bytes): Option<(nat, Bytes)> {
    if |s| < 1 then None else Some((s[0], s[1..]))
  }

  function ReadU16(s: Bytes): Option<(nat, Bytes)> {
    if |s| < 2 then None else Some((s[0] as nat * 0x100 + s[1] as nat, s[2..]))
  }

  function ReadU24(s: Bytes): Option<(nat, Bytes)> {
    if |s| < 3 then None else Some((s[0] as nat * 0x1_0000 + s[1] as nat * 0x100 + s[2] as nat, s[3..]))
  }

  // Each reader accepts exactly the encodings followed by what it leaves.

  lemma TakeExact(s: Bytes, v: Bytes, rest: Bytes)
    ensures Take(s, |v|) == Some((v, rest)) <==> s == v + rest
  {
  }

  lemma U8Exact(s: Bytes, n: nat, rest: Bytes)
    ensures ReadU8(s) == Some((n, rest)) <==> n < 0x100 && s == U8(n) + rest
  {
  }

  lemma U16Exact(s: Bytes, n: nat, rest: Bytes)
    ensures ReadU16(s) == Some((n, rest)) <==> n < 0x1_0000 && s == U16(n) + rest
  {
    if ReadU16(s) == Some((n, rest)) {
      assert s == [s[0], s[1]] + rest;
      assert n / 0x100 == s[0] && n % 0x100 == s[1];
    }
  }

  lemma U24Exact(s: Bytes, n: nat, rest: Bytes)
    ensures ReadU24(s) == Some((n, rest)) <==> n < 0x100_0000 && s == U24(n) + rest
  {
    if ReadU24(s) == Some((n, rest)) {
      assert s == [s[0], s[1], s[2]] + rest;
      assert n / 0x100 == s[0] as nat * 0x100 + s[1] as nat && n % 0x100 == s[2];
      assert n / 0x1_0000 == s[0];
    }
  }

  // ---- Vectors

  function Vec8(v: Bytes): Bytes
    requires |v| < 0x100
  {
    U8(|v|) + v
  }

  function Vec16(v: Bytes): Bytes
    requires |v| < 0x1_0000
  {
    U16(|v|) + v
  }

  function ReadVec8(s: Bytes): Option<(Bytes, Bytes)> {
    match ReadU8(s)
    case None => None
    case Some((n, rest)) => Take(rest, n)
  }

  function ReadVec16(s: Bytes): Option<(Bytes, Bytes)> {
    match ReadU16(s)
    case None => None
    case Some((n, rest)) => Take(rest, n)
  }

  lemma Vec8Exact(s: Bytes, v: Bytes, rest: Bytes)
    ensures ReadVec8(s) == Some((v, rest)) <==> |v| < 0x100 && s == Vec8(v) + rest
  {
    U8Exact(s, |v|, v + rest);
    TakeExact(v + rest, v, rest);
    if |v| < 0x100 { assert Vec8(v) + rest == U8(|v|) + (v + rest); }
    if ReadVec8(s) == Some((v, rest)) {
      TakeExact(s[1..], v, rest);
    }
  }

  lemma Vec16Exact(s: Bytes, v: Bytes, rest: Bytes)
    ensures ReadVec16(s) == Some((v, rest)) <==> |v| < 0x1_0000 && s == Vec16(v) + rest
  {
    U16Exact(s, |v|, v + rest);
    TakeExact(v + rest, v, rest);
    if |v| < 0x1_0000 { assert Vec16(v) + rest == U16(|v|) + (v + rest); }
    if ReadVec16(s) == Some((v, rest)) {
      TakeExact(s[2..], v, rest);
    }
  }

  // ---- Tagged vectors: extensions and key shares have this form

  datatype Entry = Entry(tag: nat, data: Bytes)

  predicate EntryFits(e: Entry) {
    e.tag < 0x1_0000 && |e.data| < 0x1_0000
  }

  predicate EntriesFit(es: seq<Entry>) {
    forall i :: 0 <= i < |es| ==> EntryFits(es[i])
  }

  function EncodeEntry(e: Entry): Bytes
    requires EntryFits(e)
  {
    U16(e.tag) + Vec16(e.data)
  }

  function EncodeEntries(es: seq<Entry>): Bytes
    requires EntriesFit(es)
  {
    if es == [] then [] else EncodeEntry(es[0]) + EncodeEntries(es[1..])
  }

  function ReadEntry(s: Bytes): Option<(Entry, Bytes)> {
    match ReadU16(s)
    case None => None
    case Some((tag, rest)) =>
      match ReadVec16(rest)
      case None => None
      case Some((data, rest')) => Some((Entry(tag, data), rest'))
  }

  lemma EntryReadBack(e: Entry, rest: Bytes)
    requires EntryFits(e)
    ensures ReadEntry(EncodeEntry(e) + rest) == Some((e, rest))
  {
    var s := EncodeEntry(e) + rest;
    assert s == U16(e.tag) + (Vec16(e.data) + rest);
    U16Exact(s, e.tag, Vec16(e.data) + rest);
    Vec16Exact(Vec16(e.data) + rest, e.data, rest);
  }

  lemma EntryExact(s: Bytes, e: Entry, rest: Bytes)
    ensures ReadEntry(s) == Some((e, rest)) <==> EntryFits(e) && s == EncodeEntry(e) + rest
  {
    if EntryFits(e) {
      EntryReadBack(e, rest);
    }
    if ReadEntry(s) == Some((e, rest)) {
      var tail := ReadU16(s).value.1;
      U16Exact(s, e.tag, tail);
      Vec16Exact(tail, e.data, rest);
      assert U16(e.tag) + (Vec16(e.data) + rest) == EncodeEntry(e) + rest;
    }
  }

  function ReadEntries(s: Bytes): Option<seq<Entry>>
    decreases |s|
  {
    if s == [] then Some([]) else
    match ReadEntry(s)
    case None => None
    case Some((e, rest)) =>
      match ReadEntries(rest)
      case None => None
      case Some(es) => Some([e] + es)
  }

  /** The reader accepts a block exactly when entries tile it: no gap, no overrun, and no other
      way to split it. */
  lemma {:induction false} EntriesTile(s: Bytes, es: seq<Entry>)
    ensures ReadEntries(s) == Some(es) <==> EntriesFit(es) && s == EncodeEntries(es)
    decreases |s|
  {
    if s == [] {
      if es != [] && EntriesFit(es) { assert |EncodeEntries(es)| >= 4; }
    } else if es != [] {
      if ReadEntries(s) == Some(es) {
        var (e, rest) := ReadEntry(s).value;
        EntryExact(s, e, rest);
        EntriesTile(rest, es[1..]);
        assert es == [e] + es[1..];
      }
      if EntriesFit(es) && s == EncodeEntries(es) {
        EntryExact(s, es[0], EncodeEntries(es[1..]));
        EntriesTile(EncodeEntries(es[1..]), es[1..]);
        assert es == [es[0]] + es[1..];
      }
    }
  }

  lemma {:induction false} EncodeEntriesConcat(a: seq<Entry>, b: seq<Entry>)
    requires EntriesFit(a) && EntriesFit(b)
    ensures EntriesFit(a + b) && EncodeEntries(a + b) == EncodeEntries(a) + EncodeEntries(b)
  {
    hide EncodeEntry;
    if a == [] {
      assert a + b == b;
    } else {
      EncodeEntriesConcat(a[1..], b);
      assert (a + b)[0] == a[0] && (a + b)[1..] == a[1..] + b;
    }
  }

  lemma EntryInPlace(es: seq<Entry>, i: nat)
    requires EntriesFit(es) && i < |es|
    ensures var at := |EncodeEntries(es[..i])| + 4;
            && at + |es[i].data| <= |EncodeEntries(es)|
            && EncodeEntries(es)[at..at + |es[i].data|] == es[i].data
  {
    EncodeEntriesConcat(es[..i], es[i..]);
    assert es[..i] + es[i..] == es;
    var e := es[i];
    assert es[i..][0] == e && es[i..][1..] == es[i + 1..];
    assert EncodeEntries(es[i..]) == EncodeEntry(e) + EncodeEntries(es[i + 1..]);
    hide EncodeEntries, EncodeEntry;
    DataInside(EncodeEntries(es[..i]), e, EncodeEntries(es[i + 1..]));
  }

  lemma DataInside(before: Bytes, e: Entry, after: Bytes)
    requires EntryFits(e)
    ensures var all, at := before + (EncodeEntry(e) + after), |before| + 4;
            at + |e.data| <= |all| && all[at..at + |e.data|] == e.data
  {
    var head := U16(e.tag) + U16(|e.data|);
    assert EncodeEntry(e) == head + e.data;
    hide U16;
    assert before + ((head + e.data) + after) == (before + head) + (e.data + after);
  }

  lemma EncodeEntriesAppend(es: seq<Entry>, e: Entry)
    requires EntriesFit(es) && EntryFits(e)
    ensures EntriesFit(es + [e]) && EncodeEntries(es + [e]) == EncodeEntries(es) + EncodeEntry(e)
  {
    hide EncodeEntry;
    EncodeEntriesConcat(es, [e]);
    assert EncodeEntries([e]) == EncodeEntry(e) + [];
  }

  // What a first entry contributes to the entries behind it.
  function Prepend(done: seq<Entry>, more: Option<seq<Entry>>): Option<seq<Entry>> {
    match more case None => None case Some(es) => Some(done + es)
  }

  lemma ReadEntriesFirst(e: Entry, tail: Bytes)
    requires EntryFits(e)
    ensures ReadEntries(EncodeEntry(e) + tail) == Prepend([e], ReadEntries(tail))
  {
    EntryReadBack(e, tail);
  }

  lemma PrependBoth(first: seq<Entry>, second: seq<Entry>, more: Option<seq<Entry>>)
    ensures Prepend(first, Prepend(second, more)) == Prepend(first + second, more)
  {
    if more.Some? { assert first + (second + more.value) == first + second + more.value; }
  }

  // Entries already read do not influence how the rest is split.
  lemma {:induction false} ReadEntriesAfter(done: seq<Entry>, rest: Bytes)
    requires EntriesFit(done)
    ensures ReadEntries(EncodeEntries(done) + rest) == Prepend(done, ReadEntries(rest))
  {
    hide EncodeEntry, ReadEntry;
    if done == [] {
      assert EncodeEntries(done) + rest == rest;
      if ReadEntries(rest).Some? { assert [] + ReadEntries(rest).value == ReadEntries(rest).value; }
    } else {
      var e, others := done[0], done[1..];
      assert (EncodeEntry(e) + EncodeEntries(others)) + rest == EncodeEntry(e) + (EncodeEntries(others) + rest);
      ReadEntriesAfter(others, rest);
      ReadEntriesFirst(e, EncodeEntries(others) + rest);
      PrependBoth([e], others, ReadEntries(rest));
      assert [e] + others == done;
    }
  }
}
