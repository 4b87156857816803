/**
 The two cursor-driven ClientHello parsers, each proved to compute the
 function that defines it.
 */
module ClientHelloParsers {
  import opened Options
  import opened Wire
  import opened ClientHello
  import Locator = KeyShareLocator
  import Shapes = ClientHelloShape

  // The first pair of an even stretch, and the others.
  lemma PairNext(raw: Bytes, from: nat, end: nat)
    requires from + 2 <= end <= |raw| && (end - from) % 2 == 0
    ensures Shapes.Pairs(raw[from..end]) ==
            [raw[from] as nat * 0x100 + raw[from + 1] as nat] + Shapes.Pairs(raw[from + 2..end])
    ensures Wire.ReadU16(raw[from..]) == Some((raw[from] as nat * 0x100 + raw[from + 1] as nat, raw[from + 2..]))
  {
    assert raw[from..end][2..] == raw[from + 2..end];
  }

  lemma NoPairs(s: Bytes)
    requires s == []
    ensures Shapes.Pairs(s) == []
  {
  }

  class ByteCursor {
    const raw: Bytes
    const base: nat
    var offset: nat

    ghost predicate Valid()
      reads this
    {
      offset <= |raw|
    }

    // What is left to read.
    ghost function Rest(): Bytes
      requires Valid()
      reads this
    {
      raw[offset..]
    }

    // A read's result against the reader that defines it.
    ghost predicate Did<T>(r: Option<T>, spec: Option<(T, Bytes)>)
      requires Valid()
      reads this
    {
      match spec
      case None => r.None?
      case Some((value, rest)) => r == Some(value) && Rest() == rest
    }

    constructor (raw: Bytes, base: nat)
      ensures Valid() && this.raw == raw && this.base == base && offset == 0 && Rest() == raw
    {
      this.raw, this.base, offset := raw, base, 0;
    }

    method Take(n: nat) returns (r: Option<Bytes>)
      requires Valid()
      modifies this
      ensures Valid() && Did(r, Wire.Take(old(Rest()), n)) && (r.None? ==> offset == old(offset))
    {
      if offset + n > |raw| { return None; }
      r := Some(raw[offset..offset + n]);
      assert raw[offset..][..n] == raw[offset..offset + n] && raw[offset..][n..] == raw[offset + n..];
      offset := offset + n;
    }

    method ReadU8() returns (r: Option<nat>)
      requires Valid()
      modifies this
      ensures Valid() && Did(r, Wire.ReadU8(old(Rest())))
    {
      var bytes := Take(1);
      if bytes.None? { return None; }
      r := Some(bytes.value[0]);
    }

    method ReadU16() returns (r: Option<nat>)
      requires Valid()
      modifies this
      ensures Valid() && Did(r, Wire.ReadU16(old(Rest())))
    {
      var bytes := Take(2);
      if bytes.None? { return None; }
      r := Some(bytes.value[0] as nat * 0x100 + bytes.value[1] as nat);
    }

    method ReadU24() returns (r: Option<nat>)
      requires Valid()
      modifies this
      ensures Valid() && Did(r, Wire.ReadU24(old(Rest())))
    {
      var bytes := Take(3);
      if bytes.None? { return None; }
      r := Some(bytes.value[0] as nat * 0x1_0000 + bytes.value[1] as nat * 0x100 + bytes.value[2] as nat);
    }

    method ReadVec8() returns (r: Option<Bytes>)
      requires Valid()
      modifies this
      ensures Valid() && Did(r, Wire.ReadVec8(old(Rest())))
    {
      var length := ReadU8();
      if length.None? { return None; }
      r := Take(length.value);
    }

    method ReadVec16() returns (r: Option<Bytes>)
      requires Valid()
      modifies this
      ensures Valid() && Did(r, Wire.ReadVec16(old(Rest())))
    {
      var length := ReadU16();
      if length.None? { return None; }
      r := Take(length.value);
    }

    method ReadEntry() returns (r: Option<Entry>)
      requires Valid()
      modifies this
      ensures Valid() && Did(r, Wire.ReadEntry(old(Rest())))
    {
      var tag := ReadU16();
      if tag.None? { return None; }
      var data := ReadVec16();
      if data.None? { return None; }
      r := Some(Entry(tag.value, data.value));
    }

    // One value of a list that ends at `end`.
    method ReadPair(end: nat) returns (value: nat)
      requires Valid() && offset + 2 <= end <= |raw| && (end - offset) % 2 == 0
      modifies this
      ensures Valid() && offset == old(offset) + 2
      ensures Shapes.Pairs(raw[old(offset)..end]) == [value] + Shapes.Pairs(raw[offset..end])
    {
      PairNext(raw, offset, end);
      hide Shapes.Pairs;
      var read := ReadU16();
      assert |raw[offset..]| == |raw[old(offset) + 2..]|;
      value := read.value;
    }

    // The value loop of both two-byte list readers.
    method ReadPairsUntil(end: nat) returns (values: seq<nat>)
      requires Valid() && offset <= end <= |raw| && (end - offset) % 2 == 0
      modifies this
      ensures Valid() && offset == end && values == Shapes.Pairs(raw[old(offset)..end])
    {
      hide Shapes.Pairs;
      values := [];
      ghost var all := Shapes.Pairs(raw[offset..end]);
      assert [] + all == all;
      while offset < end
        invariant Valid() && offset <= end && (end - offset) % 2 == 0
        invariant values + Shapes.Pairs(raw[offset..end]) == all
      {
        var value := ReadPair(end);
        ghost var more := Shapes.Pairs(raw[offset..end]);
        assert values + ([value] + more) == values + [value] + more;
        values := values + [value];
      }
      NoPairs(raw[offset..end]);
      assert values + [] == values;
    }

    method ReadPairs(length: nat) returns (r: Option<seq<nat>>)
      requires Valid()
      modifies this
      ensures Valid() && Did(r, Shapes.PairsOf(Wire.Take(old(Rest()), length)))
    {
      hide Shapes.Pairs;
      if length % 2 != 0 { return None; }
      if offset + length > |raw| { return None; }
      assert raw[offset..][..length] == raw[offset..offset + length];
      assert raw[offset..][length..] == raw[offset + length..];
      var values := ReadPairsUntil(offset + length);
      r := Some(values);
    }

    method ReadU16List() returns (r: Option<seq<nat>>)
      requires Valid()
      modifies this
      ensures Valid() && Did(r, Shapes.ReadU16List(old(Rest())))
    {
      var length := ReadU16();
      if length.None? { return None; }
      r := ReadPairs(length.value);
    }

    method ReadShortU16List() returns (r: Option<seq<nat>>)
      requires Valid()
      modifies this
      ensures Valid() && Did(r, Shapes.ReadShortU16List(old(Rest())))
    {
      var length := ReadU8();
      if length.None? { return None; }
      r := ReadPairs(length.value);
    }

    // The name loop: it stops at or past `end`.
    method ReadNamesUntil(end: nat) returns (r: Option<seq<Bytes>>)
      requires Valid()
      modifies this
      ensures Valid() && Did(r, Shapes.NameLoop(old(Rest()), end - old(offset)))
    {
      hide Shapes.NameLoop, Wire.ReadVec8;
      ghost var spec := Shapes.NameLoop(Rest(), end - offset);
      var names := [];
      ContinueStart(spec);
      while offset < end
        invariant Valid()
        invariant spec == Continue(names, Shapes.NameLoop(Rest(), end - offset))
        decreases |raw| - offset
      {
        ghost var before := Rest();
        NameLoopStep(before, end - offset);
        var name := ReadVec8();
        if name.None? { return None; }
        ContinueNext(names, name.value, Shapes.NameLoop(Rest(), end - offset));
        names := names + [name.value];
      }
      NameLoopEnd(Rest(), end - offset);
      assert names + [] == names;
      r := Some(names);
    }

    method ReadProtocolNameList() returns (r: Option<seq<Bytes>>)
      requires Valid()
      modifies this
      ensures Valid() && Did(r, Shapes.ReadNames(old(Rest())))
    {
      var length := ReadU16();
      if length.None? { return None; }
      if offset + length.value > |raw| { return None; }
      r := ReadNamesUntil(offset + length.value);
    }
  }

  lemma ContinueStart<T>(more: Option<(seq<T>, Bytes)>)
    ensures more == Continue([], more)
  {
    if more.Some? { assert [] + more.value.0 == more.value.0; }
  }

  lemma NameLoopStep(s: Bytes, remaining: int)
    requires remaining > 0
    ensures match Wire.ReadVec8(s)
            case None => Shapes.NameLoop(s, remaining).None?
            case Some((name, rest)) =>
              && |s| == |rest| + 1 + |name|
              && Shapes.NameLoop(s, remaining) == Continue([name], Shapes.NameLoop(rest, remaining - 1 - |name|))
  {
  }

  lemma NameLoopEnd(s: Bytes, remaining: int)
    requires remaining <= 0
    ensures Shapes.NameLoop(s, remaining) == Some(([], s))
  {
  }

  // A list read so far, and what the rest of the loop yields.
  function Continue<T>(done: seq<T>, more: Option<(seq<T>, Bytes)>): Option<(seq<T>, Bytes)> {
    match more
    case None => None
    case Some((others, rest)) => Some((done + others, rest))
  }

  lemma ContinueNext<T>(done: seq<T>, next: T, more: Option<(seq<T>, Bytes)>)
    ensures Continue(done, Continue([next], more)) == Continue(done + [next], more)
  {
    if more.Some? {
      assert done + ([next] + more.value.0) == done + [next] + more.value.0;
    }
  }

  // ---- Framing

  // The fields in front of the cipher suites: version, random and session id.
  function ReadOpening(raw: Bytes): Option<((nat, Bytes, Bytes), Bytes)> {
    match Wire.ReadU8(raw)
    case None => None
    case Some((handshakeType, rest)) =>
      if handshakeType != 1 then None else
      match Wire.ReadU24(rest)
      case None => None
      case Some((length, body)) =>
        if length != |raw| - 4 then None else
        match Wire.ReadU16(body)
        case None => None
        case Some((version, rest1)) =>
          match Wire.Take(rest1, 32)
          case None => None
          case Some((random, rest2)) =>
            match Wire.ReadVec8(rest2)
            case None => None
            case Some((session, rest3)) => Some(((version, random, session), rest3))
  }

  // The fields behind them; what is left is the extension block and the end of the hello.
  function ReadClosing(s: Bytes): Option<(Bytes, Bytes)> {
    match Wire.ReadVec8(s)
    case None => None
    case Some((compression, rest)) =>
      match Wire.ReadU16(rest)
      case None => None
      case Some((length, block)) => if length != |block| then None else Some((compression, block))
  }

  // The fields of a hello and its undivided extension block.
  function Frame(raw: Bytes): Option<(Hello, Bytes)> {
    match ReadOpening(raw)
    case None => None
    case Some(((version, random, session), rest)) =>
      match Wire.ReadVec16(rest)
      case None => None
      case Some((ciphers, rest')) =>
        match ReadClosing(rest')
        case None => None
        case Some((compression, block)) => Some((Hello(version, random, session, ciphers, compression, []), block))
  }

  lemma ParseInStages(raw: Bytes)
    ensures Parse(raw) ==
            match Frame(raw)
            case None => None
            case Some((h, block)) =>
              match ReadEntries(block)
              case None => None
              case Some(es) => Some(h.(extensions := es))
  {
    if ReadOpening(raw).Some? {
      var (fields, rest) := ReadOpening(raw).value;
      if Wire.ReadVec16(rest).Some? {
        ClosingIsTail(fields.0, fields.1, fields.2, Wire.ReadVec16(rest).value.0, Wire.ReadVec16(rest).value.1);
      }
    }
  }

  lemma ClosingIsTail(version: nat, random: Bytes, session: Bytes, ciphers: Bytes, s: Bytes)
    ensures ParseTail(version, random, session, ciphers, s) ==
            match ReadClosing(s)
            case None => None
            case Some((compression, block)) =>
              match ReadEntries(block)
              case None => None
              case Some(es) => Some(Hello(version, random, session, ciphers, compression, es))
  {
    if Wire.ReadVec8(s).Some? {
      var rest := Wire.ReadVec8(s).value.1;
      if Wire.ReadU16(rest).Some? {
        var (length, block) := Wire.ReadU16(rest).value;
        if length == |block| { assert block[..length] == block; }
      }
    }
  }

  method Opening(cursor: ByteCursor) returns (r: Option<(nat, Bytes, Bytes)>)
    requires cursor.Valid() && cursor.offset == 0
    modifies cursor
    ensures cursor.Valid() && cursor.Did(r, ReadOpening(cursor.raw))
  {
    assert cursor.Rest() == cursor.raw;
    var handshakeType := cursor.ReadU8();
    if handshakeType.None? || handshakeType.value != 1 { return None; }
    var length := cursor.ReadU24();
    if length.None? || length.value != |cursor.raw| - 4 { return None; }
    var version := cursor.ReadU16();
    if version.None? { return None; }
    var random := cursor.Take(32);
    if random.None? { return None; }
    var session := cursor.ReadVec8();
    if session.None? { return None; }
    r := Some((version.value, random.value, session.value));
  }

  method Closing(cursor: ByteCursor) returns (r: Option<Bytes>)
    requires cursor.Valid()
    modifies cursor
    ensures cursor.Valid() && cursor.Did(r, ReadClosing(old(cursor.Rest())))
  {
    var compression := cursor.ReadVec8();
    if compression.None? { return None; }
    var length := cursor.ReadU16();
    if length.None? { return None; }
    if cursor.offset + length.value > |cursor.raw| || cursor.offset + length.value != |cursor.raw| { return None; }
    r := compression;
  }

  // ---- A block of entries, read one by one

  ghost predicate ReadSoFar(block: Bytes, done: seq<Entry>, rest: Bytes) {
    EntriesFit(done) && block == EncodeEntries(done) + rest
  }

  lemma ReadStart(block: Bytes)
    ensures ReadSoFar(block, [], block)
  {
  }

  lemma ReadOn(block: Bytes, done: seq<Entry>, rest: Bytes, e: Entry, rest': Bytes)
    requires ReadSoFar(block, done, rest) && Wire.ReadEntry(rest) == Some((e, rest'))
    ensures ReadSoFar(block, done + [e], rest') && EntryFits(e)
    ensures |rest| == 4 + |e.data| + |rest'|
  {
    EntryExact(rest, e, rest');
    EncodeEntriesAppend(done, e);
    assert EncodeEntries(done) + (EncodeEntry(e) + rest') == (EncodeEntries(done) + EncodeEntry(e)) + rest';
  }

  // Whatever the block turns out to hold starts with the entries read so far.
  lemma ReadPrefix(block: Bytes, done: seq<Entry>, rest: Bytes)
    requires ReadSoFar(block, done, rest)
    ensures ReadEntries(block) == Prepend(done, ReadEntries(rest))
    ensures rest == [] ==> ReadEntries(block) == Some(done)
    ensures rest != [] && Wire.ReadEntry(rest).None? ==> ReadEntries(block).None?
  {
    ReadEntriesAfter(done, rest);
    assert done + [] == done;
  }

  // ---- The locator

  // The first carrier among the shares read, in a block that starts at `start`.
  function Hit(done: seq<Entry>, start: nat, key: Bytes): Option<Locator.Located>
    requires EntriesFit(done)
  {
    var k := Locator.FirstCarrier(done, key);
    if k == |done| then None else Some(Locator.KeyAt(done[k], start + |EncodeEntries(done[..k])| + 4))
  }

  lemma HitNext(done: seq<Entry>, share: Entry, start: nat, key: Bytes)
    requires EntriesFit(done) && EntryFits(share)
    ensures EntriesFit(done + [share])
    ensures Hit(done + [share], start, key) ==
            if Hit(done, start, key).Some? then Hit(done, start, key)
            else if Locator.Carries(share, key) then Some(Locator.KeyAt(share, start + |EncodeEntries(done)| + 4))
            else None
  {
    hide Wire.EncodeEntry, Locator.Carries, Locator.KeyAt;
    Locator.FirstCarrierAppend(done, share, key);
    var k := Locator.FirstCarrier(done, key);
    assert (done + [share])[..k] == done[..k] && done[..|done|] == done;
  }

  // One share of the loop; not ok where its length does not suit its group.
  method Examine(share: Entry, at: nat, key: Bytes, found: Option<Locator.Located>)
    returns (ok: bool, here: Option<Locator.Located>)
    ensures ok == Locator.Sized(share)
    ensures ok ==> here == if found.None? && Locator.Carries(share, key) then Some(Locator.KeyAt(share, at)) else found
  {
    here := found;
    if share.tag == Locator.X25519 {
      if |share.data| != Locator.X25519_LENGTH { return false, here; }
      if share.data == key && found.None? { here := Some(Locator.Located(Locator.Plain, at)); }
    } else if share.tag == Locator.X25519_MLKEM768 {
      if |share.data| != Locator.HYBRID_LENGTH { return false, here; }
      if share.data[Locator.MLKEM768_LENGTH..] == key && found.None? {
        here := Some(Locator.Located(Locator.Hybrid, at + Locator.MLKEM768_LENGTH));
      }
    }
    ok := true;
  }

  // The search over a block of shares.
  function SharesResult(block: Bytes, start: nat, key: Bytes): Option<Locator.Located> {
    match ReadEntries(block)
    case None => None
    case Some(shares) =>
      EntriesTile(block, shares);
      if exists i :: 0 <= i < |shares| && !Locator.Sized(shares[i]) then None else Hit(shares, start, key)
  }

  lemma UnsizedShare(block: Bytes, done: seq<Entry>, share: Entry, rest: Bytes, start: nat, key: Bytes)
    requires ReadSoFar(block, done + [share], rest) && !Locator.Sized(share)
    ensures SharesResult(block, start, key).None?
  {
    ReadPrefix(block, done + [share], rest);
    if ReadEntries(block).Some? {
      assert ReadEntries(block).value[|done|] == share;
    }
  }

  // The loop's invariant: the shares read, and the key found in them.
  ghost predicate Searching(block: Bytes, start: nat, key: Bytes, done: seq<Entry>,
                            found: Option<Locator.Located>, rest: Bytes)
  {
    && ReadSoFar(block, done, rest)
    && (forall i :: 0 <= i < |done| ==> Locator.Sized(done[i]))
    && found == Hit(done, start, key)
  }

  lemma SearchOn(block: Bytes, start: nat, key: Bytes, done: seq<Entry>, found: Option<Locator.Located>, rest: Bytes,
                 share: Entry, rest': Bytes, here: Option<Locator.Located>)
    requires Searching(block, start, key, done, found, rest)
    requires Wire.ReadEntry(rest) == Some((share, rest')) && Locator.Sized(share)
    requires here == if found.None? && Locator.Carries(share, key)
                     then Some(Locator.KeyAt(share, start + |block| - |rest| + 4)) else found
    ensures Searching(block, start, key, done + [share], here, rest')
  {
    ReadOn(block, done, rest, share, rest');
    HitNext(done, share, start, key);
  }

  lemma SearchOver(block: Bytes, start: nat, key: Bytes, done: seq<Entry>, found: Option<Locator.Located>, rest: Bytes)
    requires Searching(block, start, key, done, found, rest)
    ensures rest == [] ==> SharesResult(block, start, key) == found
    ensures rest != [] && Wire.ReadEntry(rest).None? ==> SharesResult(block, start, key).None?
    ensures rest != [] && Wire.ReadEntry(rest).Some? && !Locator.Sized(Wire.ReadEntry(rest).value.0) ==>
              SharesResult(block, start, key).None?
  {
    ReadPrefix(block, done, rest);
    if rest != [] && Wire.ReadEntry(rest).Some? && !Locator.Sized(Wire.ReadEntry(rest).value.0) {
      var (share, rest') := Wire.ReadEntry(rest).value;
      ReadOn(block, done, rest, share, rest');
      UnsizedShare(block, done, share, rest', start, key);
    }
  }

  method SearchShares(cursor: ByteCursor, key: Bytes) returns (r: Option<Locator.Located>)
    requires cursor.Valid()
    modifies cursor
    ensures r == SharesResult(old(cursor.Rest()), cursor.base + old(cursor.offset), key)
  {
    var found: Option<Locator.Located> := None;
    ghost var block, start, done := cursor.Rest(), cursor.base + cursor.offset, [];
    ReadStart(block);
    while cursor.offset < |cursor.raw|
      invariant cursor.Valid() && start + |block| == cursor.base + |cursor.raw|
      invariant Searching(block, start, key, done, found, cursor.Rest())
      decreases |cursor.raw| - cursor.offset
    {
      ghost var before := cursor.Rest();
      SearchOver(block, start, key, done, found, before);
      var at := cursor.base + cursor.offset + 4;
      var share := cursor.ReadEntry();
      if share.None? { return None; }
      var ok, here := Examine(share.value, at, key, found);
      if !ok { return None; }
      SearchOn(block, start, key, done, found, before, share.value, cursor.Rest(), here);
      found, done := here, done + [share.value];
      ReadEntryConsumes(before);
    }
    SearchOver(block, start, key, done, found, cursor.Rest());
    r := found;
  }

  lemma ReadEntryConsumes(s: Bytes)
    ensures Wire.ReadEntry(s).Some? ==> |s| == |Wire.ReadEntry(s).value.1| + 4 + |Wire.ReadEntry(s).value.0.data|
  {
  }

  lemma InSharesIsResult(data: Bytes, base: nat, key: Bytes)
    ensures match Wire.ReadU16(data)
            case None => Locator.InShares(data, base, key).None?
            case Some((length, block)) =>
              Locator.InShares(data, base, key)
              == if length != |block| then None else SharesResult(block, base + 2, key)
  {
    if Wire.ReadU16(data).Some? {
      var (length, block) := Wire.ReadU16(data).value;
      if length == |block| {
        assert block[..length] == block && block[length..] == [];
        assert SharesOf(data) == ReadEntries(block);
      } else {
        assert SharesOf(data).None?;
      }
    }
  }

  method LocateInKeyShare(data: Bytes, base: nat, key: Bytes) returns (r: Option<Locator.Located>)
    ensures r == Locator.InShares(data, base, key)
  {
    InSharesIsResult(data, base, key);
    hide Locator.InShares, SharesResult;
    var cursor := new ByteCursor(data, base);
    var length := cursor.ReadU16();
    if length.None? { return None; }
    if cursor.offset + length.value > |data| || cursor.offset + length.value != |data| { return None; }
    r := SearchShares(cursor, key);
  }

  // The key in extension i of a block that starts at `start`.
  function InExtension(es: seq<Entry>, start: nat, key: Bytes, i: nat): Option<Locator.Located>
    requires EntriesFit(es) && i < |es|
  {
    Locator.InShares(es[i].data, start + |EncodeEntries(es[..i])| + 4, key)
  }

  predicate AllCarry(es: seq<Entry>, start: nat, key: Bytes)
    requires EntriesFit(es)
  {
    forall i :: 0 <= i < |es| && es[i].tag == KEY_SHARE ==> InExtension(es, start, key, i).Some?
  }

  function FirstFind(es: seq<Entry>, start: nat, key: Bytes): Option<Locator.Located>
    requires EntriesFit(es)
  {
    var k := Locator.FirstKeyShare(es);
    if k == |es| then None else InExtension(es, start, key, k)
  }

  lemma InHelloIsFirstFind(h: Hello, start: nat, key: Bytes)
    requires Fits(h) && start == 4 + |Preamble(h)| + 2
    ensures Locator.InHello(h, key) ==
            if AllCarry(h.extensions, start, key) then FirstFind(h.extensions, start, key) else None
  {
    assert forall i :: 0 <= i < |h.extensions| ==>
             InExtension(h.extensions, start, key, i) == Locator.InShares(h.extensions[i].data, DataOffset(h, i), key);
  }

  lemma InExtensionKept(done: seq<Entry>, e: Entry, start: nat, key: Bytes, i: nat)
    requires EntriesFit(done) && EntryFits(e) && i < |done|
    ensures EntriesFit(done + [e]) && InExtension(done + [e], start, key, i) == InExtension(done, start, key, i)
  {
    assert (done + [e])[..i] == done[..i];
  }

  lemma InExtensionLast(done: seq<Entry>, e: Entry, start: nat, key: Bytes)
    requires EntriesFit(done) && EntryFits(e)
    ensures EntriesFit(done + [e])
    ensures InExtension(done + [e], start, key, |done|) ==
            Locator.InShares(e.data, start + |EncodeEntries(done)| + 4, key)
  {
    assert (done + [e])[..|done|] == done;
  }

  lemma AllCarryNext(done: seq<Entry>, e: Entry, start: nat, key: Bytes)
    requires EntriesFit(done) && EntryFits(e) && AllCarry(done, start, key)
    ensures EntriesFit(done + [e])
    ensures AllCarry(done + [e], start, key)
        <==> e.tag != KEY_SHARE || Locator.InShares(e.data, start + |EncodeEntries(done)| + 4, key).Some?
  {
    var more := done + [e];
    InExtensionLast(done, e, start, key);
    forall i | 0 <= i < |done| ensures InExtension(more, start, key, i) == InExtension(done, start, key, i) {
      InExtensionKept(done, e, start, key, i);
    }
    assert more[|done|] == e && forall i :: 0 <= i < |done| ==> more[i] == done[i];
  }

  lemma FirstFindNext(done: seq<Entry>, e: Entry, start: nat, key: Bytes)
    requires EntriesFit(done) && EntryFits(e) && AllCarry(done, start, key)
    ensures EntriesFit(done + [e])
    ensures FirstFind(done + [e], start, key) ==
            if FirstFind(done, start, key).Some? then FirstFind(done, start, key)
            else if e.tag == KEY_SHARE then Locator.InShares(e.data, start + |EncodeEntries(done)| + 4, key)
            else None
  {
    Locator.FirstKeyShareAppend(done, e);
    var k := Locator.FirstKeyShare(done);
    if k < |done| {
      InExtensionKept(done, e, start, key, k);
    } else {
      InExtensionLast(done, e, start, key);
    }
  }

  // ---- The whole locator

  ghost predicate Locating(block: Bytes, start: nat, key: Bytes, done: seq<Entry>,
                           found: Option<Locator.Located>, rest: Bytes)
  {
    ReadSoFar(block, done, rest) && AllCarry(done, start, key) && found == FirstFind(done, start, key)
  }

  // The locator's loop over the extension block.
  function BlockResult(block: Bytes, start: nat, key: Bytes): Option<Locator.Located> {
    match ReadEntries(block)
    case None => None
    case Some(es) => EntriesTile(block, es); if AllCarry(es, start, key) then FirstFind(es, start, key) else None
  }

  lemma LocateOn(block: Bytes, start: nat, key: Bytes, done: seq<Entry>, found: Option<Locator.Located>, rest: Bytes,
                 e: Entry, rest': Bytes, here: Option<Locator.Located>)
    requires Locating(block, start, key, done, found, rest)
    requires Wire.ReadEntry(rest) == Some((e, rest'))
    requires e.tag == KEY_SHARE ==> here == Locator.InShares(e.data, start + |block| - |rest| + 4, key)
    ensures e.tag == KEY_SHARE && here.None? ==> BlockResult(block, start, key).None?
    ensures e.tag != KEY_SHARE ==> Locating(block, start, key, done + [e], found, rest')
    ensures e.tag == KEY_SHARE && here.Some? ==>
              Locating(block, start, key, done + [e], if found.Some? then found else here, rest')
  {
    hide Locator.InShares, Wire.ReadEntry, Wire.EncodeEntry, FirstFind;
    ReadOn(block, done, rest, e, rest');
    AllCarryNext(done, e, start, key);
    FirstFindNext(done, e, start, key);
    if e.tag == KEY_SHARE && here.None? {
      ReadPrefix(block, done + [e], rest');
      if ReadEntries(block).Some? {
        var es := ReadEntries(block).value;
        EntriesTile(block, es);
        assert es[..|done|] == done && es[|done|] == e;
        assert InExtension(es, start, key, |done|) == here;
      }
    }
  }

  lemma LocateOver(block: Bytes, start: nat, key: Bytes, done: seq<Entry>, found: Option<Locator.Located>, rest: Bytes)
    requires Locating(block, start, key, done, found, rest)
    ensures rest == [] ==> BlockResult(block, start, key) == found
    ensures rest != [] && Wire.ReadEntry(rest).None? ==> BlockResult(block, start, key).None?
  {
    ReadPrefix(block, done, rest);
  }

  method SearchExtensions(cursor: ByteCursor, key: Bytes) returns (r: Option<Locator.Located>)
    requires cursor.Valid() && cursor.base == 0
    modifies cursor
    ensures r == BlockResult(old(cursor.Rest()), old(cursor.offset), key)
  {
    var found: Option<Locator.Located> := None;
    ghost var block, start, done := cursor.Rest(), cursor.offset, [];
    ReadStart(block);
    while cursor.offset < |cursor.raw|
      invariant cursor.Valid() && start + |block| == |cursor.raw|
      invariant Locating(block, start, key, done, found, cursor.Rest())
      decreases |cursor.raw| - cursor.offset
    {
      ghost var before := cursor.Rest();
      LocateOver(block, start, key, done, found, before);
      ReadEntryConsumes(before);
      var at := cursor.offset + 4;
      var e := cursor.ReadEntry();
      if e.None? { return None; }
      var here: Option<Locator.Located> := None;
      if e.value.tag == KEY_SHARE {
        here := LocateInKeyShare(e.value.data, at, key);
      }
      LocateOn(block, start, key, done, found, before, e.value, cursor.Rest(), here);
      if e.value.tag == KEY_SHARE {
        if here.None? { return None; }
        if found.None? { found := here; }
      }
      done := done + [e.value];
    }
    LocateOver(block, start, key, done, found, cursor.Rest());
    r := found;
  }

  lemma InHelloIsBlockResult(h: Hello, block: Bytes, start: nat, key: Bytes)
    requires Fits(h) && block == EncodeEntries(h.extensions) && start == 4 + |Preamble(h)| + 2
    ensures Locator.InHello(h, key) == BlockResult(block, start, key)
  {
    EntriesTile(block, h.extensions);
    InHelloIsFirstFind(h, start, key);
  }

  lemma ParsedLength(raw: Bytes, h: Hello)
    requires Parse(raw) == Some(h)
    ensures Fits(h) && |raw| == 4 + |Preamble(h)| + 2 + |EncodeEntries(h.extensions)|
  {
    ParsedIsEncoding(raw, h);
    BlockInPlace(h);
  }

  lemma FramedParse(raw: Bytes, h: Hello, block: Bytes, parsed: Option<Hello>)
    requires Frame(raw) == Some((h, block)) && parsed == Parse(raw)
    ensures match ReadEntries(block)
            case None => parsed.None?
            case Some(es) => parsed == Some(h.(extensions := es))
  {
    ParseInStages(raw);
  }

  lemma LocateByParse(raw: Bytes, key: Bytes, parsed: Option<Hello>)
    requires parsed == Parse(raw)
    ensures parsed.None? ==> Locator.Locate(raw, key).None?
    ensures parsed.Some? ==> Fits(parsed.value) && Locator.Locate(raw, key) == Locator.InHello(parsed.value, key)
    ensures parsed.Some? ==> |raw| == 4 + |Preamble(parsed.value)| + 2 + |EncodeEntries(parsed.value.extensions)|
  {
    if parsed.Some? { ParsedLength(raw, parsed.value); }
  }

  lemma UnreadBlock(block: Bytes, start: nat, key: Bytes)
    ensures ReadEntries(block).None? ==> BlockResult(block, start, key).None?
  {
  }

  lemma LocateIsBlockResult(raw: Bytes, key: Bytes, h: Hello, block: Bytes)
    requires Frame(raw) == Some((h, block)) && |block| <= |raw|
    ensures Locator.Locate(raw, key) == BlockResult(block, |raw| - |block|, key)
  {
    hide *;
    var parsed := Parse(raw);
    FramedParse(raw, h, block, parsed);
    LocateByParse(raw, key, parsed);
    UnreadBlock(block, |raw| - |block|, key);
    if parsed.Some? {
      var h' := parsed.value;
      EntriesTile(block, h'.extensions);
      InHelloIsBlockResult(h', block, |raw| - |block|, key);
    }
  }

  method ReadFrame(cursor: ByteCursor) returns (r: Option<Hello>)
    requires cursor.Valid() && cursor.offset == 0
    modifies cursor
    ensures cursor.Valid() && cursor.Did(r, Frame(cursor.raw))
  {
    var opening := Opening(cursor);
    if opening.None? { return None; }
    var ciphers := cursor.ReadVec16();
    if ciphers.None? { return None; }
    var compression := Closing(cursor);
    if compression.None? { return None; }
    r := Some(Hello(opening.value.0, opening.value.1, opening.value.2, ciphers.value, compression.value, []));
  }

  /** locateX25519KeyShare. */
  method LocateKeyShare(raw: Bytes, key: Bytes) returns (r: Option<Locator.Located>)
    ensures r == Locator.Locate(raw, key)
  {
    var cursor := new ByteCursor(raw, 0);
    var h := ReadFrame(cursor);
    if h.None? {
      ParseInStages(raw);
      return None;
    }
    LocateIsBlockResult(raw, key, h.value, cursor.Rest());
    r := SearchExtensions(cursor, key);
  }

  // ---- The shape parser

  method ReadSizes(cursor: ByteCursor) returns (r: Option<seq<(Shapes.Label, nat)>>)
    requires cursor.Valid()
    modifies cursor
    ensures match ReadEntries(old(cursor.Rest()))
            case None => r.None?
            case Some(shares) => r == Some(Shapes.Sizes(shares))
  {
    hide Wire.ReadEntry, Wire.ReadEntries, Wire.EncodeEntries, ReadSoFar, Prepend;
    var sizes := [];
    ghost var block, done := cursor.Rest(), [];
    ReadStart(block);
    while cursor.offset < |cursor.raw|
      invariant cursor.Valid() && ReadSoFar(block, done, cursor.Rest())
      invariant sizes == Shapes.Sizes(done)
      decreases |cursor.raw| - cursor.offset
    {
      ghost var before := cursor.Rest();
      ReadPrefix(block, done, before);
      var share := cursor.ReadEntry();
      if share.None? { return None; }
      ReadOn(block, done, before, share.value, cursor.Rest());
      sizes := sizes + [(Shapes.Format(share.value.tag), |share.value.data|)];
      done := done + [share.value];
    }
    ReadPrefix(block, done, cursor.Rest());
    r := Some(sizes);
  }

  method ParseKeyShares(data: Bytes) returns (r: Option<seq<(Shapes.Label, nat)>>)
    ensures r == match SharesOf(data) case None => None case Some(shares) => Some(Shapes.Sizes(shares))
  {
    SharesByLength(data);
    hide SharesOf, Wire.ReadEntries, Shapes.Sizes;
    var cursor := new ByteCursor(data, 0);
    var length := cursor.ReadU16();
    if length.None? { return None; }
    if cursor.offset + length.value > |data| || cursor.offset + length.value != |data| { return None; }
    r := ReadSizes(cursor);
  }

  lemma SharesByLength(data: Bytes)
    ensures match Wire.ReadU16(data)
            case None => SharesOf(data).None?
            case Some((length, block)) =>
              SharesOf(data) == if length != |block| then None else ReadEntries(block)
  {
    if Wire.ReadU16(data).Some? {
      var (length, block) := Wire.ReadU16(data).value;
      if length == |block| { assert block[..length] == block && block[length..] == []; }
    }
  }

  /** parseExtensionShape: a payload is decoded by its type and must be consumed to its end. */
  method ParseExtension(tag: nat, data: Bytes, into: Shapes.Payloads) returns (r: Option<Shapes.Payloads>)
    ensures r == Shapes.Absorb(into, tag, data)
  {
    hide Shapes.NameLoop, Wire.ReadEntries, Wire.ReadVec8, Wire.ReadVec16, Wire.ReadU16, Shapes.FormatAll, Shapes.Sizes;
    var cursor := new ByteCursor(data, 0);
    var p := into;
    var parsed := true;
    if tag == Shapes.SUPPORTED_VERSIONS || tag == Shapes.COMPRESS_CERTIFICATE {
      var values := cursor.ReadShortU16List();
      if values.None? { return None; }
      if tag == Shapes.SUPPORTED_VERSIONS {
        p := p.(versions := Shapes.FormatAll(values.value));
      } else {
        p := p.(certCompression := Shapes.FormatAll(values.value));
      }
    } else if tag in {Shapes.SUPPORTED_GROUPS, Shapes.SIGNATURE_ALGORITHMS, Shapes.DELEGATED_CREDENTIALS} {
      var values := cursor.ReadU16List();
      if values.None? { return None; }
      if tag == Shapes.SUPPORTED_GROUPS {
        p := p.(groups := Shapes.FormatAll(values.value));
      } else if tag == Shapes.SIGNATURE_ALGORITHMS {
        p := p.(signatures := Shapes.FormatAll(values.value));
      } else {
        p := p.(delegated := Shapes.FormatAll(values.value));
      }
    } else if tag == Shapes.EC_POINT_FORMATS || tag == Shapes.PSK_KEY_EXCHANGE_MODES {
      var values := cursor.ReadVec8();
      if values.None? { return None; }
      if tag == Shapes.EC_POINT_FORMATS { p := p.(pointFormats := values.value); }
      else { p := p.(pskModes := values.value); }
    } else if tag in {Shapes.ALPN, Shapes.APPLICATION_SETTINGS, Shapes.APPLICATION_SETTINGS_NEW} {
      var names := cursor.ReadProtocolNameList();
      if names.None? { return None; }
      if tag == Shapes.ALPN {
        p := p.(alpn := names.value);
      } else {
        p := p.(settings := p.settings + [(Shapes.Format(tag), names.value)]);
      }
    } else if tag == KEY_SHARE {
      var sizes := ParseKeyShares(data);
      if sizes.None? { return None; }
      p := p.(keyShares := sizes.value);
      parsed := false;
    } else if tag == Shapes.RECORD_SIZE_LIMIT {
      var value := cursor.ReadU16();
      if value.None? { return None; }
      p := p.(recordLimit := Some(Shapes.Format(value.value)));
    } else if tag == Shapes.PADDING {
      p := p.(padding := Some(|data|));
      parsed := false;
    } else if tag == Shapes.ENCRYPTED_CLIENT_HELLO {
      p := p.(ech := Some(|data|));
      parsed := false;
    } else {
      parsed := false;
    }
    if parsed && cursor.offset != |data| { return None; }
    r := Some(p);
  }

  lemma {:induction false} AbsorbNext(into: Shapes.Payloads, done: seq<Entry>, e: Entry)
    ensures Shapes.AbsorbAll(into, done + [e]) ==
            match Shapes.AbsorbAll(into, done) case None => None case Some(p) => Shapes.Absorb(p, e.tag, e.data)
    decreases |done|
  {
    hide Shapes.Absorb;
    if done == [] {
      assert (done + [e])[1..] == [];
    } else {
      assert (done + [e])[0] == done[0] && (done + [e])[1..] == done[1..] + [e];
      var first := Shapes.Absorb(into, done[0].tag, done[0].data);
      if first.Some? { AbsorbNext(first.value, done[1..], e); }
    }
  }

  lemma {:induction false} AbsorbStuck(into: Shapes.Payloads, done: seq<Entry>, more: seq<Entry>)
    requires Shapes.AbsorbAll(into, done).None?
    ensures Shapes.AbsorbAll(into, done + more).None?
    decreases |done|
  {
    hide Shapes.Absorb;
    assert (done + more)[0] == done[0] && (done + more)[1..] == done[1..] + more;
    var first := Shapes.Absorb(into, done[0].tag, done[0].data);
    if first.Some? { AbsorbStuck(first.value, done[1..], more); }
  }

  // The shape loop over the extension block.
  function BlockShape(block: Bytes): Option<(seq<Entry>, Shapes.Payloads)> {
    match ReadEntries(block)
    case None => None
    case Some(es) =>
      match Shapes.AbsorbAll(Shapes.NoPayloads, es)
      case None => None
      case Some(p) => Some((es, p))
  }

  ghost predicate Shaping(block: Bytes, done: seq<Entry>, p: Shapes.Payloads, rest: Bytes) {
    ReadSoFar(block, done, rest) && Shapes.AbsorbAll(Shapes.NoPayloads, done) == Some(p)
  }

  lemma ShapeStart(block: Bytes)
    ensures Shaping(block, [], Shapes.NoPayloads, block)
  {
  }

  lemma ShapeOn(block: Bytes, done: seq<Entry>, p: Shapes.Payloads, rest: Bytes, e: Entry, rest': Bytes)
    requires Shaping(block, done, p, rest) && Wire.ReadEntry(rest) == Some((e, rest'))
    ensures match Shapes.Absorb(p, e.tag, e.data)
            case None => BlockShape(block).None?
            case Some(p') => Shaping(block, done + [e], p', rest')
  {
    hide Shapes.Absorb, Shapes.AbsorbAll, Wire.ReadEntry;
    ReadOn(block, done, rest, e, rest');
    AbsorbNext(Shapes.NoPayloads, done, e);
    if Shapes.Absorb(p, e.tag, e.data).None? {
      ReadPrefix(block, done + [e], rest');
      if ReadEntries(rest').Some? {
        AbsorbStuck(Shapes.NoPayloads, done + [e], ReadEntries(rest').value);
      }
    }
  }

  lemma ShapeOver(block: Bytes, done: seq<Entry>, p: Shapes.Payloads, rest: Bytes)
    requires Shaping(block, done, p, rest)
    ensures rest == [] ==> BlockShape(block) == Some((done, p))
    ensures rest != [] && Wire.ReadEntry(rest).None? ==> BlockShape(block).None?
  {
    hide Shapes.AbsorbAll, Wire.ReadEntry, Wire.ReadEntries;
    ReadPrefix(block, done, rest);
  }

  method ShapeExtensions(cursor: ByteCursor)
    returns (r: Option<(seq<Shapes.Label>, seq<(Shapes.Label, nat)>, Shapes.Payloads)>)
    requires cursor.Valid()
    modifies cursor
    ensures match BlockShape(old(cursor.Rest()))
            case None => r.None?
            case Some((es, p)) => r == Some((Shapes.Order(es), Shapes.Sizes(es), p))
  {
    hide Wire.ReadEntry, BlockShape, Shaping, Shapes.Absorb;
    var order, sizes, p := [], [], Shapes.NoPayloads;
    ghost var block, done := cursor.Rest(), [];
    ShapeStart(block);
    while cursor.offset < |cursor.raw|
      invariant cursor.Valid() && Shaping(block, done, p, cursor.Rest())
      invariant order == Shapes.Order(done) && sizes == Shapes.Sizes(done)
      decreases |cursor.raw| - cursor.offset
    {
      ghost var before := cursor.Rest();
      ShapeOver(block, done, p, before);
      ReadEntryConsumes(before);
      var e := cursor.ReadEntry();
      if e.None? { return None; }
      order := order + [Shapes.Format(e.value.tag)];
      sizes := sizes + [(Shapes.Format(e.value.tag), |e.value.data|)];
      ShapeOn(block, done, p, before, e.value, cursor.Rest());
      var absorbed := ParseExtension(e.value.tag, e.value.data, p);
      if absorbed.None? { return None; }
      p, done := absorbed.value, done + [e.value];
    }
    ShapeOver(block, done, p, cursor.Rest());
    r := Some((order, sizes, p));
  }

  lemma ShapeByFrame(raw: Bytes, h: Hello, block: Bytes)
    requires Frame(raw) == Some((h, block))
    ensures Shapes.ParseShape(raw) ==
            if |h.ciphers| % 2 != 0 then None else
            match BlockShape(block)
            case None => None
            case Some((es, p)) =>
              Some(Shapes.Shape(|raw|, Shapes.Format(h.version),
                                Shapes.FormatAll(Shapes.Pairs(h.ciphers)), h.compression,
                                Shapes.Order(es), Shapes.Sizes(es), p))
  {
    hide Frame, Parse, ReadEntries, Shapes.AbsorbAll, Shapes.Order, Shapes.Sizes, Shapes.FormatAll, Shapes.Pairs;
    FramedParse(raw, h, block, Parse(raw));
  }

  /** parseClientHelloShape. */
  method ParseClientHelloShape(raw: Bytes) returns (r: Option<Shapes.Shape>)
    ensures r == Shapes.ParseShape(raw)
  {
    hide BlockShape, Shapes.Pairs, Shapes.FormatAll, Parse;
    ParseInStages(raw);
    var cursor := new ByteCursor(raw, 0);
    var opening := Opening(cursor);
    if opening.None? { return None; }
    ghost var ciphers := Wire.ReadVec16(cursor.Rest());
    var suites := cursor.ReadU16List();
    if suites.None? {
      OddCiphers(raw, opening.value);
      return None;
    }
    var compression := Closing(cursor);
    if compression.None? { return None; }
    ghost var h := Hello(opening.value.0, opening.value.1, opening.value.2, ciphers.value.0, compression.value, []);
    ShapeByFrame(raw, h, cursor.Rest());
    var extensions := ShapeExtensions(cursor);
    if extensions.None? { return None; }
    r := Some(Shapes.Shape(|raw|, Shapes.Format(opening.value.0), Shapes.FormatAll(suites.value), compression.value,
                           extensions.value.0, extensions.value.1, extensions.value.2));
  }

  // A hello whose cipher suite list does not read as two-byte values has no shape.
  lemma OddCiphers(raw: Bytes, opening: (nat, Bytes, Bytes))
    requires ReadOpening(raw).Some? && ReadOpening(raw).value.0 == opening
    requires Shapes.ReadU16List(ReadOpening(raw).value.1).None?
    ensures Shapes.ParseShape(raw).None?
  {
    ParseInStages(raw);
  }
}
