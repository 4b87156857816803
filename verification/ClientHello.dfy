/**
 The ClientHello of sections 4.1.2, 4.2 and 4.2.8 of RFC 8446: an abstract
 hello, its encoding, and the framing both oracles read.
 */
module ClientHello {
  import opened Options
  import opened Wire

  const KEY_SHARE := 0x0033

  datatype Hello = Hello(
    version: nat, random: Bytes, session: Bytes, ciphers: Bytes, compression: Bytes, extensions: seq<Entry>)

  predicate Fits(h: Hello) {
    && h.version < 0x1_0000 && |h.random| == 32 && |h.session| < 0x100
    && |h.ciphers| < 0x1_0000 && |h.compression| < 0x100
    && EntriesFit(h.extensions) && |EncodeEntries(h.extensions)| < 0x1_0000
  }

  // The parts of the body in front of the extension block.
  function Preamble(h: Hello): Bytes
    requires Fits(h)
  {
    U16(h.version) + (h.random + (Vec8(h.session) + (Vec16(h.ciphers) + Vec8(h.compression))))
  }

  function Body(h: Hello): Bytes
    requires Fits(h)
  {
    U16(h.version) + (h.random + (Vec8(h.session) + (Vec16(h.ciphers) + (Vec8(h.compression)
    + Vec16(EncodeEntries(h.extensions))))))
  }

  function Encode(h: Hello): Bytes
    requires Fits(h)
  {
    U8(1) + (U24(|Body(h)|) + Body(h))
  }

  function ParseTail(version: nat, random: Bytes, session: Bytes, ciphers: Bytes, s: Bytes): Option<Hello> {
    match ReadVec8(s)
    case None => None
    case Some((compression, rest)) =>
      match ReadVec16(rest)
      case None => None
      case Some((block, left)) =>
        if left != [] then None else
        match ReadEntries(block)
        case None => None
        case Some(extensions) => Some(Hello(version, random, session, ciphers, compression, extensions))
  }

  function ParseBody(s: Bytes): Option<Hello> {
    match ReadU16(s)
    case None => None
    case Some((version, rest1)) =>
      match Take(rest1, 32)
      case None => None
      case Some((random, rest2)) =>
        match ReadVec8(rest2)
        case None => None
        case Some((session, rest3)) =>
          match ReadVec16(rest3)
          case None => None
          case Some((ciphers, rest4)) => ParseTail(version, random, session, ciphers, rest4)
  }

  /** The framing checks common to both oracles. */
  function Parse(raw: Bytes): Option<Hello> {
    match ReadU8(raw)
    case None => None
    case Some((handshakeType, rest)) =>
      if handshakeType != 1 then None else
      match ReadU24(rest)
      case None => None
      case Some((length, body)) => if length != |raw| - 4 then None else ParseBody(body)
  }

  lemma TailExact(s: Bytes, h: Hello)
    requires h.version < 0x1_0000 && |h.random| == 32 && |h.session| < 0x100 && |h.ciphers| < 0x1_0000
    ensures ParseTail(h.version, h.random, h.session, h.ciphers, s) == Some(h)
        <==> Fits(h) && s == Vec8(h.compression) + Vec16(EncodeEntries(h.extensions))
  {
    if ParseTail(h.version, h.random, h.session, h.ciphers, s) == Some(h) {
      var rest := ReadVec8(s).value.1;
      Vec8Exact(s, h.compression, rest);
      var block := ReadVec16(rest).value.0;
      Vec16Exact(rest, block, []);
      EntriesTile(block, h.extensions);
      assert Vec16(block) + [] == Vec16(block);
    }
    if Fits(h) && s == Vec8(h.compression) + Vec16(EncodeEntries(h.extensions)) {
      var block := EncodeEntries(h.extensions);
      Vec8Exact(s, h.compression, Vec16(block));
      Vec16Exact(Vec16(block), block, []);
      assert Vec16(block) + [] == Vec16(block);
      EntriesTile(block, h.extensions);
    }
  }

  lemma BodyReadBack(h: Hello)
    requires Fits(h)
    ensures ParseBody(Body(h)) == Some(h)
  {
    var tail := Vec8(h.compression) + Vec16(EncodeEntries(h.extensions));
    var fromCiphers := Vec16(h.ciphers) + tail;
    var fromSession := Vec8(h.session) + fromCiphers;
    var fromRandom := h.random + fromSession;
    U16Exact(Body(h), h.version, fromRandom);
    TakeExact(fromRandom, h.random, fromSession);
    Vec8Exact(fromSession, h.session, fromCiphers);
    Vec16Exact(fromCiphers, h.ciphers, tail);
    TailExact(tail, h);
  }

  lemma BodyExact(s: Bytes, h: Hello)
    ensures ParseBody(s) == Some(h) <==> Fits(h) && s == Body(h)
  {
    if Fits(h) {
      BodyReadBack(h);
    }
    if ParseBody(s) == Some(h) {
      var fromRandom := ReadU16(s).value.1;
      var fromSession := Take(fromRandom, 32).value.1;
      var fromCiphers := ReadVec8(fromSession).value.1;
      var tail := ReadVec16(fromCiphers).value.1;
      U16Exact(s, h.version, fromRandom);
      TakeExact(fromRandom, h.random, fromSession);
      Vec8Exact(fromSession, h.session, fromCiphers);
      Vec16Exact(fromCiphers, h.ciphers, tail);
      TailExact(tail, h);
    }
  }

  lemma BodyLength(h: Hello)
    requires Fits(h)
    ensures |Body(h)| < 0x100_0000
    ensures |Body(h)| == |Preamble(h)| + 2 + |EncodeEntries(h.extensions)|
  {
  }

  lemma EncodingParses(h: Hello)
    requires Fits(h)
    ensures Parse(Encode(h)) == Some(h)
  {
    var body := Body(h);
    BodyLength(h);
    var rest := U24(|body|) + body;
    U8Exact(U8(1) + rest, 1, rest);
    U24Exact(rest, |body|, body);
    BodyReadBack(h);
  }

  lemma ParsedIsEncoding(raw: Bytes, h: Hello)
    requires Parse(raw) == Some(h)
    ensures Fits(h) && raw == Encode(h)
  {
    var rest := ReadU8(raw).value.1;
    var length, body := ReadU24(rest).value.0, ReadU24(rest).value.1;
    U8Exact(raw, 1, rest);
    U24Exact(rest, length, body);
    assert |raw| == 4 + |body| && length == |body|;
    assert ParseBody(body) == Some(h);
    BodyExact(body, h);
  }

  /** Parsing inverts encoding in both directions: a byte string is accepted exactly when it is
      the encoding of some hello, and that hello is the result. */
  lemma ParseInvertsEncode(raw: Bytes, h: Hello)
    ensures Parse(raw) == Some(h) <==> Fits(h) && raw == Encode(h)
  {
    if Fits(h) && raw == Encode(h) {
      EncodingParses(h);
    } else if Parse(raw) == Some(h) {
      ParsedIsEncoding(raw, h);
    }
  }

  // Absolute offset of the data of extension i.
  function DataOffset(h: Hello, i: nat): nat
    requires Fits(h) && i < |h.extensions|
  {
    4 + |Preamble(h)| + 2 + |EncodeEntries(h.extensions[..i])| + 4
  }

  lemma BlockInPlace(h: Hello)
    requires Fits(h)
    ensures var block := EncodeEntries(h.extensions);
            && |Encode(h)| == 4 + |Preamble(h)| + 2 + |block|
            && Encode(h)[4 + |Preamble(h)| + 2..] == block
  {
    var block, preamble := EncodeEntries(h.extensions), Preamble(h);
    assert Body(h) == preamble + (U16(|block|) + block);
    var header := U8(1) + U24(|Body(h)|);
    assert Encode(h) == (header + preamble + U16(|block|)) + block;
  }

  lemma ExtensionInPlace(h: Hello, i: nat)
    requires Fits(h) && i < |h.extensions|
    ensures var at, e := DataOffset(h, i), h.extensions[i];
            && at + |e.data| <= |Encode(h)|
            && Encode(h)[at..at + |e.data|] == e.data
  {
    BlockInPlace(h);
    EntryInPlace(h.extensions, i);
    hide Encode, Preamble, EncodeEntries, Fits;
    var start, at, n := 4 + |Preamble(h)| + 2, |EncodeEntries(h.extensions[..i])| + 4, |h.extensions[i].data|;
    SliceBehind(Encode(h), start, at, n);
  }

  lemma SliceBehind(s: Bytes, start: nat, at: nat, n: nat)
    requires start + at + n <= |s|
    ensures s[start..][at..at + n] == s[start + at..start + at + n]
  {
  }

  // The client_shares of a key_share extension, None unless they fill its data.
  function SharesOf(data: Bytes): Option<seq<Entry>> {
    match ReadVec16(data)
    case None => None
    case Some((block, left)) => if left != [] then None else ReadEntries(block)
  }

  lemma SharesExact(data: Bytes, shares: seq<Entry>)
    ensures SharesOf(data) == Some(shares) <==>
              EntriesFit(shares) && |EncodeEntries(shares)| < 0x1_0000 && data == Vec16(EncodeEntries(shares))
  {
    if SharesOf(data) == Some(shares) {
      var block := ReadVec16(data).value.0;
      Vec16Exact(data, block, []);
      assert Vec16(block) + [] == Vec16(block);
      EntriesTile(block, shares);
    }
    if EntriesFit(shares) && |EncodeEntries(shares)| < 0x1_0000 && data == Vec16(EncodeEntries(shares)) {
      var block := EncodeEntries(shares);
      assert Vec16(block) + [] == Vec16(block);
      Vec16Exact(data, block, []);
      EntriesTile(block, shares);
    }
  }

  lemma SharesFit(data: Bytes)
    ensures SharesOf(data).Some? ==> EntriesFit(SharesOf(data).value)
    ensures forall shares :: SharesOf(data) == Some(shares) <==>
              EntriesFit(shares) && |EncodeEntries(shares)| < 0x1_0000 && data == Vec16(EncodeEntries(shares))
  {
    forall shares
      ensures SharesOf(data) == Some(shares) <==>
              EntriesFit(shares) && |EncodeEntries(shares)| < 0x1_0000 && data == Vec16(EncodeEntries(shares))
    {
      SharesExact(data, shares);
    }
  }
}
