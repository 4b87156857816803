/**
 The shape oracle's reading of a ClientHello: cipher suites, extension order
 and lengths, and the decoded payload lists, with GREASE values normalized.
 */
module ClientHelloShape {
  import opened Options
  import opened Wire
  import opened ClientHello

  /** A formatted code point: GREASE, or the number that is printed in hexadecimal. */
  datatype Label = Grease | Code(value: nat)

  predicate IsGrease(v: nat) {
    v / 0x100 == v % 0x100 && v % 0x10 == 0xa
  }

  function Format(v: nat): Label {
    if IsGrease(v) then Grease else Code(v)
  }

  function FormatAll(vs: seq<nat>): seq<Label> {
    seq(|vs|, i requires 0 <= i < |vs| => Format(vs[i]))
  }

  // ---- Lists of two-byte values

  predicate U16s(vs: seq<nat>) {
    forall i :: 0 <= i < |vs| ==> vs[i] < 0x1_0000
  }

  function EncodeU16s(vs: seq<nat>): (s: Bytes)
    requires U16s(vs)
    ensures |s| == 2 * |vs|
  {
    if vs == [] then [] else U16(vs[0]) + EncodeU16s(vs[1..])
  }

  function Pairs(s: Bytes): (vs: seq<nat>)
    requires |s| % 2 == 0
    ensures |vs| == |s| / 2
  {
    if s == [] then [] else [s[0] as nat * 0x100 + s[1] as nat] + Pairs(s[2..])
  }

  lemma {:induction false} PairsExact(s: Bytes, vs: seq<nat>)
    requires |s| % 2 == 0
    ensures Pairs(s) == vs <==> U16s(vs) && s == EncodeU16s(vs)
  {
    if s != [] && vs != [] {
      PairsExact(s[2..], vs[1..]);
      U16Exact(s, vs[0], s[2..]);
      assert vs == [vs[0]] + vs[1..];
      if U16s(vs) {
        U16Exact(EncodeU16s(vs), vs[0], EncodeU16s(vs[1..]));
      }
    }
  }

  function PairsOf(vector: Option<(Bytes, Bytes)>): Option<(seq<nat>, Bytes)> {
    match vector
    case None => None
    case Some((block, rest)) => if |block| % 2 != 0 then None else Some((Pairs(block), rest))
  }

  function ReadU16List(s: Bytes): Option<(seq<nat>, Bytes)> {
    PairsOf(ReadVec16(s))
  }

  function ReadShortU16List(s: Bytes): Option<(seq<nat>, Bytes)> {
    PairsOf(ReadVec8(s))
  }

  // ---- Protocol names

  predicate NamesFit(names: seq<Bytes>) {
    forall i :: 0 <= i < |names| ==> |names[i]| < 0x100
  }

  function EncodeNames(names: seq<Bytes>): Bytes
    requires NamesFit(names)
  {
    if names == [] then [] else Vec8(names[0]) + EncodeNames(names[1..])
  }

  // Reads names while the declared length is not used up; the last may run past it.
  function NameLoop(s: Bytes, remaining: int): Option<(seq<Bytes>, Bytes)>
    decreases |s|
  {
    if remaining <= 0 then Some(([], s)) else
    match ReadVec8(s)
    case None => None
    case Some((name, rest)) =>
      match NameLoop(rest, remaining - 1 - |name|)
      case None => None
      case Some((names, rest')) => Some(([name] + names, rest'))
  }

  function ReadNames(s: Bytes): Option<(seq<Bytes>, Bytes)> {
    match ReadU16(s)
    case None => None
    case Some((length, rest)) => if |rest| < length then None else NameLoop(rest, length)
  }

  // The loop reads exactly these names when it is given this many bytes to use up.
  predicate UsesUp(names: seq<Bytes>, length: int) {
    if names == [] then length <= 0 else length > 0 && UsesUp(names[1..], length - 1 - |names[0]|)
  }

  lemma {:induction false} NamesReadBack(names: seq<Bytes>, length: int, rest: Bytes)
    requires NamesFit(names) && UsesUp(names, length)
    ensures NameLoop(EncodeNames(names) + rest, length) == Some((names, rest))
  {
    if names == [] {
      assert EncodeNames(names) + rest == rest;
    } else {
      var tail := EncodeNames(names[1..]) + rest;
      NamesReadBack(names[1..], length - 1 - |names[0]|, rest);
      assert EncodeNames(names) + rest == Vec8(names[0]) + tail;
      Vec8Exact(EncodeNames(names) + rest, names[0], tail);
      assert names == [names[0]] + names[1..];
    }
  }

  lemma {:induction false} NamesTile(s: Bytes, length: int, names: seq<Bytes>, rest: Bytes)
    requires NameLoop(s, length) == Some((names, rest))
    ensures NamesFit(names) && s == EncodeNames(names) + rest && UsesUp(names, length)
    decreases |s|
  {
    if length <= 0 {
      assert EncodeNames(names) + rest == rest;
    } else {
      var name, tail := ReadVec8(s).value.0, ReadVec8(s).value.1;
      Vec8Exact(s, name, tail);
      assert |tail| < |s|;
      hide Vec8, ReadVec8;
      var others := NameLoop(tail, length - 1 - |name|).value.0;
      NamesTile(tail, length - 1 - |name|, others, rest);
      assert names == [name] + others && names[1..] == others;
      assert Vec8(name) + (EncodeNames(others) + rest) == (Vec8(name) + EncodeNames(others)) + rest;
    }
  }

  lemma NameLoopExact(s: Bytes, length: int, names: seq<Bytes>, rest: Bytes)
    ensures NameLoop(s, length) == Some((names, rest))
        <==> NamesFit(names) && s == EncodeNames(names) + rest && UsesUp(names, length)
  {
    if NameLoop(s, length) == Some((names, rest)) {
      NamesTile(s, length, names, rest);
    } else if NamesFit(names) && UsesUp(names, length) {
      NamesReadBack(names, length, rest);
    }
  }

  // In closed form: the last name starts before the declared end, which is not past its own end.
  lemma {:induction false} UsesUpRange(names: seq<Bytes>, length: int)
    requires NamesFit(names)
    ensures UsesUp(names, length) <==>
              if names == [] then length <= 0
              else |EncodeNames(names[..|names| - 1])| < length <= |EncodeNames(names)|
  {
    if |names| == 1 {
      assert names[..0] == [] && names[1..] == [];
    } else if |names| > 1 {
      UsesUpRange(names[1..], length - 1 - |names[0]|);
      var front := names[..|names| - 1];
      assert front[1..] == names[1..][..|names| - 2] && front[0] == names[0];
    }
  }

  /** Exactly which payloads the protocol-name reader accepts: names that tile the rest, under any
      declared length that ends inside the last name or at its end. */
  lemma NameListExact(data: Bytes, names: seq<Bytes>)
    ensures ReadNames(data) == Some((names, [])) <==>
              NamesFit(names) && exists length: nat ::
                && length < 0x1_0000 && data == U16(length) + EncodeNames(names)
                && (if names == [] then length == 0
                    else |EncodeNames(names[..|names| - 1])| < length <= |EncodeNames(names)|)
  {
    if ReadNames(data) == Some((names, [])) {
      var (length, rest) := ReadU16(data).value;
      U16Exact(data, length, rest);
      NameLoopExact(rest, length, names, []);
      assert EncodeNames(names) + [] == EncodeNames(names);
      UsesUpRange(names, length);
    }
    if NamesFit(names) {
      forall length: nat |
        && length < 0x1_0000 && data == U16(length) + EncodeNames(names)
        && (if names == [] then length == 0
            else |EncodeNames(names[..|names| - 1])| < length <= |EncodeNames(names)|)
        ensures ReadNames(data) == Some((names, []))
      {
        U16Exact(data, length, EncodeNames(names));
        UsesUpRange(names, length);
        assert EncodeNames(names) + [] == EncodeNames(names);
        NameLoopExact(EncodeNames(names), length, names, []);
      }
    }
  }

  /** So a list whose declared length cuts its last name short is still accepted. */
  lemma OverrunningNameAccepted(name: Bytes, length: nat)
    requires |name| < 0x100 && 0 < length < |Vec8(name)|
    ensures ReadNames(U16(length) + Vec8(name)) == Some(([name], []))
  {
    var names := [name];
    assert names[..|names| - 1] == [] && names[1..] == [];
    assert EncodeNames(names) == Vec8(name) + EncodeNames([]) == Vec8(name);
    NameListExact(U16(length) + Vec8(name), names);
  }

  // ---- The shape

  const SUPPORTED_GROUPS := 0x000a
  const EC_POINT_FORMATS := 0x000b
  const SIGNATURE_ALGORITHMS := 0x000d
  const ALPN := 0x0010
  const PADDING := 0x0015
  const COMPRESS_CERTIFICATE := 0x001b
  const RECORD_SIZE_LIMIT := 0x001c
  const DELEGATED_CREDENTIALS := 0x0022
  const SUPPORTED_VERSIONS := 0x002b
  const PSK_KEY_EXCHANGE_MODES := 0x002d
  const APPLICATION_SETTINGS := 0x4469
  const APPLICATION_SETTINGS_NEW := 0x44cd
  const ENCRYPTED_CLIENT_HELLO := 0xfe0d

  /** The payload lists of a shape; a later extension of one type replaces an earlier one, except
      application settings, which accumulate. */
  datatype Payloads = Payloads(
    versions: seq<Label>, groups: seq<Label>, pointFormats: Bytes, signatures: seq<Label>, delegated: seq<Label>,
    alpn: seq<Bytes>, keyShares: seq<(Label, nat)>, pskModes: Bytes, certCompression: seq<Label>,
    recordLimit: Option<Label>, settings: seq<(Label, seq<Bytes>)>, padding: Option<nat>, ech: Option<nat>)

  const NoPayloads := Payloads([], [], [], [], [], [], [], [], [], None, [], None, None)

  datatype Shape = Shape(
    length: nat, version: Label, ciphers: seq<Label>, compression: Bytes,
    order: seq<Label>, extensions: seq<(Label, nat)>, payloads: Payloads)

  // A payload that must be consumed to its end.
  function Whole<T>(r: Option<(T, Bytes)>): Option<T> {
    match r
    case None => None
    case Some((value, rest)) => if rest != [] then None else Some(value)
  }

  function Sizes(shares: seq<Entry>): seq<(Label, nat)> {
    seq(|shares|, i requires 0 <= i < |shares| => (Format(shares[i].tag), |shares[i].data|))
  }

  /** One extension's effect on the payload lists, None where its payload does not parse. */
  function Absorb(p: Payloads, tag: nat, data: Bytes): Option<Payloads> {
    if tag == SUPPORTED_VERSIONS then
      match Whole(ReadShortU16List(data)) case None => None case Some(vs) => Some(p.(versions := FormatAll(vs)))
    else if tag == SUPPORTED_GROUPS then
      match Whole(ReadU16List(data)) case None => None case Some(vs) => Some(p.(groups := FormatAll(vs)))
    else if tag == EC_POINT_FORMATS then
      match Whole(ReadVec8(data)) case None => None case Some(bs) => Some(p.(pointFormats := bs))
    else if tag == SIGNATURE_ALGORITHMS then
      match Whole(ReadU16List(data)) case None => None case Some(vs) => Some(p.(signatures := FormatAll(vs)))
    else if tag == DELEGATED_CREDENTIALS then
      match Whole(ReadU16List(data)) case None => None case Some(vs) => Some(p.(delegated := FormatAll(vs)))
    else if tag == ALPN then
      match Whole(ReadNames(data)) case None => None case Some(names) => Some(p.(alpn := names))
    else if tag == KEY_SHARE then
      match SharesOf(data) case None => None case Some(shares) => Some(p.(keyShares := Sizes(shares)))
    else if tag == PSK_KEY_EXCHANGE_MODES then
      match Whole(ReadVec8(data)) case None => None case Some(bs) => Some(p.(pskModes := bs))
    else if tag == COMPRESS_CERTIFICATE then
      match Whole(ReadShortU16List(data)) case None => None case Some(vs) => Some(p.(certCompression := FormatAll(vs)))
    else if tag == RECORD_SIZE_LIMIT then
      match Whole(ReadU16(data)) case None => None case Some(v) => Some(p.(recordLimit := Some(Format(v))))
    else if tag == APPLICATION_SETTINGS || tag == APPLICATION_SETTINGS_NEW then
      match Whole(ReadNames(data)) case None => None
      case Some(names) => Some(p.(settings := p.settings + [(Format(tag), names)]))
    else if tag == PADDING then Some(p.(padding := Some(|data|)))
    else if tag == ENCRYPTED_CLIENT_HELLO then Some(p.(ech := Some(|data|)))
    else Some(p)
  }

  function AbsorbAll(p: Payloads, es: seq<Entry>): Option<Payloads>
    decreases |es|
  {
    if es == [] then Some(p) else
    match Absorb(p, es[0].tag, es[0].data)
    case None => None
    case Some(p') => AbsorbAll(p', es[1..])
  }

  function Order(es: seq<Entry>): seq<Label> {
    seq(|es|, i requires 0 <= i < |es| => Format(es[i].tag))
  }

  /** What the shape oracle makes of a decoded hello. */
  function ShapeOf(h: Hello, length: nat): Option<Shape> {
    if |h.ciphers| % 2 != 0 then None else
    match AbsorbAll(NoPayloads, h.extensions)
    case None => None
    case Some(payloads) =>
      Some(Shape(length, Format(h.version), FormatAll(Pairs(h.ciphers)), h.compression,
                 Order(h.extensions), Sizes(h.extensions), payloads))
  }

  function ParseShape(raw: Bytes): Option<Shape> {
    match Parse(raw)
    case None => None
    case Some(h) => ShapeOf(h, |raw|)
  }

  // ---- Round trip

  /** The payloads the oracle decodes, as section 4.2 of RFC 8446 and its relatives define them. */
  datatype Payload =
    | Versions(vs: seq<nat>) | Groups(vs: seq<nat>) | PointFormats(bs: Bytes) | Signatures(vs: seq<nat>)
    | Delegated(vs: seq<nat>) | Alpn(names: seq<Bytes>) | KeyShares(shares: seq<Entry>) | PskModes(bs: Bytes)
    | CertCompression(vs: seq<nat>) | RecordLimit(v: nat) | Settings(renewed: bool, names: seq<Bytes>)
    | Padding(bs: Bytes) | Ech(bs: Bytes) | Undecoded(tag: nat, bs: Bytes)

  const DecodedTags := {
    SUPPORTED_GROUPS, EC_POINT_FORMATS, SIGNATURE_ALGORITHMS, ALPN, PADDING, COMPRESS_CERTIFICATE, RECORD_SIZE_LIMIT,
    DELEGATED_CREDENTIALS, SUPPORTED_VERSIONS, PSK_KEY_EXCHANGE_MODES, KEY_SHARE, APPLICATION_SETTINGS,
    APPLICATION_SETTINGS_NEW, ENCRYPTED_CLIENT_HELLO}

  predicate PayloadFits(p: Payload) {
    match p
    case Versions(vs) => U16s(vs) && 2 * |vs| < 0x100
    case Groups(vs) => U16s(vs) && 2 * |vs| < 0x1_0000
    case PointFormats(bs) => |bs| < 0x100
    case Signatures(vs) => U16s(vs) && 2 * |vs| < 0x1_0000
    case Delegated(vs) => U16s(vs) && 2 * |vs| < 0x1_0000
    case Alpn(names) => NamesFit(names) && |EncodeNames(names)| < 0x1_0000
    case KeyShares(shares) => EntriesFit(shares) && |EncodeEntries(shares)| < 0x1_0000
    case PskModes(bs) => |bs| < 0x100
    case CertCompression(vs) => U16s(vs) && 2 * |vs| < 0x100
    case RecordLimit(v) => v < 0x1_0000
    case Settings(_, names) => NamesFit(names) && |EncodeNames(names)| < 0x1_0000
    case Padding(_) => true
    case Ech(_) => true
    case Undecoded(tag, _) => tag !in DecodedTags
  }

  function EncodePayload(p: Payload): Entry
    requires PayloadFits(p)
  {
    match p
    case Versions(vs) => Entry(SUPPORTED_VERSIONS, Vec8(EncodeU16s(vs)))
    case Groups(vs) => Entry(SUPPORTED_GROUPS, Vec16(EncodeU16s(vs)))
    case PointFormats(bs) => Entry(EC_POINT_FORMATS, Vec8(bs))
    case Signatures(vs) => Entry(SIGNATURE_ALGORITHMS, Vec16(EncodeU16s(vs)))
    case Delegated(vs) => Entry(DELEGATED_CREDENTIALS, Vec16(EncodeU16s(vs)))
    case Alpn(names) => Entry(ALPN, Vec16(EncodeNames(names)))
    case KeyShares(shares) => Entry(KEY_SHARE, Vec16(EncodeEntries(shares)))
    case PskModes(bs) => Entry(PSK_KEY_EXCHANGE_MODES, Vec8(bs))
    case CertCompression(vs) => Entry(COMPRESS_CERTIFICATE, Vec8(EncodeU16s(vs)))
    case RecordLimit(v) => Entry(RECORD_SIZE_LIMIT, U16(v))
    case Settings(renewed, names) =>
      Entry(if renewed then APPLICATION_SETTINGS_NEW else APPLICATION_SETTINGS, Vec16(EncodeNames(names)))
    case Padding(bs) => Entry(PADDING, bs)
    case Ech(bs) => Entry(ENCRYPTED_CLIENT_HELLO, bs)
    case Undecoded(tag, bs) => Entry(tag, bs)
  }

  // The payload's record in the shape.
  function Record(into: Payloads, p: Payload): Payloads {
    match p
    case Versions(vs) => into.(versions := FormatAll(vs))
    case Groups(vs) => into.(groups := FormatAll(vs))
    case PointFormats(bs) => into.(pointFormats := bs)
    case Signatures(vs) => into.(signatures := FormatAll(vs))
    case Delegated(vs) => into.(delegated := FormatAll(vs))
    case Alpn(names) => into.(alpn := names)
    case KeyShares(shares) => into.(keyShares := Sizes(shares))
    case PskModes(bs) => into.(pskModes := bs)
    case CertCompression(vs) => into.(certCompression := FormatAll(vs))
    case RecordLimit(v) => into.(recordLimit := Some(Format(v)))
    case Settings(renewed, names) =>
      into.(settings := into.settings
                        + [(Format(if renewed then APPLICATION_SETTINGS_NEW else APPLICATION_SETTINGS), names)])
    case Padding(bs) => into.(padding := Some(|bs|))
    case Ech(bs) => into.(ech := Some(|bs|))
    case Undecoded(_, _) => into
  }

  lemma VectorsReadBack(v: Bytes)
    ensures |v| < 0x100 ==> ReadVec8(Vec8(v)) == Some((v, []))
    ensures |v| < 0x1_0000 ==> ReadVec16(Vec16(v)) == Some((v, []))
  {
    if |v| < 0x100 {
      assert Vec8(v) + [] == Vec8(v);
      Vec8Exact(Vec8(v), v, []);
    }
    if |v| < 0x1_0000 {
      assert Vec16(v) + [] == Vec16(v);
      Vec16Exact(Vec16(v), v, []);
    }
  }

  lemma PairsReadBack(vs: seq<nat>, block: Bytes)
    requires U16s(vs) && block == EncodeU16s(vs)
    ensures Whole(PairsOf(Some((block, [])))) == Some(vs)
  {
    PairsExact(block, vs);
  }

  lemma ListsReadBack(vs: seq<nat>)
    requires U16s(vs)
    ensures 2 * |vs| < 0x100 ==> Whole(ReadShortU16List(Vec8(EncodeU16s(vs)))) == Some(vs)
    ensures 2 * |vs| < 0x1_0000 ==> Whole(ReadU16List(Vec16(EncodeU16s(vs)))) == Some(vs)
  {
    var block := EncodeU16s(vs);
    VectorsReadBack(block);
    PairsReadBack(vs, block);
  }

  lemma {:induction false} LastNameNonempty(names: seq<Bytes>)
    requires NamesFit(names) && names != []
    ensures |EncodeNames(names[..|names| - 1])| < |EncodeNames(names)|
  {
    if |names| == 1 {
      assert names[..0] == [];
    } else {
      LastNameNonempty(names[1..]);
      var front := names[..|names| - 1];
      assert front[1..] == names[1..][..|names| - 2] && front[0] == names[0];
    }
  }

  lemma NamesListReadBack(names: seq<Bytes>)
    requires NamesFit(names) && |EncodeNames(names)| < 0x1_0000
    ensures Whole(ReadNames(Vec16(EncodeNames(names)))) == Some(names)
  {
    if names != [] { LastNameNonempty(names); }
    NameListExact(Vec16(EncodeNames(names)), names);
  }

  lemma ListPayloadReadBack(into: Payloads, p: Payload)
    requires PayloadFits(p) && (p.Versions? || p.Groups? || p.Signatures? || p.Delegated? || p.CertCompression?)
    ensures Absorb(into, EncodePayload(p).tag, EncodePayload(p).data) == Some(Record(into, p))
  {
    ListsReadBack(p.vs);
  }

  lemma OtherPayloadReadBack(into: Payloads, p: Payload)
    requires PayloadFits(p) && !p.Versions? && !p.Groups? && !p.Signatures? && !p.Delegated? && !p.CertCompression?
    ensures Absorb(into, EncodePayload(p).tag, EncodePayload(p).data) == Some(Record(into, p))
  {
    hide SharesOf, ReadNames, EncodeNames, EncodeEntries, Vec8, Vec16, ReadVec8, ReadVec16, U16, ReadU16, Sizes;
    match p
    case PointFormats(bs) => VectorsReadBack(bs);
    case Alpn(names) => NamesListReadBack(names);
    case KeyShares(shares) => SharesExact(Vec16(EncodeEntries(shares)), shares);
    case PskModes(bs) => VectorsReadBack(bs);
    case RecordLimit(v) => U16Exact(U16(v), v, []); assert U16(v) + [] == U16(v);
    case Settings(_, names) => NamesListReadBack(names);
    case Padding(_) =>
    case Ech(_) =>
    case Undecoded(_, _) =>
  }

  lemma PayloadReadBack(into: Payloads, p: Payload)
    requires PayloadFits(p)
    ensures Absorb(into, EncodePayload(p).tag, EncodePayload(p).data) == Some(Record(into, p))
  {
    if p.Versions? || p.Groups? || p.Signatures? || p.Delegated? || p.CertCompression? {
      ListPayloadReadBack(into, p);
    } else {
      OtherPayloadReadBack(into, p);
    }
  }

  function RecordAll(into: Payloads, ps: seq<Payload>): Payloads
    decreases |ps|
  {
    if ps == [] then into else RecordAll(Record(into, ps[0]), ps[1..])
  }

  ghost predicate Encodes(es: seq<Entry>, ps: seq<Payload>) {
    && |es| == |ps|
    && forall i :: 0 <= i < |ps| ==> PayloadFits(ps[i]) && es[i] == EncodePayload(ps[i])
  }

  lemma {:induction false} PayloadsReadBack(into: Payloads, es: seq<Entry>, ps: seq<Payload>)
    requires Encodes(es, ps)
    ensures AbsorbAll(into, es) == Some(RecordAll(into, ps))
    decreases |ps|
  {
    if ps != [] {
      PayloadReadBack(into, ps[0]);
      PayloadsReadBack(Record(into, ps[0]), es[1..], ps[1..]);
    }
  }

  lemma ShapeReadBack(h: Hello, length: nat, suites: seq<nat>, ps: seq<Payload>)
    requires U16s(suites) && h.ciphers == EncodeU16s(suites) && Encodes(h.extensions, ps)
    ensures ShapeOf(h, length)
         == Some(Shape(length, Format(h.version), FormatAll(suites), h.compression,
                       Order(h.extensions), Sizes(h.extensions), RecordAll(NoPayloads, ps)))
  {
    PairsExact(h.ciphers, suites);
    PayloadsReadBack(NoPayloads, h.extensions, ps);
  }

  /** For every abstract hello within the length bounds, the shape oracle returns its cipher
      suites, extension order and lengths, and every decoded list. */
  lemma ShapeRoundTrip(h: Hello, raw: Bytes, suites: seq<nat>, ps: seq<Payload>)
    requires Fits(h) && raw == Encode(h)
    requires U16s(suites) && h.ciphers == EncodeU16s(suites) && Encodes(h.extensions, ps)
    ensures ParseShape(raw)
         == Some(Shape(|raw|, Format(h.version), FormatAll(suites), h.compression,
                       Order(h.extensions), Sizes(h.extensions), RecordAll(NoPayloads, ps)))
  {
    EncodingParses(h);
    ShapeReadBack(h, |raw|, suites, ps);
  }
}
